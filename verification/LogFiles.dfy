/**
  * AuditLog (audit_log.py) and the evidence ledger (sentinelgrc.py) as objects
  * over their file's text. Each call runs under the file lock, so it is one
  * step; a write is one whole append.
  */
module LogFiles {
  import opened Basics
  import opened CanonicalJson
  import opened ChainedLog

  /** The verification loop shared by both logs. */
  method VerifyText(format: Format, sha: Digest, loads: Loads, text: string) returns (valid: bool)
    requires Reads(loads, format.ascii)
    ensures valid <==> Verifies(format, sha, loads, text)
  {
    hide HashedText, WellFormed, Lines, Links, LinkAt;
    var lines := Lines(text);
    NothingChained(format, sha);
    var previous := GENESIS;
    ghost var vs: seq<Json> := [];
    assert Records(loads, lines[..0]) == Some(vs);
    hide Records, Chained, Reads;
    for i := 0 to |lines|
      invariant Records(loads, lines[..i]) == Some(vs)
      invariant Chained(format, sha, vs) && previous == Head(format, sha, vs)
    {
      var record := loads(lines[i]);
      NextLine(format, sha, loads, lines, i, vs);
      if record.None? || !record.value.Obj? || !Links(format, sha, record.value, previous) { return false; }
      previous := sha(HashedText(format, record.value));
      vs := vs + [record.value];
    }
    assert lines[..|lines|] == lines;
    valid := true;
  }

  lemma NothingChained(format: Format, sha: Digest)
    ensures Chained(format, sha, [])
  {
  }

  lemma RecordsPrefix(loads: Loads, lines: seq<string>, n: nat)
    requires n <= |lines|
    ensures Records(loads, lines).Some? ==> Records(loads, lines[..n]) == Some(Records(loads, lines).value[..n])
  {
    var all := Records(loads, lines);
    var some := Records(loads, lines[..n]);
    if all.Some? {
      assert forall i :: 0 <= i < n ==> loads(lines[..n][i]) == Some(all.value[i]);
      assert some.Some?;
      assert some.value == all.value[..n];
    }
  }

  lemma ReadWellFormed(loads: Loads, ascii: bool, line: string)
    requires Reads(loads, ascii) && loads(line).Some?
    ensures WellFormed(loads(line).value)
  {
    hide WellFormed;
    assert Held(loads, loads(line).value);
  }

  /** What one more line does to the records read so far. */
  lemma NextLine(format: Format, sha: Digest, loads: Loads, lines: seq<string>, i: nat, vs: seq<Json>)
    requires Reads(loads, format.ascii) && i < |lines|
    requires Records(loads, lines[..i]) == Some(vs) && Chained(format, sha, vs)
    ensures var v := loads(lines[i]);
            if v.Some? && v.value.Obj? && Links(format, sha, v.value, Head(format, sha, vs))
            then Records(loads, lines[..i + 1]) == Some(vs + [v.value]) && Chained(format, sha, vs + [v.value])
            else Records(loads, lines).Some? ==> !Chained(format, sha, Records(loads, lines).value)
  {
    var v := loads(lines[i]);
    ChainedObjects(format, sha, vs);
    hide HashedText, WellFormed, Links, Chained, Head, Records, Reads;
    if v.Some? {
      if v.value.Obj? && Links(format, sha, v.value, Head(format, sha, vs)) {
        LinkedLine(format, sha, loads, lines, i, vs, v.value);
      } else {
        BrokenAt(format, sha, loads, lines, i, vs, v.value);
      }
    }
  }

  lemma ChainedObjects(format: Format, sha: Digest, vs: seq<Json>)
    requires Chained(format, sha, vs)
    ensures forall i :: 0 <= i < |vs| ==> vs[i].Obj?
  {
    hide WellFormed, LinkAt;
  }

  /** A record that links joins the chain. */
  lemma LinkedLine(format: Format, sha: Digest, loads: Loads, lines: seq<string>, i: nat, vs: seq<Json>, v: Json)
    requires Reads(loads, format.ascii) && i < |lines|
    requires Records(loads, lines[..i]) == Some(vs) && Chained(format, sha, vs)
    requires loads(lines[i]) == Some(v) && v.Obj? && Links(format, sha, v, Head(format, sha, vs))
    ensures Records(loads, lines[..i + 1]) == Some(vs + [v]) && Chained(format, sha, vs + [v])
  {
    ChainedObjects(format, sha, vs);
    hide WellFormed, Links, Chained, Head, Records, Reads;
    ReadWellFormed(loads, format.ascii, lines[i]);
    OneMoreRecord(loads, lines, i);
    ChainedAppend(format, sha, vs, v);
  }

  lemma OneMoreRecord(loads: Loads, lines: seq<string>, i: nat)
    requires i < |lines| && Records(loads, lines[..i]).Some? && loads(lines[i]).Some?
    ensures Records(loads, lines[..i + 1]) == Some(Records(loads, lines[..i]).value + [loads(lines[i]).value])
  {
    hide Records;
    RecordsAppend(loads, lines[..i], lines[i]);
    assert lines[..i + 1] == lines[..i] + [lines[i]];
  }

  /** A record that does not link makes the whole text fail. */
  lemma BrokenAt(format: Format, sha: Digest, loads: Loads, lines: seq<string>, i: nat, vs: seq<Json>, v: Json)
    requires i < |lines| && Records(loads, lines[..i]) == Some(vs) && loads(lines[i]) == Some(v)
    requires Chained(format, sha, vs) && !(v.Obj? && Links(format, sha, v, Head(format, sha, vs)))
    ensures Records(loads, lines).Some? ==> !Chained(format, sha, Records(loads, lines).value)
  {
    hide HashedText, WellFormed, Links, Head, Records;
    var all := Records(loads, lines);
    if all.Some? {
      RecordsPrefix(loads, lines, i);
      assert all.value[..i] == vs && all.value[i] == v;
      assert Chained(format, sha, all.value) ==> LinkAt(format, sha, all.value, i);
    }
  }

  class AuditLog {
    const sha: Digest
    const loads: Loads
    var text: string

    ghost predicate Valid() {
      Reads(loads, false) && PlainDigest(sha)
    }

    constructor (sha: Digest, loads: Loads)
      requires Reads(loads, false) && PlainDigest(sha)
      ensures this.sha == sha && this.loads == loads && Valid()
      ensures text == "" && Sound(sha, loads, text)
    {
      this.sha, this.loads, text := sha, loads, "";
    }

    method Verify() returns (valid: bool)
      requires Valid()
      ensures valid <==> Verifies(AUDIT_LOG, sha, loads, text)
    {
      valid := VerifyText(AUDIT_LOG, sha, loads, text);
    }

    /** The digest the next record must name. */
    method LastHash() returns (r: Result<string, LogError>)
      requires Valid()
      ensures Blank(text) ==> r == Ok(GENESIS)
      ensures !Blank(text) && !Verifies(AUDIT_LOG, sha, loads, text) ==> r == Err(InvalidLog)
      ensures !Blank(text) && Verifies(AUDIT_LOG, sha, loads, text) ==>
                r == Ok(Head(AUDIT_LOG, sha, Records(loads, Lines(text)).value))
    {
      hide HashedText, WellFormed;
      if Blank(text) { return Ok(GENESIS); }
      var valid := VerifyText(AUDIT_LOG, sha, loads, text);
      if !valid { return Err(InvalidLog); }
      var lines := Lines(text);
      NotBlankLines(text);
      ghost var vs := Records(loads, lines).value;
      var last := loads(lines[|lines| - 1]).value;
      assert LinkAt(AUDIT_LOG, sha, vs, |vs| - 1);
      r := Ok(Get(last.members, AUDIT_LOG.hashField).value.text);
    }

    method FindEvent(eventId: string) returns (r: Result<Option<Json>, LogError>)
      requires Valid()
      ensures Blank(text) ==> r == Ok(None)
      ensures !Blank(text) && !Verifies(AUDIT_LOG, sha, loads, text) ==> r == Err(InvalidLog)
      ensures !Blank(text) && Verifies(AUDIT_LOG, sha, loads, text) ==>
                r == Ok(ChainedLog.FindEvent(Records(loads, Lines(text)).value, eventId))
    {
      hide HashedText, WellFormed, HasId;
      if Blank(text) { return Ok(None); }
      var valid := VerifyText(AUDIT_LOG, sha, loads, text);
      if !valid { return Err(InvalidLog); }
      var lines := Lines(text);
      ghost var vs := Records(loads, lines).value;
      for i := 0 to |lines|
        invariant ChainedLog.FindEvent(vs, eventId) == ChainedLog.FindEvent(vs[i..], eventId)
      {
        var record := loads(lines[i]).value;
        if HasId(record, eventId) { return Ok(Some(record)); }
      }
      r := Ok(None);
    }

    /** append_idempotent: at most one record per event id. */
    method AppendIdempotent(e: Entry, recordedAt: string) returns (r: Result<(Json, bool), LogError>)
      requires Valid() && ValidEntry(e)
      modifies this
      ensures match AppendOnce(sha, loads, old(text), e, recordedAt)
              case Err(error) => r == Err(error) && text == old(text)
              case Ok((more, added)) => r.Ok? && r.value.1 == added && text == more && Matches(r.value.0, e)
    {
      hide HashedText, WellFormed, Canonical, Verifies;
      if Blank(e.eventId) { return Err(MissingEventId); }
      var found := FindEvent(e.eventId);
      if found.Err? { return Err(found.error); }
      if found.value.Some? {
        if !Matches(found.value.value, e) { return Err(BoundToOtherContent); }
        return Ok((found.value.value, false));
      }
      var previous := LastHash();
      var record := AuditRecord(sha, e, recordedAt, previous.value);
      text := text + Canonical(record, AUDIT_LOG.ascii) + "\n";
      RecordMatches(sha, e, recordedAt, previous.value);
      r := Ok((record, true));
    }
  }

  lemma RecordMatches(sha: Digest, e: Entry, recordedAt: string, previous: string)
    requires ValidEntry(e)
    ensures Matches(AuditRecord(sha, e, recordedAt, previous), e)
  {
    hide Get, AuditFields;
    var fields := AuditFields(e, recordedAt, previous);
    AuditFieldsGet(e, recordedAt, previous);
    var last := Member("event_hash", Str(sha(Canonical(Obj(fields), false))));
    GetAppend(fields, last, "event_type");
    GetAppend(fields, last, "actor");
    GetAppend(fields, last, "target");
    GetAppend(fields, last, "details");
  }

  lemma NotBlankLines(t: string)
    requires t != ""
    ensures Lines(t) != []
  {
  }

  class EvidenceLedger {
    const sha: Digest
    const loads: Loads
    var text: string

    ghost predicate Valid() {
      Reads(loads, true)
    }

    constructor (sha: Digest, loads: Loads)
      requires Reads(loads, true)
      ensures this.sha == sha && this.loads == loads && Valid() && text == ""
    {
      this.sha, this.loads, text := sha, loads, "";
    }

    method VerifyLedger() returns (valid: bool)
      requires Valid()
      ensures valid <==> Verifies(LEDGER, sha, loads, text)
    {
      valid := VerifyText(LEDGER, sha, loads, text);
    }

    /** append_evidence_atomic: refuses an invalid ledger, otherwise appends a record naming its head. */
    method AppendEvidence(asset: Json, results: Json, recordedAt: string, extra: seq<Member>)
      returns (r: Result<Json, LogError>)
      requires Valid() && WellFormed(asset) && WellFormed(results) && WellFormed(Obj(extra))
      modifies this
      ensures !Verifies(LEDGER, sha, loads, old(text)) ==> r == Err(InvalidLog) && text == old(text)
      ensures Verifies(LEDGER, sha, loads, old(text)) ==>
                var head := Head(LEDGER, sha, Records(loads, Lines(old(text))).value);
                var v := Evidence(sha, EvidenceFields(asset, results, recordedAt, head, extra));
                r == Ok(v) && text == old(text) + Canonical(v, true) + "\n"
    {
      hide HashedText, WellFormed, Canonical, Evidence, EvidenceFields;
      var valid := VerifyText(LEDGER, sha, loads, text);
      if !valid { return Err(InvalidLog); }
      var previous := GENESIS;
      if Blank(text) {
        BlankVerifies(LEDGER, sha, loads, text);
      } else {
        var lines := Lines(text);
        NotBlankLines(text);
        ghost var vs := Records(loads, lines).value;
        var last := loads(lines[|lines| - 1]).value;
        assert LinkAt(LEDGER, sha, vs, |vs| - 1);
        previous := Get(last.members, LEDGER.hashField).value.text;
      }
      var record := Evidence(sha, EvidenceFields(asset, results, recordedAt, previous, extra));
      text := text + Canonical(record, LEDGER.ascii) + "\n";
      r := Ok(record);
    }

    /** find_ledger_record: the first record with the given input hash, in a ledger that verifies. */
    method FindRecord(inputHash: string) returns (r: Result<Option<Json>, LogError>)
      requires Valid()
      ensures !Verifies(LEDGER, sha, loads, text) ==> r == Err(InvalidLog)
      ensures Verifies(LEDGER, sha, loads, text) ==>
                r.Ok? && IsFirstWithInput(r.value, Records(loads, Lines(text)).value, inputHash)
    {
      hide HashedText, WellFormed, HasInput, Chained, Lines, Reads;
      var valid := VerifyText(LEDGER, sha, loads, text);
      if !valid { return Err(InvalidLog); }
      var lines := Lines(text);
      ghost var vs := Records(loads, lines).value;
      for i := 0 to |lines|
        invariant forall j :: 0 <= j < i ==> !HasInput(vs[j], inputHash)
      {
        var record := loads(lines[i]).value;
        if HasInput(record, inputHash) {
          assert FirstInputAt(vs, i, inputHash) && vs[i] == record;
          return Ok(Some(record));
        }
      }
      r := Ok(None);
    }
  }

  predicate HasInput(v: Json, inputHash: string) {
    v.Obj? && Get(v.members, "input_hash") == Some(Str(inputHash))
  }

  ghost predicate FirstInputAt(vs: seq<Json>, i: nat, inputHash: string)
    requires i < |vs|
  {
    HasInput(vs[i], inputHash) && forall j :: 0 <= j < i ==> !HasInput(vs[j], inputHash)
  }

  ghost predicate IsFirstWithInput(r: Option<Json>, vs: seq<Json>, inputHash: string) {
    match r
    case None => forall i :: 0 <= i < |vs| ==> !HasInput(vs[i], inputHash)
    case Some(v) => exists i :: 0 <= i < |vs| && vs[i] == v && FirstInputAt(vs, i, inputHash)
  }
}
