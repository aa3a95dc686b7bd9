/**
  * The two hash-chained text logs: AuditLog (audit_log.py) and the evidence
  * ledger (sentinelgrc.py). A log is its file's decoded text; a missing file
  * is the empty text. SHA-256 is a parameter, any function on texts; so is
  * json.loads, which is only asked to read back what json.dumps writes and to
  * reject a proper prefix of an object's text.
  */
module ChainedLog {
  import opened Basics
  import opened CanonicalJson

  /** What tells the two logs apart: the digest's field and json.dumps' ensure_ascii. */
  datatype Format = Format(hashField: string, ascii: bool)

  const AUDIT_LOG := Format("event_hash", false)
  const LEDGER := Format("record_hash", true)
  const PREVIOUS := "previous_hash"
  const GENESIS := Zeros(64)

  function Zeros(n: nat): (s: string)
    ensures |s| == n && forall i :: 0 <= i < n ==> s[i] == '0'
  {
    if n == 0 then "" else "0" + Zeros(n - 1)
  }

  type Loads = string -> Option<Json>

  /** A value Python holds: its numbers are printed the way they are read back. */
  ghost predicate Held(loads: Loads, v: Json) {
    WellFormed(v) && NumbersKept(loads, v)
  }

  ghost predicate NumbersKept(loads: Loads, v: Json) {
    match v
    case Num(x) => loads(x) == Some(v)
    case Arr(xs) => forall i :: 0 <= i < |xs| ==> NumbersKept(loads, xs[i])
    case Obj(ms) => forall i :: 0 <= i < |ms| ==> NumbersKept(loads, ms[i].value)
    case _ => true
  }

  /** json.loads on the texts this system writes. */
  ghost predicate Reads(loads: Loads, ascii: bool) {
    && (forall v :: Held(loads, v) ==> loads(Dump(v, ascii)) == Some(v))
    && (forall t :: loads(t).Some? ==> Held(loads, loads(t).value) && !Blank(t))
    && (forall ms, t :: Held(loads, Obj(ms)) && ProperPrefix(t, Dump(Obj(ms), ascii)) ==> loads(t).None?)
  }

  lemma {:induction false} NormalizeHeld(loads: Loads, v: Json)
    requires Held(loads, v)
    ensures Held(loads, Normalize(v))
  {
    NormalizeWellFormed(v);
    NormalizeNumbers(loads, v);
  }

  lemma {:induction false} NormalizeNumbers(loads: Loads, v: Json)
    requires NumbersKept(loads, v)
    ensures NumbersKept(loads, Normalize(v))
  {
    match v {
      case Arr(xs) =>
        forall i | 0 <= i < |xs| ensures NumbersKept(loads, Normalize(xs[i])) { NormalizeNumbers(loads, xs[i]); }
      case Obj(ms) =>
        NormalizeObject(ms);
        var ns := NormalMembers(ms);
        forall i | 0 <= i < |ms| ensures NumbersKept(loads, ns[i].value) { NormalizeNumbers(loads, ms[i].value); }
        forall i | 0 <= i < |Sort(ns)| ensures NumbersKept(loads, Sort(ns)[i].value) {
          assert Sort(ns)[i] in Sort(ns);
          InSort(ns, Sort(ns)[i]);
        }
      case _ =>
    }
  }

  lemma NumbersAppend(loads: Loads, ms: seq<Member>, m: Member)
    requires NumbersKept(loads, Obj(ms)) && NumbersKept(loads, m.value)
    ensures NumbersKept(loads, Obj(ms + [m]))
  {
  }

  ghost predicate ProperPrefix(t: string, whole: string) {
    |t| < |whole| && t == whole[..|t|]
  }

  /** The reader that accepts exactly what json.dumps writes. */
  ghost function StrictLoads(t: string, ascii: bool): Option<Json> {
    if v :| WellFormed(v) && Dump(v, ascii) == t then Some(v) else None
  }

  /** What is asked of json.loads can be met. */
  lemma StrictLoadsReads(ascii: bool)
    ensures Reads(t => StrictLoads(t, ascii), ascii)
  {
    hide Dump;
    var loads: Loads := t => StrictLoads(t, ascii);
    forall v | Held(loads, v) ensures loads(Dump(v, ascii)) == Some(v) {
      StrictLoadsInverts(v, ascii);
    }
    forall t | loads(t).Some? ensures Held(loads, loads(t).value) && !Blank(t) {
      DumpNotBlank(loads(t).value, ascii);
      StrictLoadsKeeps(loads(t).value, ascii);
    }
    forall ms, t | Held(loads, Obj(ms)) && ProperPrefix(t, Dump(Obj(ms), ascii)) ensures loads(t).None? {
      PrefixUnreadable(ms, t, ascii);
    }
  }

  lemma {:induction false} StrictLoadsKeeps(v: Json, ascii: bool)
    requires WellFormed(v)
    ensures NumbersKept(t => StrictLoads(t, ascii), v)
  {
    match v {
      case Num(x) =>
        StrictLoadsInverts(v, ascii);
        assert x + "" == x;
      case Arr(xs) =>
        forall i | 0 <= i < |xs| ensures NumbersKept(t => StrictLoads(t, ascii), xs[i]) {
          StrictLoadsKeeps(xs[i], ascii);
        }
      case Obj(ms) =>
        forall i | 0 <= i < |ms| ensures NumbersKept(t => StrictLoads(t, ascii), ms[i].value) {
          StrictLoadsKeeps(ms[i].value, ascii);
        }
      case _ =>
    }
  }

  lemma StrictLoadsInverts(v: Json, ascii: bool)
    requires WellFormed(v)
    ensures StrictLoads(Dump(v, ascii), ascii) == Some(v)
  {
    hide WellFormed, Print;
    var t := Dump(v, ascii);
    var w := StrictLoads(t, ascii).value;
    PrintPrefix(w, v, "", "", ascii);
  }

  lemma DumpNotBlank(v: Json, ascii: bool)
    requires WellFormed(v)
    ensures !Blank(Dump(v, ascii))
  {
    PrintLead(v, ascii, "");
    assert !IsSpace(Dump(v, ascii)[0]);
  }

  lemma PrefixUnreadable(ms: seq<Member>, t: string, ascii: bool)
    requires WellFormed(Obj(ms)) && ProperPrefix(t, Dump(Obj(ms), ascii))
    ensures StrictLoads(t, ascii).None?
  {
    hide WellFormed, Print;
    var whole := Dump(Obj(ms), ascii);
    if StrictLoads(t, ascii).Some? {
      assert t + whole[|t|..] == whole;
      ObjectTextHasNoPrefix(StrictLoads(t, ascii).value, ms, whole[|t|..], ascii);
    }
  }

  // ----- Lines -----

  /** Where the first line ends. */
  function LineEnd(t: string): (n: nat)
    ensures n <= |t|
    ensures forall i :: 0 <= i < n ==> !IsLineBreak(t[i])
    ensures n < |t| ==> IsLineBreak(t[n])
  {
    if t == "" || IsLineBreak(t[0]) then 0 else 1 + LineEnd(t[1..])
  }

  /** str.splitlines. */
  function Lines(t: string): seq<string> {
    if t == "" then []
    else
      var n := LineEnd(t);
      if n == |t| then [t] else [t[..n]] + Lines(t[n + 1..])
  }

  ghost predicate Terminated(t: string) {
    t == "" || t[|t| - 1] == '\n'
  }

  lemma LineEndIs(t: string, n: nat)
    requires n <= |t| && (forall i :: 0 <= i < n ==> !IsLineBreak(t[i])) && (n < |t| ==> IsLineBreak(t[n]))
    ensures LineEnd(t) == n
  {
    var m := LineEnd(t);
    assert m < |t| ==> IsLineBreak(t[m]);
  }

  lemma LinesCut(t: string)
    ensures t == "" ==> Lines(t) == []
    ensures LineEnd(t) < |t| ==> Lines(t) == [t[..LineEnd(t)]] + Lines(t[LineEnd(t) + 1..])
  {
    hide LineEnd, IsLineBreak;
  }

  /** Text after a finished line starts lines of its own. */
  lemma {:induction false} LinesAppend(t: string, more: string)
    requires Terminated(t)
    ensures Lines(t + more) == Lines(t) + Lines(more)
    decreases |t|
  {
    hide Lines, LineEnd;
    LinesCut(t);
    LinesCut(t + more);
    if t == "" {
      assert t + more == more;
    } else {
      var n := LineEnd(t);
      assert n < |t| by {
        assert IsLineBreak(t[|t| - 1]);
      }
      assert forall i :: 0 <= i <= n ==> (t + more)[i] == t[i];
      LineEndIs(t + more, n);
      assert (t + more)[..n] == t[..n];
      assert (t + more)[n + 1..] == t[n + 1..] + more;
      LinesAppend(t[n + 1..], more);
    }
  }

  lemma LinesOfLine(line: string)
    requires OneLine(line)
    ensures Lines(line + "\n") == [line]
  {
    var t := line + "\n";
    assert forall i :: 0 <= i < |line| ==> t[i] == line[i];
    LineEndIs(t, |line|);
    assert t[..|line|] == line && t[|line| + 1..] == "";
  }

  /** A text that holds a line break is cut before it. */
  lemma LinesOfBroken(line: string)
    requires !OneLine(line)
    ensures Lines(line + "\n") != [] && ProperPrefix(Lines(line + "\n")[0], line)
  {
    var t := line + "\n";
    var i :| 0 <= i < |line| && IsLineBreak(line[i]);
    assert t[i] == line[i];
    var n := LineEnd(t);
    assert n <= i;
    assert t[..n] == line[..n];
  }

  // ----- Chains of records -----

  /** A record without its own digest field: what the digest covers. */
  function Body(format: Format, v: Json): Json
    requires v.Obj?
  {
    Obj(Remove(v.members, format.hashField))
  }

  function HashedText(format: Format, v: Json): string
    requires v.Obj?
  {
    Canonical(Body(format, v), format.ascii)
  }

  /** One record passes the check of the verification loop. */
  predicate Links(format: Format, sha: Digest, v: Json, previous: string) {
    v.Obj?
    && Get(Remove(v.members, format.hashField), PREVIOUS) == Some(Str(previous))
    && Get(v.members, format.hashField) == Some(Str(sha(HashedText(format, v))))
  }

  ghost predicate AllObjects(vs: seq<Json>) {
    forall i :: 0 <= i < |vs| ==> vs[i].Obj? && WellFormed(vs[i])
  }

  /** The digest a record following vs must name. */
  function Head(format: Format, sha: Digest, vs: seq<Json>): string
    requires forall i :: 0 <= i < |vs| ==> vs[i].Obj?
  {
    if vs == [] then GENESIS else sha(HashedText(format, vs[|vs| - 1]))
  }

  ghost predicate Chained(format: Format, sha: Digest, vs: seq<Json>) {
    AllObjects(vs)
    && forall i :: 0 <= i < |vs| ==> LinkAt(format, sha, vs, i)
  }

  ghost predicate LinkAt(format: Format, sha: Digest, vs: seq<Json>, i: nat)
    requires AllObjects(vs) && i < |vs|
  {
    Links(format, sha, vs[i], Head(format, sha, vs[..i]))
  }

  /** The records a text holds, when every line reads as JSON. */
  function Records(loads: Loads, lines: seq<string>): (r: Option<seq<Json>>)
    ensures r.Some? ==> |r.value| == |lines| && forall i :: 0 <= i < |lines| ==> loads(lines[i]) == Some(r.value[i])
    ensures r.None? ==> exists i :: 0 <= i < |lines| && loads(lines[i]).None?
  {
    if lines == [] then Some([])
    else
      var init := Records(loads, lines[..|lines| - 1]);
      var last := loads(lines[|lines| - 1]);
      if init.None? || last.None? then None else Some(init.value + [last.value])
  }

  /** The log verifies: every line reads as a record and the records are chained. */
  ghost predicate Verifies(format: Format, sha: Digest, loads: Loads, t: string) {
    Records(loads, Lines(t)).Some? && Chained(format, sha, Records(loads, Lines(t)).value)
  }

  lemma RecordsAppend(loads: Loads, a: seq<string>, line: string)
    ensures Records(loads, a + [line]) ==
            if Records(loads, a).Some? && loads(line).Some?
            then Some(Records(loads, a).value + [loads(line).value]) else None
  {
    assert (a + [line])[..|a + [line]| - 1] == a;
  }

  // ----- The same head digest means the same history -----

  ghost predicate Collide(format: Format, sha: Digest, v: Json, w: Json)
    requires v.Obj? && w.Obj?
  {
    HashedText(format, v) != HashedText(format, w) && sha(HashedText(format, v)) == sha(HashedText(format, w))
  }

  ghost predicate HitsGenesis(format: Format, sha: Digest, vs: seq<Json>)
    requires AllObjects(vs)
  {
    exists i :: 0 <= i < |vs| && sha(HashedText(format, vs[i])) == GENESIS
  }

  /** Two different hashed texts of the given records share a digest, or one hashes to the genesis value. */
  ghost predicate DigestClash(format: Format, sha: Digest, vs: seq<Json>, ws: seq<Json>)
    requires AllObjects(vs) && AllObjects(ws)
  {
    || HitsGenesis(format, sha, vs)
    || HitsGenesis(format, sha, ws)
    || exists i, j :: 0 <= i < |vs| && 0 <= j < |ws| && Collide(format, sha, vs[i], ws[j])
  }

  ghost predicate SameHistory(format: Format, vs: seq<Json>, ws: seq<Json>)
    requires AllObjects(vs) && AllObjects(ws)
  {
    |vs| == |ws| && forall i :: 0 <= i < |vs| ==> Same(Body(format, vs[i]), Body(format, ws[i]))
  }

  lemma GenesisGrows(format: Format, sha: Digest, vs: seq<Json>, n: nat)
    requires AllObjects(vs) && n <= |vs| && HitsGenesis(format, sha, vs[..n])
    ensures HitsGenesis(format, sha, vs)
  {
    var i :| 0 <= i < n && sha(HashedText(format, vs[..n][i])) == GENESIS;
    assert vs[i] == vs[..n][i];
  }

  lemma ClashGrows(format: Format, sha: Digest, vs: seq<Json>, ws: seq<Json>, m: nat, n: nat)
    requires AllObjects(vs) && AllObjects(ws) && m <= |vs| && n <= |ws|
    requires DigestClash(format, sha, vs[..m], ws[..n])
    ensures DigestClash(format, sha, vs, ws)
  {
    hide WellFormed, HashedText;
    if HitsGenesis(format, sha, vs[..m]) {
      GenesisGrows(format, sha, vs, m);
    } else if HitsGenesis(format, sha, ws[..n]) {
      GenesisGrows(format, sha, ws, n);
    } else {
      var i, j :| 0 <= i < m && 0 <= j < n && Collide(format, sha, vs[..m][i], ws[..n][j]);
      assert vs[i] == vs[..m][i] && ws[j] == ws[..n][j];
    }
  }

  lemma ChainedPrefix(format: Format, sha: Digest, vs: seq<Json>, n: nat)
    requires Chained(format, sha, vs) && n <= |vs|
    ensures Chained(format, sha, vs[..n])
  {
    forall i | 0 <= i < n ensures LinkAt(format, sha, vs[..n], i) {
      assert vs[..n][..i] == vs[..i];
      assert LinkAt(format, sha, vs, i);
    }
  }

  lemma BodyWellFormed(format: Format, v: Json)
    requires v.Obj? && WellFormed(v)
    ensures WellFormed(Body(format, v))
  {
    RemoveWellFormed(v.members, format.hashField);
  }

  /**
    * Two verified chains whose heads agree hold the same records, whatever
    * their lengths, unless the digest clashed on the texts they hash.
    */
  lemma {:induction false} SameHeadSameHistory(format: Format, sha: Digest, vs: seq<Json>, ws: seq<Json>)
    requires Chained(format, sha, vs) && Chained(format, sha, ws)
    requires Head(format, sha, vs) == Head(format, sha, ws)
    ensures SameHistory(format, vs, ws) || DigestClash(format, sha, vs, ws)
    decreases |vs|
  {
    hide WellFormed, HashedText;
    if vs == [] && ws == [] {
    } else if vs == [] {
      assert sha(HashedText(format, ws[|ws| - 1])) == GENESIS;
    } else if ws == [] {
      assert sha(HashedText(format, vs[|vs| - 1])) == GENESIS;
    } else {
      var m, n := |vs| - 1, |ws| - 1;
      if HashedText(format, vs[m]) == HashedText(format, ws[n]) {
        SameLast(format, sha, vs, ws);
        ChainedPrefix(format, sha, vs, m);
        ChainedPrefix(format, sha, ws, n);
        SameHeadSameHistory(format, sha, vs[..m], ws[..n]);
        if SameHistory(format, vs[..m], ws[..n]) {
          SameHistoryLast(format, vs, ws);
        } else {
          ClashGrows(format, sha, vs, ws, m, n);
        }
      } else {
        assert Collide(format, sha, vs[m], ws[n]);
      }
    }
  }

  lemma SameHistoryLast(format: Format, vs: seq<Json>, ws: seq<Json>)
    requires AllObjects(vs) && AllObjects(ws) && vs != [] && ws != []
    requires SameHistory(format, vs[..|vs| - 1], ws[..|ws| - 1])
    requires Same(Body(format, vs[|vs| - 1]), Body(format, ws[|ws| - 1]))
    ensures SameHistory(format, vs, ws)
  {
    var m := |vs| - 1;
    forall i | 0 <= i < |vs| ensures Same(Body(format, vs[i]), Body(format, ws[i])) {
      if i < m {
        assert vs[..m][i] == vs[i] && ws[..m][i] == ws[i];
      }
    }
  }

  /** The last records of two chains with one last text are the same and name one predecessor. */
  lemma SameLast(format: Format, sha: Digest, vs: seq<Json>, ws: seq<Json>)
    requires Chained(format, sha, vs) && Chained(format, sha, ws) && vs != [] && ws != []
    requires HashedText(format, vs[|vs| - 1]) == HashedText(format, ws[|ws| - 1])
    ensures Same(Body(format, vs[|vs| - 1]), Body(format, ws[|ws| - 1]))
    ensures Head(format, sha, vs[..|vs| - 1]) == Head(format, sha, ws[..|ws| - 1])
  {
    var m, n := |vs| - 1, |ws| - 1;
    BodyWellFormed(format, vs[m]);
    BodyWellFormed(format, ws[n]);
    CanonicalDeterminesValue(Body(format, vs[m]), Body(format, ws[n]), format.ascii);
    assert LinkAt(format, sha, vs, m) && LinkAt(format, sha, ws, n);
    SameString(Body(format, vs[m]).members, Body(format, ws[n]).members, PREVIOUS, Head(format, sha, vs[..m]));
  }

  // ----- Appending -----

  /** A record as it is appended: its fields, the previous digest, then its own digest. */
  function Sealed(format: Format, sha: Digest, fields: seq<Member>): Json {
    Obj(fields + [Member(format.hashField, Str(sha(Canonical(Obj(fields), format.ascii))))])
  }

  lemma {:induction false} RemoveAbsent(ms: seq<Member>, key: string)
    requires forall i :: 0 <= i < |ms| ==> ms[i].key != key
    ensures Remove(ms, key) == ms
  {
    if ms != [] {
      RemoveAbsent(ms[1..], key);
      assert ms == [ms[0]] + ms[1..];
    }
  }

  lemma {:induction false} RemoveLast(ms: seq<Member>, m: Member)
    requires forall i :: 0 <= i < |ms| ==> ms[i].key != m.key
    ensures Remove(ms + [m], m.key) == ms
  {
    if ms == [] {
      assert ms + [m] == [m];
    } else {
      assert (ms + [m])[1..] == ms[1..] + [m];
      RemoveLast(ms[1..], m);
      assert ms == [ms[0]] + ms[1..];
    }
  }

  lemma {:induction false} GetAppend(ms: seq<Member>, m: Member, key: string)
    ensures Get(ms + [m], key) == if Get(ms, key).Some? then Get(ms, key) else if m.key == key then Some(m.value)
            else None
  {
    if ms != [] {
      assert (ms + [m])[1..] == ms[1..] + [m];
      GetAppend(ms[1..], m, key);
    }
  }

  lemma SealedWellFormed(format: Format, sha: Digest, fields: seq<Member>)
    requires WellFormed(Obj(fields)) && Get(fields, format.hashField).None?
    ensures WellFormed(Sealed(format, sha, fields)) && WellFormed(Normalize(Sealed(format, sha, fields)))
    ensures Normalize(Sealed(format, sha, fields)).Obj?
  {
    NormalizeWellFormed(Sealed(format, sha, fields));
  }

  /** The digest field of a sealed record, written and read back, covers its other fields. */
  lemma SealedHash(format: Format, sha: Digest, fields: seq<Member>)
    requires WellFormed(Obj(fields)) && Get(fields, format.hashField).None?
    requires Normalize(Sealed(format, sha, fields)).Obj?
    ensures var n := Normalize(Sealed(format, sha, fields));
            Normalize(Body(format, n)) == Normalize(Obj(fields))
            && Get(n.members, format.hashField) == Some(Str(sha(HashedText(format, n))))
  {
    SealedWellFormed(format, sha, fields);
    hide WellFormed, Get, Remove, Dump;
    var v := Sealed(format, sha, fields);
    var last := Member(format.hashField, Str(sha(Canonical(Obj(fields), format.ascii))));
    RemoveLast(fields, last);
    RemoveNormal(v.members, format.hashField);
    GetNormal(v.members, format.hashField);
    GetAppend(fields, last, format.hashField);
  }

  /** A sealed record, written and read back, links to the digest it names. */
  lemma SealedLinks(format: Format, sha: Digest, fields: seq<Member>, previous: string)
    requires WellFormed(Obj(fields)) && Get(fields, format.hashField).None?
    requires Normalize(Sealed(format, sha, fields)).Obj?
    ensures Links(format, sha, Normalize(Sealed(format, sha, fields)), previous)
            <==> Get(fields, PREVIOUS) == Some(Str(previous))
  {
    SealedWellFormed(format, sha, fields);
    SealedHash(format, sha, fields);
    var body := Body(format, Normalize(Sealed(format, sha, fields)));
    BodyWellFormed(format, Normalize(Sealed(format, sha, fields)));
    GetNormal(fields, PREVIOUS);
    GetNormal(body.members, PREVIOUS);
    StringMember(fields, body.members, PREVIOUS, previous);
  }

  lemma StringMember(ms: seq<Member>, ns: seq<Member>, key: string, s: string)
    requires WellFormed(Obj(ms)) && WellFormed(Obj(ns)) && Normalize(Obj(ms)) == Normalize(Obj(ns))
    ensures Get(ms, key) == Some(Str(s)) <==> Get(ns, key) == Some(Str(s))
  {
    GetNormal(ms, key);
    GetNormal(ns, key);
    if Get(ms, key).Some? { NormalIsString(Get(ms, key).value, s); }
    if Get(ns, key).Some? { NormalIsString(Get(ns, key).value, s); }
  }

  lemma NormalIsString(v: Json, s: string)
    ensures Normalize(v) == Str(s) <==> v == Str(s)
  {
  }

  /**
    * Appending a sealed record to a log that verifies keeps it verifying
    * exactly when the record names the log's head and its text is one line.
    */
  lemma AppendVerifies(format: Format, sha: Digest, loads: Loads, t: string, fields: seq<Member>)
    requires Reads(loads, format.ascii) && Terminated(t) && Verifies(format, sha, loads, t)
    requires Held(loads, Obj(fields)) && Get(fields, format.hashField).None?
    ensures var v := Sealed(format, sha, fields);
            var more := t + Canonical(v, format.ascii) + "\n";
            Terminated(more)
            && (Verifies(format, sha, loads, more) <==>
                (format.ascii || BreakFree(v))
                && Get(fields, PREVIOUS) == Some(Str(Head(format, sha, Records(loads, Lines(t)).value))))
            && (Verifies(format, sha, loads, more) ==>
                Records(loads, Lines(more)).value == Records(loads, Lines(t)).value + [Normalize(v)])
  {
    hide Sealed, HashedText, Links, WellFormed;
    var v := Sealed(format, sha, fields);
    SealedWellFormed(format, sha, fields);
    SealedLinks(format, sha, fields, Head(format, sha, Records(loads, Lines(t)).value));
    SealedHeld(format, sha, loads, fields);
    AppendRecord(format, sha, loads, t, v);
  }

  /** An audit entry that breaks its log: its target holds U+2028, where reading splits the line. */
  lemma LineSeparatorWitness(sha: Digest, loads: Loads, at: string)
    requires Reads(loads, false) && PlainDigest(sha)
    ensures var e := Entry("e1", "type", Str("actor"), [0x2028 as char], Obj([]));
            AppendOnce(sha, loads, "", e, at).Ok?
              && !Verifies(AUDIT_LOG, sha, loads, AppendOnce(sha, loads, "", e, at).value.0)
  {
    hide AppendOnce, Verifies, Reads, BreakFreeText;
    var e := Entry("e1", "type", Str("actor"), [0x2028 as char], Obj([]));
    assert !IsSpace("e1"[0]);
    SeparatorBreaks();
    BrokenTargetBreaks(sha, loads, e, at);
  }

  /** An entry whose target is not one line is appended to a new log and breaks it. */
  lemma BrokenTargetBreaks(sha: Digest, loads: Loads, e: Entry, at: string)
    requires Reads(loads, false) && PlainDigest(sha) && HeldEntry(loads, e)
    requires !Blank(e.eventId) && !BreakFreeText(e.target)
    ensures AppendOnce(sha, loads, "", e, at).Ok?
            && !Verifies(AUDIT_LOG, sha, loads, AppendOnce(sha, loads, "", e, at).value.0)
  {
    hide Canonical, Lines, Records, AuditFields, BreakFree, BreakFreeText, PlainDigest;
    VerifiedEmpty(AUDIT_LOG, sha, loads);
    AuditFieldsGet(e, at, GENESIS);
    AuditFieldsHeld(loads, e, at, GENESIS);
    AppendVerifies(AUDIT_LOG, sha, loads, "", AuditFields(e, at, GENESIS));
    PlainGenesis();
    AuditRecordBreakFree(sha, e, at, GENESIS);
  }

  lemma SeparatorBreaks()
    ensures !BreakFreeText([0x2028 as char])
  {
    assert [0x2028 as char][0] as int == 0x2028;
  }

  lemma PlainGenesis()
    ensures BreakFreeText(GENESIS)
  {
  }

  lemma SealedHeld(format: Format, sha: Digest, loads: Loads, fields: seq<Member>)
    requires Held(loads, Obj(fields)) && Get(fields, format.hashField).None?
    ensures Held(loads, Sealed(format, sha, fields))
  {
    hide WellFormed;
    SealedWellFormed(format, sha, fields);
    NumbersAppend(loads, fields, Member(format.hashField, Str(sha(Canonical(Obj(fields), format.ascii)))));
  }

  /** Appending any record: it is read back whole when its text is one line, and breaks the log otherwise. */
  lemma AppendRecord(format: Format, sha: Digest, loads: Loads, t: string, v: Json)
    requires Reads(loads, format.ascii) && Terminated(t) && Verifies(format, sha, loads, t)
    requires v.Obj? && Held(loads, v) && Normalize(v).Obj?
    ensures var more := t + Canonical(v, format.ascii) + "\n";
            var vs := Records(loads, Lines(t)).value;
            Terminated(more)
            && (Verifies(format, sha, loads, more) <==>
                (format.ascii || BreakFree(v)) && Links(format, sha, Normalize(v), Head(format, sha, vs)))
            && (Verifies(format, sha, loads, more) ==> Records(loads, Lines(more)).value == vs + [Normalize(v)])
  {
    hide Links, WellFormed, Verifies, Records, Lines, Reads, Head, Canonical, OneLine, BreakFree, Normalize;
    CanonicalOneLine(v, format.ascii);
    if OneLine(Canonical(v, format.ascii)) {
      AppendOneLine(format, sha, loads, t, v);
    } else {
      AppendBroken(format, sha, loads, t, v);
    }
  }

  /** A record written on one line is the log's next record. */
  lemma AppendOneLine(format: Format, sha: Digest, loads: Loads, t: string, v: Json)
    requires Reads(loads, format.ascii) && Terminated(t) && Verifies(format, sha, loads, t)
    requires v.Obj? && Held(loads, v) && Normalize(v).Obj? && OneLine(Canonical(v, format.ascii))
    ensures var more := t + Canonical(v, format.ascii) + "\n";
            var vs := Records(loads, Lines(t)).value;
            Records(loads, Lines(more)) == Some(vs + [Normalize(v)])
            && (Verifies(format, sha, loads, more) <==> Links(format, sha, Normalize(v), Head(format, sha, vs)))
  {
    var line := Canonical(v, format.ascii);
    var vs := Records(loads, Lines(t)).value;
    NormalizeHeld(loads, v);
    assert loads(line) == Some(Normalize(v));
    hide HashedText, Links, LinkAt, Head, WellFormed, Lines, Records, Reads, Normalize, Canonical;
    assert t + line + "\n" == t + (line + "\n");
    LinesAppend(t, line + "\n");
    LinesOfLine(line);
    RecordsAppend(loads, Lines(t), line);
    ChainedAppend(format, sha, vs, Normalize(v));
  }

  /** A record whose text is broken leaves a line that is no record. */
  lemma AppendBroken(format: Format, sha: Digest, loads: Loads, t: string, v: Json)
    requires Reads(loads, format.ascii) && Terminated(t)
    requires v.Obj? && Held(loads, v) && Normalize(v).Obj? && !OneLine(Canonical(v, format.ascii))
    ensures !Verifies(format, sha, loads, t + Canonical(v, format.ascii) + "\n")
  {
    var line := Canonical(v, format.ascii);
    BrokenUnread(loads, format.ascii, v);
    hide HashedText, Chained, Lines, Records, Reads, Held, Canonical, Normalize, OneLine;
    assert t + line + "\n" == t + (line + "\n");
    LinesAppend(t, line + "\n");
    var cut := Lines(line + "\n");
    assert (Lines(t) + cut)[|Lines(t)|] == cut[0];
  }

  lemma BrokenUnread(loads: Loads, ascii: bool, v: Json)
    requires Reads(loads, ascii) && Held(loads, v) && Normalize(v).Obj? && !OneLine(Canonical(v, ascii))
    ensures var cut := Lines(Canonical(v, ascii) + "\n"); cut != [] && loads(cut[0]).None?
  {
    NormalizeHeld(loads, v);
    LinesOfBroken(Canonical(v, ascii));
    hide Lines, Held, Normalize, OneLine;
  }

  lemma ChainedAppend(format: Format, sha: Digest, vs: seq<Json>, v: Json)
    requires Chained(format, sha, vs) && v.Obj? && WellFormed(v)
    ensures Chained(format, sha, vs + [v]) <==> Links(format, sha, v, Head(format, sha, vs))
  {
    hide WellFormed, HashedText;
    var all := vs + [v];
    assert all[..|vs|] == vs;
    forall i | 0 <= i < |vs| ensures AllObjects(all) && LinkAt(format, sha, all, i) {
      assert all[..i] == vs[..i] && all[i] == vs[i];
      assert LinkAt(format, sha, vs, i);
    }
    if Chained(format, sha, all) {
      assert LinkAt(format, sha, all, |vs|);
    }
  }

  lemma BlankFirstLine(t: string)
    requires Blank(t) && t != ""
    ensures Lines(t) != [] && Blank(Lines(t)[0])
  {
    assert Blank(t[..LineEnd(t)]);
  }

  lemma BlankVerifies(format: Format, sha: Digest, loads: Loads, t: string)
    requires Reads(loads, format.ascii) && Blank(t) && Verifies(format, sha, loads, t)
    ensures t == ""
  {
    if t != "" { BlankFirstLine(t); }
  }

  lemma VerifiedEmpty(format: Format, sha: Digest, loads: Loads)
    ensures Verifies(format, sha, loads, "") && Terminated("")
  {
  }

  // ----- AuditLog.append_idempotent -----

  /** What a caller asks the audit log to record. */
  datatype Entry = Entry(eventId: string, eventType: string, actor: Json, target: string, details: Json)

  datatype LogError = MissingEventId | InvalidLog | BoundToOtherContent

  ghost predicate ValidEntry(e: Entry) {
    WellFormed(e.actor) && WellFormed(e.details) && e.details.Obj?
  }

  ghost predicate HeldEntry(loads: Loads, e: Entry) {
    ValidEntry(e) && NumbersKept(loads, e.actor) && NumbersKept(loads, e.details)
  }

  /** The fields of an audit record before its digest is added. */
  function AuditFields(e: Entry, recordedAt: string, previous: string): seq<Member> {
    [Member("schema_version", Str("1.0")), Member("event_id", Str(e.eventId)), Member("recorded_at", Str(recordedAt)),
     Member("event_type", Str(e.eventType)), Member("actor", e.actor), Member("target", Str(e.target)),
     Member("details", e.details), Member(PREVIOUS, Str(previous))]
  }

  function AuditRecord(sha: Digest, e: Entry, recordedAt: string, previous: string): Json {
    Sealed(AUDIT_LOG, sha, AuditFields(e, recordedAt, previous))
  }

  predicate HasId(v: Json, eventId: string) {
    v.Obj? && Get(v.members, "event_id") == Some(Str(eventId))
  }

  predicate Holds(v: Json, key: string, value: Json) {
    v.Obj? && Get(v.members, key).Some? && Normalize(Get(v.members, key).value) == Normalize(value)
  }

  /** The stored record says what the entry says (the identity compared on a repeat). */
  predicate Matches(v: Json, e: Entry) {
    Holds(v, "event_type", Str(e.eventType)) && Holds(v, "actor", e.actor)
    && Holds(v, "target", Str(e.target)) && Holds(v, "details", e.details)
  }

  /** The first record with the given event id. */
  function FindEvent(vs: seq<Json>, eventId: string): (r: Option<Json>)
    ensures r.Some? ==> r.value in vs && HasId(r.value, eventId)
    ensures r.None? ==> forall i :: 0 <= i < |vs| ==> !HasId(vs[i], eventId)
  {
    if vs == [] then None
    else if HasId(vs[0], eventId) then Some(vs[0])
    else FindEvent(vs[1..], eventId)
  }

  predicate FirstWithId(vs: seq<Json>, i: nat, eventId: string) {
    i < |vs| && HasId(vs[i], eventId) && forall j :: 0 <= j < i ==> !HasId(vs[j], eventId)
  }

  /** Of several records with one id it is the first that is found. */
  lemma {:induction false} FindEventFirst(vs: seq<Json>, i: nat, eventId: string)
    requires FirstWithId(vs, i, eventId)
    ensures FindEvent(vs, eventId) == Some(vs[i])
  {
    hide HasId;
    if i > 0 {
      assert vs[1..][i - 1] == vs[i] && forall j :: 0 <= j < i - 1 ==> vs[1..][j] == vs[j + 1];
      FindEventFirst(vs[1..], i - 1, eventId);
    }
  }

  /** append_idempotent on the log's text: the new text, and whether a record was added. */
  ghost function AppendOnce(
    sha: Digest, loads: Loads, t: string, e: Entry, recordedAt: string): Result<(string, bool), LogError> {
    if Blank(e.eventId) then Err(MissingEventId)
    else if Blank(t) then Ok((t + Canonical(AuditRecord(sha, e, recordedAt, GENESIS), false) + "\n", true))
    else if !Verifies(AUDIT_LOG, sha, loads, t) then Err(InvalidLog)
    else
      var vs := Records(loads, Lines(t)).value;
      var found := FindEvent(vs, e.eventId);
      if found.Some? then
        if Matches(found.value, e) then Ok((t, false)) else Err(BoundToOtherContent)
      else
        Ok((t + Canonical(AuditRecord(sha, e, recordedAt, Head(AUDIT_LOG, sha, vs)), false) + "\n", true))
  }

  /** No two records carry one event id. */
  ghost predicate UniqueIds(vs: seq<Json>) {
    forall i, j, id :: 0 <= i < j < |vs| && HasId(vs[i], id) ==> !HasId(vs[j], id)
  }

  /** The log verifies and holds at most one record per event id. */
  ghost predicate Sound(sha: Digest, loads: Loads, t: string) {
    Terminated(t) && Verifies(AUDIT_LOG, sha, loads, t) && UniqueIds(Records(loads, Lines(t)).value)
  }

  ghost predicate BreakFreeEntry(e: Entry, recordedAt: string) {
    BreakFreeText(e.eventId) && BreakFreeText(e.eventType) && BreakFree(e.actor) && BreakFreeText(e.target)
    && BreakFree(e.details) && BreakFreeText(recordedAt)
  }

  const AUDIT_KEYS :=
    ["schema_version", "event_id", "recorded_at", "event_type", "actor", "target", "details", PREVIOUS]

  lemma AuditKeysDistinct()
    ensures forall i, j :: 0 <= i < j < 8 ==> AUDIT_KEYS[i] != AUDIT_KEYS[j]
    ensures forall i :: 0 <= i < 8 ==> AUDIT_KEYS[i] != "event_hash"
  {
    var lengths := [14, 8, 11, 10, 5, 6, 7, 13];
    assert forall i :: 0 <= i < 8 ==> |AUDIT_KEYS[i]| == lengths[i];
    assert AUDIT_KEYS[3][6] == 't' && "event_hash"[6] == 'h';
    assert forall i, j :: 0 <= i < j < 8 ==> lengths[i] != lengths[j];
    assert |"event_hash"| == 10;
    assert forall i :: 0 <= i < 8 && i != 3 ==> lengths[i] != 10;
  }

  lemma AuditFieldsGet(e: Entry, recordedAt: string, previous: string)
    requires ValidEntry(e)
    ensures var ms := AuditFields(e, recordedAt, previous);
            WellFormed(Obj(ms)) && Get(ms, "event_hash").None? && Get(ms, PREVIOUS) == Some(Str(previous))
            && Get(ms, "event_id") == Some(Str(e.eventId)) && Get(ms, "event_type") == Some(Str(e.eventType))
            && Get(ms, "actor") == Some(e.actor) && Get(ms, "target") == Some(Str(e.target))
            && Get(ms, "details") == Some(e.details)
  {
    hide Get;
    var ms := AuditFields(e, recordedAt, previous);
    AuditKeysDistinct();
    assert forall i :: 0 <= i < 8 ==> ms[i].key == AUDIT_KEYS[i];
    GetIs(ms, ms[7]);
    GetIs(ms, ms[1]);
    GetIs(ms, ms[3]);
    GetIs(ms, ms[4]);
    GetIs(ms, ms[5]);
    GetIs(ms, ms[6]);
    GetNone(ms, "event_hash");
  }

  /** Digests are plain text, as hexadecimal ones are. */
  ghost predicate PlainDigest(sha: Digest) {
    forall x :: BreakFreeText(sha(x))
  }

  /** Field names the log writes are plain ASCII. */
  lemma PlainKeys()
    ensures forall i :: 0 <= i < 8 ==> BreakFreeText(AUDIT_KEYS[i])
    ensures BreakFreeText("event_hash") && BreakFreeText("1.0")
  {
    assert BreakFreeText("schema_version") && BreakFreeText("event_id") && BreakFreeText("recorded_at");
    assert BreakFreeText("event_type") && BreakFreeText("actor") && BreakFreeText("target");
    assert BreakFreeText("details") && BreakFreeText(PREVIOUS);
  }

  lemma AuditRecordBreakFree(sha: Digest, e: Entry, recordedAt: string, previous: string)
    requires PlainDigest(sha) && BreakFreeText(previous)
    ensures BreakFree(AuditRecord(sha, e, recordedAt, previous)) <==> BreakFreeEntry(e, recordedAt)
  {
    hide Canonical, BreakFreeText;
    PlainKeys();
    var ms := AuditRecord(sha, e, recordedAt, previous).members;
    var digest := sha(Canonical(Obj(AuditFields(e, recordedAt, previous)), false));
    assert BreakFreeText(digest);
    assert forall i :: 0 <= i < 8 ==> ms[i].key == AUDIT_KEYS[i];
    BreakFreeMembers9(ms);
    assert ms[8] == Member("event_hash", Str(digest));
  }

  lemma BreakFreeMembers9(ms: seq<Member>)
    requires |ms| == 9
    ensures BreakFree(Obj(ms)) <==>
            BreakFreeMember(ms[0]) && BreakFreeMember(ms[1]) && BreakFreeMember(ms[2]) && BreakFreeMember(ms[3])
            && BreakFreeMember(ms[4]) && BreakFreeMember(ms[5]) && BreakFreeMember(ms[6]) && BreakFreeMember(ms[7])
            && BreakFreeMember(ms[8])
  {
    hide BreakFreeMember;
  }

  /** A field of the new record, read back. */
  lemma AuditRecordGet(sha: Digest, e: Entry, recordedAt: string, previous: string, key: string)
    requires ValidEntry(e) && Get(AuditFields(e, recordedAt, previous), key).Some?
    ensures WellFormed(AuditRecord(sha, e, recordedAt, previous))
    ensures Normalize(AuditRecord(sha, e, recordedAt, previous)).Obj?
    ensures Get(Normalize(AuditRecord(sha, e, recordedAt, previous)).members, key)
            == Some(Normalize(Get(AuditFields(e, recordedAt, previous), key).value))
  {
    hide Get, WellFormed, AuditFields, Canonical;
    var fields := AuditFields(e, recordedAt, previous);
    AuditFieldsGet(e, recordedAt, previous);
    SealedWellFormed(AUDIT_LOG, sha, fields);
    var last := Member("event_hash", Str(sha(Canonical(Obj(fields), false))));
    GetAppend(fields, last, key);
    GetNormal(fields + [last], key);
  }

  /** The new record, read back, says what the entry says. */
  lemma AuditRecordMatches(sha: Digest, e: Entry, recordedAt: string, previous: string)
    requires ValidEntry(e)
    ensures var v := Normalize(AuditRecord(sha, e, recordedAt, previous));
            WellFormed(v) && Matches(v, e) && forall id :: HasId(v, id) <==> id == e.eventId
  {
    hide Get, AuditFields, AuditRecord, WellFormed, Holds;
    AuditFieldsGet(e, recordedAt, previous);
    AuditRecordGet(sha, e, recordedAt, previous, "event_id");
    hide Normalize;
    AuditRecordHolds(sha, e, recordedAt, previous, "event_type", Str(e.eventType));
    AuditRecordHolds(sha, e, recordedAt, previous, "actor", e.actor);
    AuditRecordHolds(sha, e, recordedAt, previous, "target", Str(e.target));
    AuditRecordHolds(sha, e, recordedAt, previous, "details", e.details);
    NormalizeWellFormed(AuditRecord(sha, e, recordedAt, previous));
  }

  lemma ValueWellFormed(ms: seq<Member>, key: string)
    requires WellFormed(Obj(ms)) && Get(ms, key).Some?
    ensures WellFormed(Get(ms, key).value)
  {
    assert Member(key, Get(ms, key).value) in ms;
  }

  lemma AuditRecordHolds(sha: Digest, e: Entry, recordedAt: string, previous: string, key: string, value: Json)
    requires ValidEntry(e) && Get(AuditFields(e, recordedAt, previous), key) == Some(value)
    ensures Holds(Normalize(AuditRecord(sha, e, recordedAt, previous)), key, value)
  {
    hide Get, AuditFields, AuditRecord, Normalize;
    AuditFieldsGet(e, recordedAt, previous);
    hide WellFormed;
    AuditRecordGet(sha, e, recordedAt, previous, key);
    ValueWellFormed(AuditFields(e, recordedAt, previous), key);
    NormalizeIdempotent(value);
  }

  ghost predicate FreshId(vs: seq<Json>, eventId: string) {
    forall i :: 0 <= i < |vs| ==> !HasId(vs[i], eventId)
  }

  /**
    * append_idempotent on a sound log: it fails only when the event id is bound
    * to other content; it adds a record exactly when the id is new; and the
    * log stays sound exactly when nothing is added or the entry is break-free.
    */
  lemma AppendOnceSound(sha: Digest, loads: Loads, t: string, e: Entry, recordedAt: string)
    requires Reads(loads, false) && PlainDigest(sha) && Sound(sha, loads, t) && HeldEntry(loads, e) && !Blank(e.eventId)
    ensures var vs := Records(loads, Lines(t)).value;
            match AppendOnce(sha, loads, t, e, recordedAt)
            case Err(error) =>
              error == BoundToOtherContent && exists v :: v in vs && HasId(v, e.eventId) && !Matches(v, e)
            case Ok((more, added)) =>
              && (added <==> FreshId(vs, e.eventId))
              && (!added ==> more == t && exists v :: v in vs && HasId(v, e.eventId) && Matches(v, e))
              && (Sound(sha, loads, more) <==> !added || BreakFreeEntry(e, recordedAt))
              && (added && Sound(sha, loads, more) ==>
                  exists v :: Records(loads, Lines(more)) == Some(vs + [v])
                              && Matches(v, e) && forall id :: HasId(v, id) <==> id == e.eventId)
  {
    hide Matches, HasId, Canonical, BreakFreeEntry, WellFormed, Chained, AuditRecord, UniqueIds;
    var vs := Records(loads, Lines(t)).value;
    if Blank(t) {
      BlankVerifies(AUDIT_LOG, sha, loads, t);
      assert vs == [];
    }
    if FindEvent(vs, e.eventId).None? {
      AppendNew(sha, loads, t, e, recordedAt);
    }
  }

  lemma AppendNew(sha: Digest, loads: Loads, t: string, e: Entry, recordedAt: string)
    requires Reads(loads, false) && PlainDigest(sha) && Sound(sha, loads, t) && HeldEntry(loads, e)
    requires FreshId(Records(loads, Lines(t)).value, e.eventId)
    ensures var vs := Records(loads, Lines(t)).value;
            var v := AuditRecord(sha, e, recordedAt, Head(AUDIT_LOG, sha, vs));
            var more := t + Canonical(v, false) + "\n";
            (Sound(sha, loads, more) <==> BreakFreeEntry(e, recordedAt))
            && (Sound(sha, loads, more) ==>
                Records(loads, Lines(more)) == Some(vs + [Normalize(v)])
                && Matches(Normalize(v), e) && forall id :: HasId(Normalize(v), id) <==> id == e.eventId)
  {
    hide Matches, HasId, Canonical, BreakFreeEntry, WellFormed, AuditFields, UniqueIds;
    var vs := Records(loads, Lines(t)).value;
    var previous := Head(AUDIT_LOG, sha, vs);
    AuditFieldsGet(e, recordedAt, previous);
    AuditFieldsHeld(loads, e, recordedAt, previous);
    AppendVerifies(AUDIT_LOG, sha, loads, t, AuditFields(e, recordedAt, previous));
    HeadPlain(AUDIT_LOG, sha, vs);
    AuditRecordBreakFree(sha, e, recordedAt, previous);
    AuditRecordMatches(sha, e, recordedAt, previous);
    UniqueIdsAppend(vs, Normalize(AuditRecord(sha, e, recordedAt, previous)), e.eventId);
  }

  lemma AuditFieldsHeld(loads: Loads, e: Entry, recordedAt: string, previous: string)
    requires HeldEntry(loads, e)
    ensures Held(loads, Obj(AuditFields(e, recordedAt, previous)))
  {
    hide WellFormed, Get;
    AuditFieldsGet(e, recordedAt, previous);
    var ms := AuditFields(e, recordedAt, previous);
    forall i | 0 <= i < |ms| ensures NumbersKept(loads, ms[i].value) {
      assert ms[i].value == e.actor || ms[i].value == e.details || ms[i].value.Str?;
    }
  }

  lemma HeadPlain(format: Format, sha: Digest, vs: seq<Json>)
    requires PlainDigest(sha) && forall i :: 0 <= i < |vs| ==> vs[i].Obj?
    ensures BreakFreeText(Head(format, sha, vs))
  {
    hide HashedText;
  }

  lemma UniqueIdsAppend(vs: seq<Json>, v: Json, eventId: string)
    requires UniqueIds(vs) && FreshId(vs, eventId) && forall id :: HasId(v, id) <==> id == eventId
    ensures UniqueIds(vs + [v])
  {
    hide HasId;
    var all := vs + [v];
    forall i, j, id | 0 <= i < j < |all| && HasId(all[i], id) ensures !HasId(all[j], id) {
      if j < |vs| {
        assert all[i] == vs[i] && all[j] == vs[j];
      }
    }
  }

  // ----- The ledger's build_evidence -----

  /** dict assignment: replace the member in place, or add it last. */
  function Put(ms: seq<Member>, m: Member): (r: seq<Member>)
    ensures m in r
  {
    if ms == [] then [m]
    else if ms[0].key == m.key then [m] + ms[1..]
    else
      assert ms == [ms[0]] + ms[1..];
      [ms[0]] + Put(ms[1..], m)
  }

  /** dict.update. */
  function Update(ms: seq<Member>, extra: seq<Member>): seq<Member>
    decreases |extra|
  {
    if extra == [] then ms else Update(Put(ms, extra[0]), extra[1..])
  }

  lemma {:induction false} PutKeys(ms: seq<Member>, m: Member)
    requires DistinctKeys(ms)
    ensures DistinctKeys(Put(ms, m))
    ensures forall i :: 0 <= i < |Put(ms, m)| ==>
              Put(ms, m)[i].key == m.key || exists j :: 0 <= j < |ms| && ms[j].key == Put(ms, m)[i].key
  {
    if ms != [] && ms[0].key != m.key {
      assert forall i :: 0 <= i < |ms[1..]| ==> ms[1..][i] == ms[i + 1];
      PutKeys(ms[1..], m);
      var r := Put(ms[1..], m);
      forall i | 0 <= i < |r| ensures r[i].key != ms[0].key {
        if r[i].key != m.key {
          var j :| 0 <= j < |ms[1..]| && ms[1..][j].key == r[i].key;
        }
      }
      forall i | 0 <= i < |Put(ms, m)|
        ensures Put(ms, m)[i].key == m.key || exists j :: 0 <= j < |ms| && ms[j].key == Put(ms, m)[i].key
      {
        if i > 0 && r[i - 1].key != m.key {
          var j :| 0 <= j < |ms[1..]| && ms[1..][j].key == r[i - 1].key;
          assert ms[j + 1].key == r[i - 1].key;
        }
      }
    }
  }

  lemma {:induction false} PutGet(ms: seq<Member>, m: Member, key: string)
    ensures Get(Put(ms, m), key) == if key == m.key then Some(m.value) else Get(ms, key)
  {
    if ms != [] && ms[0].key != m.key { PutGet(ms[1..], m, key); }
  }

  lemma {:induction false} PutWellFormed(ms: seq<Member>, m: Member)
    requires WellFormed(Obj(ms)) && WellFormed(m.value)
    ensures WellFormed(Obj(Put(ms, m)))
  {
    PutKeys(ms, m);
    var r := Put(ms, m);
    forall i | 0 <= i < |r| ensures WellFormed(r[i].value) {
      PutMember(ms, m, r[i]);
      if r[i] != m { var j :| 0 <= j < |ms| && ms[j] == r[i]; }
    }
  }

  lemma {:induction false} PutMember(ms: seq<Member>, m: Member, x: Member)
    requires x in Put(ms, m)
    ensures x == m || x in ms
  {
    if ms != [] && ms[0].key != m.key && x != ms[0] { PutMember(ms[1..], m, x); }
  }

  lemma {:induction false} UpdateGet(ms: seq<Member>, extra: seq<Member>, key: string)
    requires WellFormed(Obj(ms)) && WellFormed(Obj(extra))
    ensures WellFormed(Obj(Update(ms, extra)))
    ensures Get(Update(ms, extra), key) == if Get(extra, key).Some? then Get(extra, key) else Get(ms, key)
    decreases |extra|
  {
    if extra != [] {
      PutWellFormed(ms, extra[0]);
      PutGet(ms, extra[0], key);
      assert forall i :: 0 <= i < |extra[1..]| ==> extra[1..][i] == extra[i + 1];
      UpdateGet(Put(ms, extra[0]), extra[1..], key);
      if key == extra[0].key { GetNone(extra[1..], key); }
    }
  }

  /** build_evidence before the digest is set; `asset` is the posture's five identity fields. */
  function EvidenceFields(
    asset: Json, results: Json, recordedAt: string, previous: string, extra: seq<Member>): seq<Member> {
    Update([Member("schema_version", Str("1.0")), Member("recorded_at", Str(recordedAt)), Member("asset", asset),
            Member("results", results), Member(PREVIOUS, Str(previous))], extra)
  }

  /** build_evidence: the digest of the fields is assigned to record_hash. */
  function Evidence(sha: Digest, fields: seq<Member>): Json {
    Obj(Put(fields, Member("record_hash", Str(sha(Canonical(Obj(fields), true))))))
  }

  lemma {:induction false} PutAbsent(ms: seq<Member>, m: Member)
    requires Get(ms, m.key).None?
    ensures Put(ms, m) == ms + [m]
  {
    if ms != [] {
      PutAbsent(ms[1..], m);
      assert ms == [ms[0]] + ms[1..];
    }
  }

  lemma {:induction false} RemovePut(ms: seq<Member>, m: Member)
    ensures Remove(Put(ms, m), m.key) == Remove(ms, m.key)
  {
    if ms != [] && ms[0].key != m.key { RemovePut(ms[1..], m); }
  }

  /** The evidence record's own digest field, read back, against what verification recomputes. */
  lemma EvidenceDigest(sha: Digest, fields: seq<Member>)
    requires WellFormed(Obj(fields)) && Get(fields, "record_hash").Some?
    ensures var v := Evidence(sha, fields);
            WellFormed(v) && Normalize(v).Obj? && WellFormed(Normalize(v))
            && Get(Normalize(v).members, "record_hash") == Some(Str(sha(Canonical(Obj(fields), true))))
            && HashedText(LEDGER, Normalize(v)) == Canonical(Obj(Remove(fields, "record_hash")), true)
            && HashedText(LEDGER, Normalize(v)) != Canonical(Obj(fields), true)
            && Normalize(Body(LEDGER, Normalize(v))) == Normalize(Obj(Remove(fields, "record_hash")))
  {
    var m := Member("record_hash", Str(sha(Canonical(Obj(fields), true))));
    var v := Evidence(sha, fields);
    PutWellFormed(fields, m);
    NormalizeWellFormed(v);
    hide WellFormed, Put;
    PutGet(fields, m, "record_hash");
    GetNormal(v.members, "record_hash");
    RemovePut(fields, m);
    RemoveNormal(v.members, "record_hash");
    RemovalShows(fields, "record_hash");
  }

  /** An object with and without one of its keys has two canonical texts. */
  lemma RemovalShows(fields: seq<Member>, key: string)
    requires WellFormed(Obj(fields)) && Get(fields, key).Some?
    ensures Canonical(Obj(Remove(fields, key)), true) != Canonical(Obj(fields), true)
  {
    var rest := Remove(fields, key);
    RemoveWellFormed(fields, key);
    NormalizeWellFormed(Obj(rest));
    NormalizeWellFormed(Obj(fields));
    GetNone(rest, key);
    GetNormal(rest, key);
    GetNormal(fields, key);
    hide WellFormed, Get, Remove;
    if Canonical(Obj(rest), true) == Canonical(Obj(fields), true) {
      PrintPrefix(Normalize(Obj(rest)), Normalize(Obj(fields)), "", "", true);
    }
  }

  /**
    * append_evidence_atomic on a ledger that verifies. The ledger keeps
    * verifying exactly when the extra fields leave previous_hash alone and, if
    * they hold a record_hash, the digest collides on two particular texts: all
    * the fields', which was hashed, and that of the fields without record_hash,
    * which verification hashes.
    */
  lemma EvidenceVerifies(
      sha: Digest, loads: Loads, t: string, asset: Json, results: Json, recordedAt: string, extra: seq<Member>)
    requires Reads(loads, true) && Terminated(t) && Verifies(LEDGER, sha, loads, t)
    requires Held(loads, asset) && Held(loads, results) && Held(loads, Obj(extra))
    ensures var head := Head(LEDGER, sha, Records(loads, Lines(t)).value);
            var fields := EvidenceFields(asset, results, recordedAt, head, extra);
            var v := Evidence(sha, fields);
            var more := t + Canonical(v, true) + "\n";
            Terminated(more)
            && (Verifies(LEDGER, sha, loads, more) <==>
                && (Get(extra, PREVIOUS).None? || Get(extra, PREVIOUS) == Some(Str(head)))
                && (Get(extra, "record_hash").Some? ==> OverwriteCollides(sha, fields)))
  {
    hide WellFormed, Sealed, HashedText, Evidence, EvidenceFields, Get, Canonical, Lines, LinkAt;
    var head := Head(LEDGER, sha, Records(loads, Lines(t)).value);
    EvidenceGet(asset, results, recordedAt, head, extra);
    EvidenceHeld(loads, asset, results, recordedAt, head, extra);
    var fields := EvidenceFields(asset, results, recordedAt, head, extra);
    if Get(extra, "record_hash").None? {
      EvidenceSealed(sha, fields);
      AppendVerifies(LEDGER, sha, loads, t, fields);
    } else {
      EvidenceOverwritten(sha, loads, t, fields);
    }
  }

  /** The digest does not tell the fields' text from their text without record_hash. */
  ghost predicate OverwriteCollides(sha: Digest, fields: seq<Member>) {
    var all, rest := Canonical(Obj(fields), true), Canonical(Obj(Remove(fields, "record_hash")), true);
    all != rest && sha(all) == sha(rest)
  }

  lemma EvidenceOverwritten(sha: Digest, loads: Loads, t: string, fields: seq<Member>)
    requires Reads(loads, true) && Terminated(t) && Verifies(LEDGER, sha, loads, t)
    requires Held(loads, Obj(fields)) && Get(fields, "record_hash").Some?
    ensures var more := t + Canonical(Evidence(sha, fields), true) + "\n";
            var head := Head(LEDGER, sha, Records(loads, Lines(t)).value);
            Terminated(more)
            && (Verifies(LEDGER, sha, loads, more) <==>
                Get(fields, PREVIOUS) == Some(Str(head)) && OverwriteCollides(sha, fields))
  {
    hide WellFormed, HashedText, Lines, Canonical, Evidence, Get, Reads, Links, OverwriteCollides, Held, LinkAt, Head;
    OverwrittenHeld(sha, loads, fields);
    AppendRecord(LEDGER, sha, loads, t, Evidence(sha, fields));
    OverwrittenLinks(sha, fields, Head(LEDGER, sha, Records(loads, Lines(t)).value));
  }

  lemma OverwrittenHeld(sha: Digest, loads: Loads, fields: seq<Member>)
    requires Held(loads, Obj(fields)) && Get(fields, "record_hash").Some?
    ensures var v := Evidence(sha, fields); v.Obj? && Held(loads, v) && Normalize(v).Obj? && WellFormed(Obj(fields))
  {
    hide WellFormed, HashedText, Canonical, Get;
    EvidenceDigest(sha, fields);
    PutNumbers(loads, fields, Member("record_hash", Str(sha(Canonical(Obj(fields), true)))));
  }

  lemma OverwrittenLinks(sha: Digest, fields: seq<Member>, head: string)
    requires WellFormed(Obj(fields)) && Get(fields, "record_hash").Some?
    ensures Links(LEDGER, sha, Normalize(Evidence(sha, fields)), head) <==>
            Get(fields, PREVIOUS) == Some(Str(head)) && OverwriteCollides(sha, fields)
  {
    hide WellFormed, HashedText, Canonical, Evidence, Get;
    EvidenceDigest(sha, fields);
    var n := Normalize(Evidence(sha, fields));
    var rest := Remove(fields, "record_hash");
    RemoveWellFormed(fields, "record_hash");
    BodyWellFormed(LEDGER, n);
    StringMember(rest, Body(LEDGER, n).members, PREVIOUS, head);
    GetRemoved(fields, "record_hash", PREVIOUS);
  }

  lemma {:induction false} GetRemoved(ms: seq<Member>, removed: string, key: string)
    requires removed != key
    ensures Get(Remove(ms, removed), key) == Get(ms, key)
  {
    if ms != [] { GetRemoved(ms[1..], removed, key); }
  }

  lemma {:induction false} PutNumbers(loads: Loads, ms: seq<Member>, m: Member)
    requires NumbersKept(loads, Obj(ms)) && NumbersKept(loads, m.value)
    ensures NumbersKept(loads, Obj(Put(ms, m)))
  {
    var r := Put(ms, m);
    forall i | 0 <= i < |r| ensures NumbersKept(loads, r[i].value) {
      PutMember(ms, m, r[i]);
      if r[i] != m { var j :| 0 <= j < |ms| && ms[j] == r[i]; }
    }
  }

  lemma {:induction false} UpdateNumbers(loads: Loads, ms: seq<Member>, extra: seq<Member>)
    requires NumbersKept(loads, Obj(ms)) && NumbersKept(loads, Obj(extra))
    ensures NumbersKept(loads, Obj(Update(ms, extra)))
    decreases |extra|
  {
    if extra != [] {
      PutNumbers(loads, ms, extra[0]);
      assert forall i :: 0 <= i < |extra[1..]| ==> extra[1..][i] == extra[i + 1];
      UpdateNumbers(loads, Put(ms, extra[0]), extra[1..]);
    }
  }

  lemma EvidenceHeld(loads: Loads, asset: Json, results: Json, recordedAt: string, previous: string, extra: seq<Member>)
    requires Held(loads, asset) && Held(loads, results) && Held(loads, Obj(extra))
    ensures Held(loads, Obj(EvidenceFields(asset, results, recordedAt, previous, extra)))
  {
    EvidenceGet(asset, results, recordedAt, previous, extra);
    UpdateNumbers(loads, EvidenceFields(asset, results, recordedAt, previous, []), extra);
  }

  lemma EvidenceGet(asset: Json, results: Json, recordedAt: string, previous: string, extra: seq<Member>)
    requires WellFormed(asset) && WellFormed(results) && WellFormed(Obj(extra))
    ensures var fields := EvidenceFields(asset, results, recordedAt, previous, extra);
            WellFormed(Obj(fields))
            && Get(fields, "record_hash") == Get(extra, "record_hash")
            && Get(fields, PREVIOUS) == if Get(extra, PREVIOUS).Some? then Get(extra, PREVIOUS) else Some(Str(previous))
  {
    hide Get, WellFormed;
    var base := EvidenceFields(asset, results, recordedAt, previous, []);
    EvidenceBase(asset, results, recordedAt, previous);
    UpdateGet(base, extra, "record_hash");
    UpdateGet(base, extra, PREVIOUS);
  }

  lemma EvidenceSealed(sha: Digest, fields: seq<Member>)
    requires Get(fields, "record_hash").None?
    ensures Evidence(sha, fields) == Sealed(LEDGER, sha, fields)
  {
    PutAbsent(fields, Member("record_hash", Str(sha(Canonical(Obj(fields), true)))));
  }

  lemma EvidenceBase(asset: Json, results: Json, recordedAt: string, previous: string)
    requires WellFormed(asset) && WellFormed(results)
    ensures var ms := EvidenceFields(asset, results, recordedAt, previous, []);
            WellFormed(Obj(ms)) && Get(ms, PREVIOUS) == Some(Str(previous)) && Get(ms, "record_hash").None?
  {
    hide Get;
    var ms := EvidenceFields(asset, results, recordedAt, previous, []);
    var keys := ["schema_version", "recorded_at", "asset", "results", PREVIOUS];
    var lengths := [14, 11, 5, 7, 13];
    assert forall i :: 0 <= i < 5 ==> ms[i].key == keys[i] && |keys[i]| == lengths[i];
    assert forall i, j :: 0 <= i < j < 5 ==> lengths[i] != lengths[j];
    assert keys[1][2] == 'c' && keys[1][3] == 'o' && "record_hash"[6] == '_' && keys[1][6] == 'e';
    assert DistinctKeys(ms);
    GetIs(ms, ms[4]);
    GetNone(ms, "record_hash");
  }
}
