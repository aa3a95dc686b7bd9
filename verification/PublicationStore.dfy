/**
  * The publication side of state_store.py, _persist_validated_body and the
  * reconciliation sweep, as one object over the record table and the files.
  */
module PublicationStore {
  import opened Basics
  import opened Publication

  datatype Response = Accepted(evidenceId: string) | Duplicate(evidenceId: string)

  /** Every evidence id names at most one record. */
  ghost predicate OneRowPerId(d: Disk) {
    forall a, b :: a in d.records && b in d.records && d.records[a].evidenceId == d.records[b].evidenceId ==> a == b
  }

  /** Some listed file makes this record a candidate. */
  ghost predicate Listed(sha: Digest, d: Disk, listing: seq<(string, string)>, h: string, grace: int, now: real) {
    exists i :: 0 <= i < |listing| && Candidate(sha, d, listing[i].0, listing[i].1, h, grace, now)
  }

  /** The record is as before, except that it may have become committed. */
  predicate MayCommit(d: Disk, e: Disk, h: string) {
    h in d.records && h in e.records
      && (e.records[h] == d.records[h] || e.records[h] == d.records[h].(committed := true))
  }

  ghost predicate CommitsAll(sha: Digest, d: Disk, e: Disk, listing: seq<(string, string)>, grace: int, now: real) {
    forall h :: h in d.records && (Committed(d, h) || Listed(sha, d, listing, h, grace, now)) ==> Committed(e, h)
  }

  /** What a sweep did: it committed listed candidates only, and all of them when ids are unique. */
  ghost predicate SweptAll(sha: Digest, d: Disk, e: Disk, listing: seq<(string, string)>, grace: int, now: real) {
    && e.files == d.files && e.records.Keys == d.records.Keys
    && (forall h :: h in d.records ==> MayCommit(d, e, h))
    && (forall h :: h in d.records && Committed(e, h) ==> Committed(d, h) || Listed(sha, d, listing, h, grace, now))
    && (OneRowPerId(d) ==> CommitsAll(sha, d, e, listing, grace, now))
  }

  predicate Newly(d: Disk, e: Disk, h: string) {
    h in d.records && Committed(e, h) && !Committed(d, h)
  }

  /** The returned ids are exactly those of the records the sweep committed. */
  ghost predicate Reported(d: Disk, e: Disk, ids: seq<string>) {
    && (forall h :: Newly(d, e, h) ==> d.records[h].evidenceId in ids)
    && (forall id :: id in ids ==> exists h :: Newly(d, e, h) && d.records[h].evidenceId == id)
  }

  lemma CandidateRow(sha: Digest, d: Disk, dir: string, stem: string, h: string, grace: int, now: real)
    requires Candidate(sha, d, dir, stem, h, grace, now)
    ensures RowFor(d, stem, h) && !d.records[h].committed
  {
  }

  lemma ReportMore(d: Disk, e: Disk, n: Disk, ids: seq<string>, h: string)
    requires Reported(d, e, ids) && (forall x :: x in d.records ==> MayCommit(d, e, x))
    requires e.records.Keys == d.records.Keys
    requires h in e.records && !e.records[h].committed && n == Publication.CommitPayload(e, h, e.records[h].evidenceId)
    ensures Reported(d, n, ids + [e.records[h].evidenceId])
  {
    assert MayCommit(d, e, h);
    var more := ids + [e.records[h].evidenceId];
    forall x | Newly(d, n, x) ensures d.records[x].evidenceId in more {
      assert x != h ==> Newly(d, e, x);
    }
    forall id | id in more ensures exists x :: Newly(d, n, x) && d.records[x].evidenceId == id {
      if id in ids {
        var x :| Newly(d, e, x) && d.records[x].evidenceId == id;
        assert Newly(d, n, x);
      } else {
        assert Newly(d, n, h);
      }
    }
  }

  class PublicationState {
    const sha: Digest
    var records: map<string, Record>
    var files: map<(string, string), string>

    function State(): Disk
      reads this
    {
      Disk(records, files)
    }

    constructor (sha: Digest)
      ensures this.sha == sha && State() == Disk(map[], map[])
    {
      this.sha, records, files := sha, map[], map[];
    }

    method GetEvidenceId(hash: string) returns (id: Option<string>)
      ensures id == if Committed(State(), hash) then Some(records[hash].evidenceId) else None
    {
      id := if hash in records && records[hash].committed then Some(records[hash].evidenceId) else None;
    }

    /** INSERT OR IGNORE, then the stored identity is compared: None is the IntegrityError. */
    method BeginPayload(hash: string, evidenceId: string, now: real) returns (created: Option<bool>)
      modifies this
      ensures State() == Publication.BeginPayload(old(State()), hash, evidenceId, now)
      ensures created == if records[hash].evidenceId != evidenceId then None else Some(hash !in old(records))
    {
      var absent := hash !in records;
      if absent {
        records := records[hash := Record(evidenceId, now, false)];
      }
      created := if records[hash].evidenceId != evidenceId then None else Some(absent);
    }

    method CommitPayload(hash: string, evidenceId: string) returns (updated: bool)
      modifies this
      ensures State() == Publication.CommitPayload(old(State()), hash, evidenceId)
      ensures updated == RowFor(old(State()), evidenceId, hash)
    {
      updated := hash in records && records[hash].evidenceId == evidenceId;
      if updated {
        records := records[hash := records[hash].(committed := true)];
      }
    }

    /** A row with this id, any one of them. */
    method FindPayload(evidenceId: string) returns (row: Option<string>)
      ensures LooksUp(State(), evidenceId, row)
    {
      if h :| h in records && records[h].evidenceId == evidenceId {
        row := Some(h);
      } else {
        row := None;
      }
    }

    /**
      * _persist_validated_body under the publication lock, without a crash; a
      * pending record under another id is an identity mismatch.
      */
    method PersistValidatedBody(body: string, dir: string, now: real) returns (r: Result<Response, string>)
      modifies this
      ensures var h := sha(body);
              if Committed(old(State()), h) then
                r == Ok(Duplicate(old(records)[h].evidenceId)) && State() == old(State())
              else if h in old(records) && old(records)[h].evidenceId != IdOf(h) then r.Err? && State() == old(State())
              else r == Ok(Accepted(IdOf(h))) && State() == Resend(sha, System(old(State()), None), body, dir, now).disk
    {
      var hash := sha(body);
      var id := IdOf(hash);
      var existing := GetEvidenceId(hash);
      if existing.Some? { return Ok(Duplicate(existing.value)); }
      var begun := BeginPayload(hash, id, now);
      if begun.None? { return Err("payload identity mismatch"); }
      files := files[(dir, id) := body];
      var committed := CommitPayload(hash, id);
      if !committed {
        var other := GetEvidenceId(hash);
        if other != Some(id) { return Err("payload publication state was not committed"); }
      }
      r := Ok(Accepted(id));
    }

    /** reconcile_pending_publications: directories in order, each with its sorted file stems. */
    method ReconcilePending(directories: seq<(string, seq<string>)>, grace: int, now: real)
      returns (r: Result<seq<string>, string>)
      modifies this
      ensures grace < 0 ==> r.Err? && State() == old(State())
      ensures grace >= 0 ==>
                r.Ok? && SweptAll(sha, old(State()), State(), Flat(directories), grace, now)
                  && Reported(old(State()), State(), r.value)
    {
      hide Candidate, Reported, Listed, Committed, Publication.CommitPayload, MayCommit, OneRowPerId;
      if grace < 0 { return Err("grace_seconds must not be negative"); }
      ghost var d := State();
      ghost var done: seq<(string, string)> := [];
      var reconciled: seq<string> := [];
      SweepStarts(sha, d, grace, now);
      for i := 0 to |directories|
        invariant done == Flat(directories[..i]) && SweptAll(sha, d, State(), done, grace, now)
        invariant Reported(d, State(), reconciled)
      {
        var dir, stems := directories[i].0, directories[i].1;
        for j := 0 to |stems|
          invariant done == Flat(directories[..i]) + Pairs(dir, stems[..j])
          invariant SweptAll(sha, d, State(), done, grace, now)
          invariant Reported(d, State(), reconciled)
        {
          ghost var before := State();
          var row := FindPayload(stems[j]);
          if row.Some? && Candidate(sha, State(), dir, stems[j], row.value, grace, now) {
            CandidateRow(sha, before, dir, stems[j], row.value, grace, now);
            var committed := CommitPayload(row.value, stems[j]);
            ReportMore(d, before, State(), reconciled, row.value);
            if committed { reconciled := reconciled + [stems[j]]; }
          }
          SweepOne(sha, d, before, done, dir, stems[j], row, grace, now);
          assert stems[..j + 1] == stems[..j] + [stems[j]];
          PairsSnoc(dir, stems[..j], stems[j]);
          done := done + [(dir, stems[j])];
        }
        assert stems[..|stems|] == stems;
        assert directories[..i + 1] == directories[..i] + [directories[i]];
        FlatSnoc(directories[..i], directories[i]);
      }
      assert directories[..|directories|] == directories;
      r := Ok(reconciled);
    }
  }

  function Pairs(dir: string, stems: seq<string>): (r: seq<(string, string)>)
    ensures |r| == |stems| && forall i :: 0 <= i < |stems| ==> r[i] == (dir, stems[i])
  {
    seq(|stems|, i requires 0 <= i < |stems| => (dir, stems[i]))
  }

  /** The files a sweep looks at, in order. */
  function Flat(directories: seq<(string, seq<string>)>): seq<(string, string)> {
    if directories == [] then []
    else
      var last := directories[|directories| - 1];
      Flat(directories[..|directories| - 1]) + Pairs(last.0, last.1)
  }

  lemma FlatSnoc(directories: seq<(string, seq<string>)>, x: (string, seq<string>))
    ensures Flat(directories + [x]) == Flat(directories) + Pairs(x.0, x.1)
  {
    assert (directories + [x])[..|directories|] == directories;
  }

  lemma PairsSnoc(dir: string, stems: seq<string>, x: string)
    ensures Pairs(dir, stems + [x]) == Pairs(dir, stems) + [(dir, x)]
  {
  }

  lemma SweepStarts(sha: Digest, d: Disk, grace: int, now: real)
    ensures SweptAll(sha, d, d, [], grace, now) && Reported(d, d, [])
  {
  }

  /** What one file's turn does to the table. */
  function Turn(sha: Digest, e: Disk, dir: string, stem: string, row: Option<string>, grace: int, now: real): Disk {
    if row.Some? && Candidate(sha, e, dir, stem, row.value, grace, now) then
      Publication.CommitPayload(e, row.value, stem) else e
  }

  lemma SweepOne(
    sha: Digest, d: Disk, e: Disk, done: seq<(string, string)>, dir: string, stem: string, row: Option<string>,
    grace: int, now: real)
    requires SweptAll(sha, d, e, done, grace, now) && LooksUp(e, stem, row)
    ensures SweptAll(sha, d, Turn(sha, e, dir, stem, row, grace, now), done + [(dir, stem)], grace, now)
  {
    hide IsEvidenceFilename;
    var n, more := Turn(sha, e, dir, stem, row, grace, now), done + [(dir, stem)];
    forall h | h in d.records ensures MayCommit(d, n, h) { assert MayCommit(d, e, h); }
    forall h | h in d.records && Committed(n, h) ensures Committed(d, h) || Listed(sha, d, more, h, grace, now) {
      assert MayCommit(d, e, h);
      if Committed(e, h) {
        if !Committed(d, h) { ListedMore(sha, d, done, (dir, stem), h, grace, now); }
      } else {
        assert more[|done|] == (dir, stem);
        assert Candidate(sha, d, dir, stem, h, grace, now);
      }
    }
    if OneRowPerId(d) {
      forall h | h in d.records && (Committed(d, h) || Listed(sha, d, more, h, grace, now)) ensures Committed(n, h) {
        assert MayCommit(d, e, h);
        TurnCommits(sha, d, e, done, dir, stem, row, h, grace, now);
      }
    }
  }

  lemma ListedMore(
    sha: Digest, d: Disk, done: seq<(string, string)>, x: (string, string), h: string, grace: int, now: real)
    ensures Listed(sha, d, done + [x], h, grace, now) <==>
              Listed(sha, d, done, h, grace, now) || Candidate(sha, d, x.0, x.1, h, grace, now)
  {
    hide Candidate;
    var more := done + [x];
    if Listed(sha, d, done, h, grace, now) {
      var i :| 0 <= i < |done| && Candidate(sha, d, done[i].0, done[i].1, h, grace, now);
      assert more[i] == done[i];
    }
    if Candidate(sha, d, x.0, x.1, h, grace, now) { assert more[|done|] == x; }
    if Listed(sha, d, more, h, grace, now) {
      var i :| 0 <= i < |more| && Candidate(sha, d, more[i].0, more[i].1, h, grace, now);
      assert i < |done| ==> more[i] == done[i];
    }
  }

  lemma TurnCommits(sha: Digest, d: Disk, e: Disk, done: seq<(string, string)>, dir: string, stem: string,
                    row: Option<string>,
                    h: string, grace: int, now: real)
    requires SweptAll(sha, d, e, done, grace, now) && LooksUp(e, stem, row) && OneRowPerId(d) && h in d.records
    requires MayCommit(d, e, h)
    requires Committed(d, h) || Listed(sha, d, done + [(dir, stem)], h, grace, now)
    ensures Committed(Turn(sha, e, dir, stem, row, grace, now), h)
  {
    hide IsEvidenceFilename;
    ListedMore(sha, d, done, (dir, stem), h, grace, now);
    if !Committed(e, h) {
      assert Candidate(sha, d, dir, stem, h, grace, now);
      assert RowFor(e, stem, h);
      assert MayCommit(d, e, row.value);
    }
  }

  /** The listing covers every file there is. */
  ghost predicate CoversFiles(d: Disk, listing: seq<(string, string)>) {
    forall k :: k in d.files ==> k in listing
  }

  /**
    * Start-up sweep (no grace, nothing in flight): a pending record with a
    * verified file is committed by it if and only if its acceptance time is not
    * ahead of the sweep's clock; so with a clock that does not run backwards no
    * durable verified file stays pending.
    */
  lemma StartupSweep(
    sha: Digest, bodies: set<string>, steps: seq<Step>, e: Disk, listing: seq<(string, string)>, now: real, h: string)
    requires Unambiguous(sha, bodies) && (forall t :: |sha(t)| == 64 && IsEvidenceFilename(IdOf(sha(t))))
             && Run(sha, bodies, steps).Some?
    requires var d := Run(sha, bodies, steps).value.disk;
             CoversFiles(d, listing) && SweptAll(sha, d, e, listing, 0, now)
             && h in d.records && !d.records[h].committed && HasFile(sha, d, h)
    ensures Committed(e, h) <==> Run(sha, bodies, steps).value.disk.records[h].acceptedAt <= now
    ensures Durable(sha, e)
  {
    hide IsEvidenceFilename, IdOf;
    var s := Run(sha, bodies, steps).value;
    var d := s.disk;
    RunKeepsInv(sha, bodies, steps);
    IdsUnique(sha, bodies, s);
    assert RecordOf(sha, bodies, d, h);
    var dir :| Verified(sha, d, dir, IdOf(h), h);
    if d.records[h].acceptedAt <= now {
      var i :| 0 <= i < |listing| && listing[i] == (dir, IdOf(h));
      assert Candidate(sha, d, listing[i].0, listing[i].1, h, 0, now);
      assert Listed(sha, d, listing, h, 0, now);
    }
    SweepDurable(sha, bodies, s, e, listing, now);
  }

  /** A record accepted at 10, its file in place, the crash before the commit; the clock then says 5. */
  lemma ClockBehindWitness(sha: Digest, body: string)
    requires |sha(body)| == 64 && IsEvidenceFilename(IdOf(sha(body)))
    ensures var steps := [Accept(body, "", 10.0), Place, Abort]; var h := sha(body);
            && Run(sha, {body}, steps).Some?
            && var d := Run(sha, {body}, steps).value.disk;
               && HasFile(sha, d, h) && !Committed(d, h) && CoversFiles(d, [("", IdOf(h))])
               && SweptAll(sha, d, d, [("", IdOf(h))], 0, 5.0)
  {
    hide IsEvidenceFilename, IdOf;
    var steps := [Accept(body, "", 10.0), Place, Abort];
    var h := sha(body);
    var d := Disk(map[h := Record(IdOf(h), 10.0, false)], map[("", IdOf(h)) := body]);
    var a := After(sha, START, steps[0]);
    RunSnoc(sha, {body}, [], START, steps[0]);
    RunSnoc(sha, {body}, [] + [steps[0]], a, Place);
    RunSnoc(sha, {body}, [] + [steps[0]] + [Place], After(sha, a, Place), Abort);
    assert steps == [] + [steps[0]] + [Place] + [Abort];
    assert Run(sha, {body}, steps).value.disk == d;
    assert Verified(sha, d, "", IdOf(h), h);
    SweepStarts(sha, d, 0, 5.0);
    SweepOne(sha, d, d, [], "", IdOf(h), Some(h), 0, 5.0);
    assert [] + [("", IdOf(h))] == [("", IdOf(h))];
    assert Turn(sha, d, "", IdOf(h), Some(h), 0, 5.0) == d;
  }

  lemma IdsUnique(sha: Digest, bodies: set<string>, s: System)
    requires Unambiguous(sha, bodies) && Inv(sha, bodies, s)
    ensures OneRowPerId(s.disk)
  {
    forall a, b | a in s.disk.records && b in s.disk.records
      && s.disk.records[a].evidenceId == s.disk.records[b].evidenceId ensures a == b {
      assert RecordOf(sha, bodies, s.disk, a) && RecordOf(sha, bodies, s.disk, b);
    }
  }

  lemma SweepDurable(sha: Digest, bodies: set<string>, s: System, e: Disk, listing: seq<(string, string)>, now: real)
    requires Inv(sha, bodies, s) && SweptAll(sha, s.disk, e, listing, 0, now)
    ensures Durable(sha, e)
  {
    hide IsEvidenceFilename, IdOf;
    var d := s.disk;
    forall h | Committed(e, h) ensures Committed(d, h) || HasFile(sha, d, h) {
      assert h in d.records && RecordOf(sha, bodies, d, h);
      if !Committed(d, h) {
        var i :| 0 <= i < |listing| && Candidate(sha, d, listing[i].0, listing[i].1, h, 0, now);
        FileWitness(sha, d, listing[i].0, h);
      }
    }
    DurableKept(sha, d, e);
  }
}
