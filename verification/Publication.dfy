/**
  * Evidence publication: a record is reserved as pending, the body's file is
  * put in place, the record is committed; a sweep commits records a crash left
  * pending. Every request runs under the server's publication lock, so one is
  * in flight at a time; a crash may come between any two of its steps, and
  * sweeps run at any moment. os.replace is one durable step.
  *
  * The public evidence id is the first 24 digits of the payload's SHA-256, and
  * accepted_payloads does not require it to be unique.
  */
module Publication {
  import opened Basics

  datatype Record = Record(evidenceId: string, acceptedAt: real, committed: bool)

  /** accepted_payloads by payload hash, and the evidence files by directory and stem. */
  datatype Disk = Disk(records: map<string, Record>, files: map<(string, string), string>)

  const ID_LENGTH := 24

  function IdOf(hash: string): string {
    Clip(hash, ID_LENGTH)
  }

  predicate IsEvidenceFilename(stem: string) {
    |stem| == ID_LENGTH && forall i :: 0 <= i < |stem| ==> IsHex(stem[i])
  }

  /** begin_payload: INSERT OR IGNORE as pending. */
  function BeginPayload(d: Disk, hash: string, evidenceId: string, now: real): Disk {
    if hash in d.records then d else d.(records := d.records[hash := Record(evidenceId, now, false)])
  }

  /** commit_payload: only a record with this hash and id is updated. */
  function CommitPayload(d: Disk, hash: string, evidenceId: string): Disk {
    if hash in d.records && d.records[hash].evidenceId == evidenceId then
      d.(records := d.records[hash := d.records[hash].(committed := true)])
    else d
  }

  predicate Committed(d: Disk, hash: string) {
    hash in d.records && d.records[hash].committed
  }

  /** A row find_payload_by_evidence_id may return for this id. */
  predicate RowFor(d: Disk, evidenceId: string, hash: string) {
    hash in d.records && d.records[hash].evidenceId == evidenceId
  }

  /** The file's bytes have the given hash. */
  predicate Verified(sha: Digest, d: Disk, dir: string, stem: string, hash: string) {
    (dir, stem) in d.files && sha(d.files[(dir, stem)]) == hash
  }

  /** _pending_candidate accepts this file with this row. */
  predicate Candidate(sha: Digest, d: Disk, dir: string, stem: string, hash: string, grace: int, now: real) {
    && IsEvidenceFilename(stem) && RowFor(d, stem, hash) && !d.records[hash].committed
    && now - d.records[hash].acceptedAt >= grace as real
    && Verified(sha, d, dir, stem, hash)
  }

  // ----- Runs -----

  datatype Phase = Reserved | Placed

  datatype Request = Request(body: string, dir: string, phase: Phase)

  datatype System = System(disk: Disk, inFlight: Option<Request>)

  datatype Step =
    | Accept(body: string, dir: string, now: real)      // lock taken, looked up, reserved
    | Place                                              // temporary file written and renamed
    | Commit                                             // committed, answered, lock released
    | Abort                                              // a crash or an error at this point
    | Sweep(dir: string, stem: string, hash: string, grace: int, now: real)
    | Drop(dir: string, stem: string, bytes: string)     // unmanaged inbox file

  const START := System(Disk(map[], map[]), None)

  predicate Enabled(bodies: set<string>, s: System, step: Step) {
    match step
    case Accept(body, _, _) => s.inFlight.None? && body in bodies
    case Place => s.inFlight.Some? && s.inFlight.value.phase == Reserved
    case Commit => s.inFlight.Some? && s.inFlight.value.phase == Placed
    case Abort => s.inFlight.Some?
    case Sweep(_, stem, hash, grace, _) => grace >= 0 && RowFor(s.disk, stem, hash)
    case Drop(_, stem, _) => forall h :: h in s.disk.records ==> s.disk.records[h].evidenceId != stem
  }

  function Swept(sha: Digest, d: Disk, dir: string, stem: string, hash: string, grace: int, now: real): Disk {
    if Candidate(sha, d, dir, stem, hash, grace, now) then CommitPayload(d, hash, stem) else d
  }

  function PlacedFile(sha: Digest, d: Disk, dir: string, body: string): Disk {
    d.(files := d.files[(dir, IdOf(sha(body))) := body])
  }

  function After(sha: Digest, s: System, step: Step): System
    requires (step.Place? || step.Commit?) ==> s.inFlight.Some?
  {
    match step
    case Accept(body, dir, now) =>
      if Committed(s.disk, sha(body)) then s  // answered as a duplicate
      else System(BeginPayload(s.disk, sha(body), IdOf(sha(body)), now), Some(Request(body, dir, Reserved)))
    case Place =>
      var r := s.inFlight.value;
      System(PlacedFile(sha, s.disk, r.dir, r.body), Some(r.(phase := Placed)))
    case Commit =>
      var h := sha(s.inFlight.value.body);
      System(CommitPayload(s.disk, h, IdOf(h)), None)
    case Abort => s.(inFlight := None)
    case Sweep(dir, stem, hash, grace, now) => s.(disk := Swept(sha, s.disk, dir, stem, hash, grace, now))
    case Drop(dir, stem, bytes) => s.(disk := s.disk.(files := s.disk.files[(dir, stem) := bytes]))
  }

  function Run(sha: Digest, bodies: set<string>, steps: seq<Step>): Option<System>
    decreases |steps|
  {
    if steps == [] then Some(START)
    else
      var before := Run(sha, bodies, steps[..|steps| - 1]);
      if before.Some? && Enabled(bodies, before.value, steps[|steps| - 1]) then
        Some(After(sha, before.value, steps[|steps| - 1])) else None
  }

  // ----- The committed-file property and its exact condition -----

  /** No two of the bodies have different digests with one 24-digit id. */
  predicate Unambiguous(sha: Digest, bodies: set<string>) {
    forall a, b :: a in bodies && b in bodies && IdOf(sha(a)) == IdOf(sha(b)) ==> sha(a) == sha(b)
  }

  ghost predicate HasFile(sha: Digest, d: Disk, hash: string) {
    exists dir :: Verified(sha, d, dir, IdOf(hash), hash)
  }

  /** Every committed record has a file whose bytes hash to its payload hash. */
  ghost predicate Durable(sha: Digest, d: Disk) {
    forall h :: Committed(d, h) ==> HasFile(sha, d, h)
  }

  predicate RecordOf(sha: Digest, bodies: set<string>, d: Disk, h: string)
    requires h in d.records
  {
    d.records[h].evidenceId == IdOf(h) && exists b :: b in bodies && sha(b) == h
  }

  /** Records belong to accepted bodies and carry their ids. */
  ghost predicate RecordsOk(sha: Digest, bodies: set<string>, s: System) {
    && (forall h :: h in s.disk.records ==> RecordOf(sha, bodies, s.disk, h))
    && (s.inFlight.Some? ==> s.inFlight.value.body in bodies)
  }

  ghost predicate Inv(sha: Digest, bodies: set<string>, s: System) {
    && RecordsOk(sha, bodies, s) && Durable(sha, s.disk)
    && (s.inFlight.Some? ==>
          var r := s.inFlight.value; var h := sha(r.body);
          h in s.disk.records && (r.phase == Placed ==> Verified(sha, s.disk, r.dir, IdOf(h), h)))
  }

  lemma DurableKept(sha: Digest, d: Disk, e: Disk)
    requires Durable(sha, d) && d.files == e.files
    requires forall h :: Committed(e, h) ==> Committed(d, h) || HasFile(sha, d, h)
    ensures Durable(sha, e)
  {
    forall h | Committed(e, h) ensures HasFile(sha, e, h) {
      assert HasFile(sha, d, h);
      var dir :| Verified(sha, d, dir, IdOf(h), h);
      assert Verified(sha, e, dir, IdOf(h), h);
    }
  }

  /** Replacing a file by a body cannot invalidate a record when ids are unambiguous. */
  lemma PlaceKeepsDurable(sha: Digest, bodies: set<string>, d: Disk, dir: string, body: string)
    requires Unambiguous(sha, bodies) && body in bodies && Durable(sha, d)
    requires forall h :: h in d.records ==> RecordOf(sha, bodies, d, h)
    ensures Durable(sha, PlacedFile(sha, d, dir, body))
  {
    var e := PlacedFile(sha, d, dir, body);
    forall h | Committed(e, h) ensures HasFile(sha, e, h) {
      assert Committed(d, h) && RecordOf(sha, bodies, d, h) && HasFile(sha, d, h);
      var at :| Verified(sha, d, at, IdOf(h), h);
      if IdOf(h) == IdOf(sha(body)) {
        assert Verified(sha, e, dir, IdOf(h), h);
      } else {
        assert Verified(sha, e, at, IdOf(h), h);
      }
    }
  }

  lemma DropKeepsDurable(sha: Digest, bodies: set<string>, d: Disk, dir: string, stem: string, bytes: string)
    requires Durable(sha, d)
    requires forall h :: h in d.records ==> RecordOf(sha, bodies, d, h) && d.records[h].evidenceId != stem
    ensures Durable(sha, d.(files := d.files[(dir, stem) := bytes]))
  {
    var e := d.(files := d.files[(dir, stem) := bytes]);
    forall h | Committed(e, h) ensures HasFile(sha, e, h) {
      assert Committed(d, h) && RecordOf(sha, bodies, d, h);
      var at :| Verified(sha, d, at, IdOf(h), h);
      assert Verified(sha, e, at, IdOf(h), h);
    }
  }

  lemma StepKeepsInv(sha: Digest, bodies: set<string>, s: System, step: Step)
    requires Unambiguous(sha, bodies) && Inv(sha, bodies, s) && Enabled(bodies, s, step)
    ensures Inv(sha, bodies, After(sha, s, step))
  {
    hide Durable, HasFile, IdOf, Candidate, Unambiguous;
    var r := After(sha, s, step);
    RecordsKept(sha, bodies, s, step);
    match step
    case Accept(body, dir, now) => DurableKept(sha, s.disk, r.disk);
    case Place => PlaceKeepsDurable(sha, bodies, s.disk, s.inFlight.value.dir, s.inFlight.value.body);
    case Commit =>
      var h := sha(s.inFlight.value.body);
      FileWitness(sha, s.disk, s.inFlight.value.dir, h);
      DurableKept(sha, s.disk, r.disk);
    case Abort =>
    case Sweep(dir, stem, hash, grace, now) => SweepKeepsInv(sha, bodies, s, step);
    case Drop(dir, stem, bytes) =>
      DropKeepsDurable(sha, bodies, s.disk, dir, stem, bytes);
  }

  lemma RecordsKept(sha: Digest, bodies: set<string>, s: System, step: Step)
    requires RecordsOk(sha, bodies, s) && Enabled(bodies, s, step)
    ensures var r := After(sha, s, step);
            (forall h :: h in s.disk.records ==> h in r.disk.records) && RecordsOk(sha, bodies, r)
  {
    hide Durable, Candidate;
    var r := After(sha, s, step);
    forall h | h in r.disk.records ensures RecordOf(sha, bodies, r.disk, h) {
      assert h in s.disk.records ==> RecordOf(sha, bodies, s.disk, h);
    }
  }

  lemma FileWitness(sha: Digest, d: Disk, dir: string, h: string)
    requires Verified(sha, d, dir, IdOf(h), h)
    ensures HasFile(sha, d, h)
  {
  }

  lemma SweepKeepsInv(sha: Digest, bodies: set<string>, s: System, step: Step)
    requires Inv(sha, bodies, s) && step.Sweep? && Enabled(bodies, s, step)
    ensures Inv(sha, bodies, After(sha, s, step))
  {
    hide Durable, HasFile, IdOf;
    var r := After(sha, s, step);
    assert RecordOf(sha, bodies, s.disk, step.hash);
    RecordsKept(sha, bodies, s, step);
    if Candidate(sha, s.disk, step.dir, step.stem, step.hash, step.grace, step.now) {
      FileWitness(sha, s.disk, step.dir, step.hash);
    }
    DurableKept(sha, s.disk, r.disk);
  }

  lemma {:induction false} RunKeepsInv(sha: Digest, bodies: set<string>, steps: seq<Step>)
    requires Unambiguous(sha, bodies) && Run(sha, bodies, steps).Some?
    ensures Inv(sha, bodies, Run(sha, bodies, steps).value)
    decreases |steps|
  {
    hide Inv, Enabled, After, Unambiguous;
    if steps == [] {
      StartInv(sha, bodies);
    } else {
      RunKeepsInv(sha, bodies, steps[..|steps| - 1]);
      StepKeepsInv(sha, bodies, Run(sha, bodies, steps[..|steps| - 1]).value, steps[|steps| - 1]);
    }
  }

  lemma StartInv(sha: Digest, bodies: set<string>)
    ensures Inv(sha, bodies, START)
  {
  }

  /** Two bodies with one id but different digests, sent to one directory, leave a committed record without its file. */
  function Clash(a: string, b: string): seq<Step> {
    [Accept(a, "", 0.0), Place, Commit, Accept(b, "", 0.0), Place, Commit]
  }

  lemma ClashRun(sha: Digest, bodies: set<string>, a: string, b: string)
    requires a in bodies && b in bodies && IdOf(sha(a)) == IdOf(sha(b)) && sha(a) != sha(b)
    ensures Run(sha, bodies, Clash(a, b)).Some?
    ensures Committed(Run(sha, bodies, Clash(a, b)).value.disk, sha(a))
    ensures !HasFile(sha, Run(sha, bodies, Clash(a, b)).value.disk, sha(a))
  {
    hide IdOf;
    var id := IdOf(sha(a));
    var s3 := System(Disk(map[sha(a) := Record(id, 0.0, true)], map[("", id) := a]), None);
    Served(sha, bodies, [], START, a);
    assert [] + [Accept(a, "", 0.0), Place, Commit] == [Accept(a, "", 0.0), Place, Commit];
    FirstServed(sha, a);
    hide After;
    Served(sha, bodies, [Accept(a, "", 0.0), Place, Commit], s3, b);
    assert Clash(a, b) == [Accept(a, "", 0.0), Place, Commit] + [Accept(b, "", 0.0), Place, Commit];
    SecondServed(sha, a, b, s3);
  }

  lemma FirstServed(sha: Digest, a: string)
    ensures After(sha, After(sha, After(sha, START, Accept(a, "", 0.0)), Place), Commit)
            == System(Disk(map[sha(a) := Record(IdOf(sha(a)), 0.0, true)], map[("", IdOf(sha(a))) := a]), None)
  {
    hide IdOf;
  }

  /** The second body takes the first one's place. */
  lemma SecondServed(sha: Digest, a: string, b: string, s: System)
    requires IdOf(sha(a)) == IdOf(sha(b)) && sha(a) != sha(b)
    requires s == System(Disk(map[sha(a) := Record(IdOf(sha(a)), 0.0, true)], map[("", IdOf(sha(a))) := a]), None)
    ensures var r := After(sha, After(sha, After(sha, s, Accept(b, "", 0.0)), Place), Commit);
            Committed(r.disk, sha(a)) && !HasFile(sha, r.disk, sha(a))
  {
    hide IdOf;
    var r := After(sha, After(sha, After(sha, s, Accept(b, "", 0.0)), Place), Commit);
    assert r.disk.files == map[("", IdOf(sha(b))) := b];
  }

  /** One whole request appended to a run. */
  lemma Served(sha: Digest, bodies: set<string>, steps: seq<Step>, s: System, body: string)
    requires Run(sha, bodies, steps) == Some(s) && s.inFlight.None? && body in bodies && !Committed(s.disk, sha(body))
    ensures Run(sha, bodies, steps + [Accept(body, "", 0.0), Place, Commit])
            == Some(After(sha, After(sha, After(sha, s, Accept(body, "", 0.0)), Place), Commit))
  {
    var x := Accept(body, "", 0.0);
    RunSnoc(sha, bodies, steps, s, x);
    var a := After(sha, s, x);
    RunSnoc(sha, bodies, steps + [x], a, Place);
    RunSnoc(sha, bodies, steps + [x] + [Place], After(sha, a, Place), Commit);
    assert steps + [x] + [Place] + [Commit] == steps + [x, Place, Commit];
  }

  lemma RunSnoc(sha: Digest, bodies: set<string>, steps: seq<Step>, s: System, step: Step)
    requires Run(sha, bodies, steps) == Some(s) && Enabled(bodies, s, step)
    ensures Run(sha, bodies, steps + [step]) == Some(After(sha, s, step))
  {
    assert (steps + [step])[..|steps|] == steps;
  }

  /**
    * Committed evidence has its file in every run over a set of bodies if and
    * only if no two of the bodies have different digests with one evidence id.
    */
  lemma CommittedHasFile(sha: Digest, bodies: set<string>)
    ensures (forall steps :: Run(sha, bodies, steps).Some? ==> Durable(sha, Run(sha, bodies, steps).value.disk)) <==>
              Unambiguous(sha, bodies)
  {
    hide IdOf, Durable, Committed;
    if Unambiguous(sha, bodies) {
      forall steps | Run(sha, bodies, steps).Some? ensures Durable(sha, Run(sha, bodies, steps).value.disk) {
        RunKeepsInv(sha, bodies, steps);
      }
    } else {
      var a, b :| a in bodies && b in bodies && IdOf(sha(a)) == IdOf(sha(b)) && sha(a) != sha(b);
      ClashRun(sha, bodies, a, b);
      NotDurable(sha, Run(sha, bodies, Clash(a, b)).value.disk, sha(a));
    }
  }

  lemma NotDurable(sha: Digest, d: Disk, h: string)
    requires Committed(d, h) && !HasFile(sha, d, h)
    ensures !Durable(sha, d)
  {
  }

  // ----- Recovery -----

  /** A request sent again, from lookup to commit. */
  function Resend(sha: Digest, s: System, body: string, dir: string, now: real): System
    requires s.inFlight.None?
  {
    var a := After(sha, s, Accept(body, dir, now));
    if a.inFlight.None? then a else After(sha, After(sha, a, Place), Commit)
  }

  /** After any crash, sending the request again ends with its one record committed and its file in place. */
  lemma ResendCommits(sha: Digest, bodies: set<string>, steps: seq<Step>, body: string, dir: string, now: real)
    requires Unambiguous(sha, bodies) && Run(sha, bodies, steps).Some? && body in bodies
    requires Run(sha, bodies, steps).value.inFlight.None?
    ensures var r := Resend(sha, Run(sha, bodies, steps).value, body, dir, now);
            && r.inFlight.None? && Committed(r.disk, sha(body)) && HasFile(sha, r.disk, sha(body))
            && forall h :: RowFor(r.disk, IdOf(sha(body)), h) ==> h == sha(body)
  {
    hide IdOf, HasFile, Durable;
    var s := Run(sha, bodies, steps).value;
    RunKeepsInv(sha, bodies, steps);
    var a := After(sha, s, Accept(body, dir, now));
    StepKeepsInv(sha, bodies, s, Accept(body, dir, now));
    if a.inFlight.Some? {
      StepKeepsInv(sha, bodies, a, Place);
      StepKeepsInv(sha, bodies, After(sha, a, Place), Commit);
    }
    var r := Resend(sha, s, body, dir, now);
    assert RecordOf(sha, bodies, r.disk, sha(body));
    DurableFile(sha, r.disk, sha(body));
    OneRow(sha, bodies, r, IdOf(sha(body)), sha(body));
  }

  lemma DurableFile(sha: Digest, d: Disk, h: string)
    requires Durable(sha, d) && Committed(d, h)
    ensures HasFile(sha, d, h)
  {
  }

  /** With unambiguous ids, an id names at most one record. */
  lemma OneRow(sha: Digest, bodies: set<string>, s: System, id: string, hash: string)
    requires Unambiguous(sha, bodies) && Inv(sha, bodies, s) && RowFor(s.disk, id, hash)
    ensures forall h :: RowFor(s.disk, id, h) ==> h == hash
  {
    forall h | RowFor(s.disk, id, h) ensures h == hash {
      assert RecordOf(sha, bodies, s.disk, h) && RecordOf(sha, bodies, s.disk, hash);
    }
  }

  datatype ReadError = NotReadable | NotCommitted | HashMismatch

  /** _read_claimed_payload, given the row the lookup returned. */
  function ReadClaimed(sha: Digest, d: Disk, dir: string, stem: string, row: Option<string>): Result<string, ReadError>
    requires row.Some? ==> RowFor(d, stem, row.value)
  {
    if row.None? then
      if (dir, stem) in d.files then Ok(d.files[(dir, stem)]) else Err(NotReadable)
    else if !d.records[row.value].committed then Err(NotCommitted)
    else if !Verified(sha, d, dir, stem, row.value) then Err(HashMismatch)
    else Ok(d.files[(dir, stem)])
  }

  /** A lookup by evidence id returns some row when there is one. */
  predicate LooksUp(d: Disk, stem: string, row: Option<string>) {
    if row.Some? then RowFor(d, stem, row.value) else forall h :: h in d.records ==> !RowFor(d, stem, h)
  }

  lemma {:induction false} RunKeepsRecords(sha: Digest, bodies: set<string>, steps: seq<Step>)
    requires Run(sha, bodies, steps).Some?
    ensures RecordsOk(sha, bodies, Run(sha, bodies, steps).value)
    decreases |steps|
  {
    hide RecordsOk, Enabled, After;
    if steps == [] {
      StartRecords(sha, bodies);
    } else {
      RunKeepsRecords(sha, bodies, steps[..|steps| - 1]);
      RecordsKept(sha, bodies, Run(sha, bodies, steps[..|steps| - 1]).value, steps[|steps| - 1]);
    }
  }

  lemma StartRecords(sha: Digest, bodies: set<string>)
    ensures RecordsOk(sha, bodies, START)
  {
  }

  /** An accepted body with this digest, which has this id. */
  predicate Accepted(sha: Digest, bodies: set<string>, hash: string, stem: string) {
    IdOf(hash) == stem && exists b :: b in bodies && sha(b) == hash
  }

  /**
    * What the worker gets for a managed id in any reachable state, whatever was
    * done to the files meanwhile: it reads exactly when the row it looked up is
    * committed and the file's bytes still have that row's digest, which is the
    * digest of an accepted body. With unambiguous ids there is only one such row.
    */
  lemma WorkerReadsCommitted(
    sha: Digest, bodies: set<string>, steps: seq<Step>, files: map<(string, string), string>, dir: string, stem: string,
    row: Option<string>)
    requires Run(sha, bodies, steps).Some?
    requires LooksUp(Run(sha, bodies, steps).value.disk, stem, row) && row.Some?
    ensures var d := Run(sha, bodies, steps).value.disk.(files := files); var r := ReadClaimed(sha, d, dir, stem, row);
            && (r.Ok? <==> Committed(d, row.value) && Verified(sha, d, dir, stem, row.value))
            && (r.Ok? ==> sha(r.value) == row.value) && Accepted(sha, bodies, row.value, stem)
            && (Unambiguous(sha, bodies) ==>
                  forall b :: b in bodies && IdOf(sha(b)) == stem ==> sha(b) == row.value)
  {
    hide IdOf;
    RunKeepsRecords(sha, bodies, steps);
    assert RecordOf(sha, bodies, Run(sha, bodies, steps).value.disk, row.value);
  }

  /** A file altered after it was committed is refused, not read. */
  lemma AlteredFileRefused(
    sha: Digest, bodies: set<string>, steps: seq<Step>, dir: string, stem: string, row: Option<string>, bytes: string)
    requires Run(sha, bodies, steps).Some?
    requires LooksUp(Run(sha, bodies, steps).value.disk, stem, row) && row.Some? && sha(bytes) != row.value
    ensures var d := Run(sha, bodies, steps).value.disk;
            ReadClaimed(sha, d.(files := d.files[(dir, stem) := bytes]), dir, stem, row).Err?
  {
    var d := Run(sha, bodies, steps).value.disk;
    WorkerReadsCommitted(sha, bodies, steps, d.files[(dir, stem) := bytes], dir, stem, row);
  }
}
