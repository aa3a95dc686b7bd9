/**
  * Results about the two job queues over whole runs: finished jobs stay
  * finished, each is completed at most once, and the queue fenced by worker id
  * and the one fenced by token answer alike as long as no worker acts on an
  * older claim of a job it has itself claimed again.
  */
module JobLease {
  import opened Basics
  import opened JobQueue

  datatype Call =
    | Enqueued(path: string, now: real)
    | Claims(worker: string, lease: int, now: real, token: string)
    | Renews(job: nat, worker: string, token: string, lease: int, now: real)
    | Completes(job: nat, worker: string, token: string, now: real)
    | Fails(job: nat, worker: string, token: string, error: string, maxAttempts: int, delay: int, now: real)

  /** What both engines report alike of a claimed row. */
  datatype Seen = Seen(job: nat, path: string, attempts: nat)

  datatype Answer = Raised(error: JobError) | Flag(b: bool) | Row(claimed: Option<Seen>) | Told(verdict: Verdict)

  function Shared(c: Option<Claimed>): Option<Seen> {
    if c.Some? then Some(Seen(c.value.job, c.value.row.path, c.value.row.attempts)) else None
  }

  function Settled<T>(jobs: seq<Job>, r: Result<(seq<Job>, T), JobError>, f: T -> Answer): (seq<Job>, Answer) {
    if r.Ok? then (r.value.0, f(r.value.1)) else (jobs, Raised(r.error))
  }

  /** One call on one engine: the table afterwards and what the caller sees. */
  function Perform(engine: Engine, jobs: seq<Job>, call: Call): (seq<Job>, Answer) {
    match call
    case Enqueued(path, now) => Settled(jobs, Enqueue(engine, jobs, path, now), b => Flag(b))
    case Claims(worker, lease, now, token) =>
      Settled(jobs, Claim(engine, jobs, worker, lease, now, token), c => Row(Shared(c)))
    case Renews(job, worker, token, lease, now) =>
      Settled(jobs, Renew(engine, jobs, job, worker, token, lease, now), b => Flag(b))
    case Completes(job, worker, token, now) =>
      Settled(jobs, Complete(engine, jobs, job, worker, token, now), b => Flag(b))
    case Fails(job, worker, token, error, maxAttempts, delay, now) =>
      Settled(jobs, Fail(engine, jobs, job, worker, token, error, maxAttempts, delay, now), v => Told(v))
  }

  function Jobs(engine: Engine, calls: seq<Call>): seq<Job> {
    if calls == [] then [] else Perform(engine, Jobs(engine, calls[..|calls| - 1]), calls[|calls| - 1]).0
  }

  // ----- Finished is final -----

  predicate Finished(j: Job) {
    j.status == Completed || j.status == Dead
  }

  /** A call keeps every job's place and path, and never touches a finished job. */
  lemma PerformKeepsFinished(engine: Engine, jobs: seq<Job>, call: Call, i: nat)
    requires i < |jobs|
    ensures var r := Perform(engine, jobs, call).0;
            i < |r| && r[i].path == jobs[i].path && (Finished(jobs[i]) ==> r[i] == jobs[i])
  {
  }

  /** In any continuation of any run, by any callers, a completed or dead job stays exactly as it is. */
  lemma {:induction false} FinishedIsFinal(engine: Engine, calls: seq<Call>, more: seq<Call>, i: nat)
    requires i < |Jobs(engine, calls)| && Finished(Jobs(engine, calls)[i])
    ensures i < |Jobs(engine, calls + more)| && Jobs(engine, calls + more)[i] == Jobs(engine, calls)[i]
    decreases |more|
  {
    hide Finished, Perform;
    if more == [] {
      assert calls + more == calls;
    } else {
      var less, all := more[..|more| - 1], calls + more;
      FinishedIsFinal(engine, calls, less, i);
      assert all[..|all| - 1] == calls + less;
      PerformKeepsFinished(engine, Jobs(engine, calls + less), more[|more| - 1], i);
    }
  }

  /** The job may be claimed from the given moment on, and not before. */
  ghost predicate ReadyFrom(j: Job, start: real) {
    forall now :: Ready(j, now) <==> now >= start
  }

  /**
    * What a claim and what follows it mean for the job's next claim: a claimed
    * or renewed job is ready again exactly when its lease ends, a failed one
    * exactly after its delay, and a completed or dead one never.
    */
  lemma NextClaim(engine: Engine, jobs: seq<Job>, call: Call, i: nat)
    requires i < |jobs| && Perform(engine, jobs, call).0[i] != jobs[i]
    requires i < |Perform(engine, jobs, call).0|
    ensures var j := Perform(engine, jobs, call).0[i];
            match call
            case Claims(worker, lease, now, token) =>
              j.attempts == jobs[i].attempts + 1 && j.worker == Some(worker) && ReadyFrom(j, now + lease as real)
            case Renews(_, _, _, lease, now) => j.attempts == jobs[i].attempts && ReadyFrom(j, now + lease as real)
            case Completes(_, _, _, now) => forall later :: !Ready(j, later)
            case Fails(_, _, _, _, maxAttempts, delay, now) =>
              if jobs[i].attempts >= maxAttempts then forall later :: !Ready(j, later)
              else ReadyFrom(j, now + delay as real)
            case Enqueued(_, _) => false
  {
  }

  predicate Completion(engine: Engine, calls: seq<Call>, i: nat, n: nat)
    requires n < |calls|
  {
    calls[n].Completes? && calls[n].job == i && Perform(engine, Jobs(engine, calls[..n]), calls[n]).1 == Flag(true)
  }

  /** In every run at most one complete call succeeds for a job. */
  lemma CompletedAtMostOnce(engine: Engine, calls: seq<Call>, i: nat, m: nat, n: nat)
    requires m < |calls| && n < |calls| && Completion(engine, calls, i, m) && Completion(engine, calls, i, n)
    ensures m == n
  {
    if m < n {
      CompletionLasts(engine, calls, i, m, n);
    } else if n < m {
      CompletionLasts(engine, calls, i, n, m);
    }
  }

  lemma CompletionLasts(engine: Engine, calls: seq<Call>, i: nat, m: nat, n: nat)
    requires m < n < |calls| && Completion(engine, calls, i, m)
    ensures !Completion(engine, calls, i, n)
  {
    var done := calls[..m + 1];
    assert done[..|done| - 1] == calls[..m];
    assert calls[..n] == done + calls[m + 1..n];
    FinishedIsFinal(engine, done, calls[m + 1..n], i);
  }

  // ----- Simulation -----

  /** The two tables' rows agree on everything a caller can observe. */
  predicate Alike(s: Job, p: Job) {
    && s.path == p.path && s.status == p.status && s.attempts == p.attempts && s.availableAt == p.availableAt
    && s.lockedUntil == p.lockedUntil && s.lastError == p.lastError
    && (s.status == Running ==> s.worker == p.worker && s.worker.Some? && p.token.Some?)
  }

  predicate AllAlike(lite: seq<Job>, pg: seq<Job>) {
    |lite| == |pg| && forall i :: 0 <= i < |lite| ==> Alike(lite[i], pg[i])
  }

  predicate Acts(call: Call) {
    call.Renews? || call.Completes? || call.Fails?
  }

  /** The caller's worker holds the job under a lease, but by a later claim than the one it acts on. */
  predicate ActsOnOlderClaim(pg: seq<Job>, call: Call)
    requires Acts(call)
  {
    && call.job < |pg| && pg[call.job].status == Running && pg[call.job].worker == Some(call.worker)
    && pg[call.job].lockedUntil.Some? && pg[call.job].lockedUntil.value > call.now
    && pg[call.job].token != Some(call.token)
  }

  /** The arguments both engines check alike. */
  predicate PlainArguments(jobs: seq<Job>, call: Call) {
    match call
    case Enqueued(path, _) => !Blank(path)
    case Claims(_, _, _, _) => true
    case Renews(_, worker, token, lease, _) => !Blank(worker) && token != "" && lease > 0
    case Completes(_, worker, _, _) => !Blank(worker)
    case Fails(job, worker, _, _, maxAttempts, delay, _) =>
      !Blank(worker) && maxAttempts >= 1 && delay >= 0 && job < |jobs|
  }

  lemma KnownAlike(lite: seq<Job>, pg: seq<Job>, path: string)
    requires AllAlike(lite, pg)
    ensures Known(lite, path) <==> Known(pg, path)
  {
    if Known(lite, path) {
      var i :| 0 <= i < |lite| && lite[i].path == path;
      assert Alike(lite[i], pg[i]);
    }
    if Known(pg, path) {
      var i :| 0 <= i < |pg| && pg[i].path == path;
      assert Alike(lite[i], pg[i]);
    }
  }

  lemma {:induction false} FirstAlike(lite: seq<Job>, pg: seq<Job>, now: real, from: nat)
    requires AllAlike(lite, pg)
    ensures FirstReady(lite, now, from) == FirstReady(pg, now, from)
    decreases |lite| - from
  {
    if from < |lite| {
      assert Alike(lite[from], pg[from]);
      FirstAlike(lite, pg, now, from + 1);
    }
  }

  /** Enqueue and claim answer alike on both engines and keep the tables alike. */
  lemma OpensAlike(lite: seq<Job>, pg: seq<Job>, call: Call)
    requires AllAlike(lite, pg) && !Acts(call) && PlainArguments(pg, call)
    ensures var a, b := Perform(Sqlite, lite, call), Perform(Postgres, pg, call);
            a.1 == b.1 && AllAlike(a.0, b.0)
  {
    if call.Enqueued? {
      KnownAlike(lite, pg, call.path);
    } else {
      FirstAlike(lite, pg, call.now, 0);
      var first := FirstReady(lite, call.now, 0);
      assert first.Some? ==> Alike(lite[first.value], pg[first.value]);
    }
  }

  /**
    * A renew, complete or fail answers alike and keeps the tables alike if and
    * only if the worker does not act on an older claim of a job it now holds by
    * a later one.
    */
  lemma FencesAgree(lite: seq<Job>, pg: seq<Job>, call: Call)
    requires AllAlike(lite, pg) && Acts(call) && PlainArguments(pg, call)
    ensures var a, b := Perform(Sqlite, lite, call), Perform(Postgres, pg, call);
            (a.1 == b.1 && AllAlike(a.0, b.0)) <==> !ActsOnOlderClaim(pg, call)
  {
    if call.job < |pg| { assert Alike(lite[call.job], pg[call.job]); }
    assert Holds(Postgres, pg, call.job, call.worker, call.token, call.now) ==>
             Holds(Sqlite, lite, call.job, call.worker, call.token, call.now);
    assert ActsOnOlderClaim(pg, call) <==>
             Holds(Sqlite, lite, call.job, call.worker, call.token, call.now)
               && !Holds(Postgres, pg, call.job, call.worker, call.token, call.now);
  }

  // ----- Whole runs of both queues side by side -----

  /** A claim that was handed out. */
  datatype Ticket = Ticket(job: nat, worker: string, token: string)

  datatype Pair = Pair(lite: seq<Job>, pg: seq<Job>, tickets: seq<Ticket>)

  const START := Pair([], [], [])

  /** The worker's most recent claim of this job. */
  predicate Latest(tickets: seq<Ticket>, k: nat) {
    k < |tickets| && forall m :: k < m < |tickets| ==>
        tickets[m].job != tickets[k].job || tickets[m].worker != tickets[k].worker
  }

  ghost predicate UsesLatest(p: Pair, call: Call) {
    Acts(call) ==> exists k: nat :: Latest(p.tickets, k) && p.tickets[k] == Ticket(call.job, call.worker, call.token)
  }

  /** Tokens are fresh, arguments plain, and workers act on their latest claims only. */
  ghost predicate Disciplined(p: Pair, call: Call) {
    && PlainArguments(p.pg, call) && UsesLatest(p, call)
    && (call.Claims? ==> call.token != "" && forall k :: 0 <= k < |p.tickets| ==> p.tickets[k].token != call.token)
  }

  function Issued(tickets: seq<Ticket>, call: Call, answer: Answer): seq<Ticket> {
    if call.Claims? && answer.Row? && answer.claimed.Some? then
      tickets + [Ticket(answer.claimed.value.job, call.worker, call.token)] else tickets
  }

  function Both(p: Pair, call: Call): Pair {
    var a, b := Perform(Sqlite, p.lite, call), Perform(Postgres, p.pg, call);
    Pair(a.0, b.0, Issued(p.tickets, call, b.1))
  }

  ghost function RunBoth(calls: seq<Call>): Option<Pair>
    decreases |calls|
  {
    if calls == [] then Some(START)
    else
      var before := RunBoth(calls[..|calls| - 1]);
      if before.Some? && Disciplined(before.value, calls[|calls| - 1]) then Some(Both(before.value, calls[|calls| - 1]))
      else None
  }

  /** A running job carries the token of its worker's latest claim of it. */
  ghost predicate HeldByLatest(p: Pair, i: nat)
    requires i < |p.pg|
  {
    p.pg[i].status == Running && p.pg[i].worker.Some? && p.pg[i].token.Some? ==>
      exists k: nat :: Latest(p.tickets, k) && p.tickets[k] == Ticket(i, p.pg[i].worker.value, p.pg[i].token.value)
  }

  ghost predicate Inv(p: Pair) {
    AllAlike(p.lite, p.pg) && forall i :: 0 <= i < |p.pg| ==> HeldByLatest(p, i)
  }

  /** Two latest claims of one worker on one job are the same claim. */
  lemma LatestUnique(tickets: seq<Ticket>, j: nat, k: nat)
    requires Latest(tickets, j) && Latest(tickets, k) && tickets[j].job == tickets[k].job
    requires tickets[j].worker == tickets[k].worker
    ensures j == k
  {
  }

  lemma DisciplineHolds(p: Pair, call: Call)
    requires Inv(p) && Disciplined(p, call) && Acts(call)
    ensures !ActsOnOlderClaim(p.pg, call)
  {
    if call.job < |p.pg| && p.pg[call.job].status == Running && p.pg[call.job].worker == Some(call.worker) {
      assert HeldByLatest(p, call.job) && Alike(p.lite[call.job], p.pg[call.job]);
      var j: nat :| Latest(p.tickets, j) && p.tickets[j] == Ticket(call.job, call.worker, p.pg[call.job].token.value);
      var k: nat :| Latest(p.tickets, k) && p.tickets[k] == Ticket(call.job, call.worker, call.token);
      LatestUnique(p.tickets, j, k);
    }
  }

  lemma LatestAfterIssue(tickets: seq<Ticket>, t: Ticket, k: nat)
    requires Latest(tickets, k) && (tickets[k].job != t.job || tickets[k].worker != t.worker)
    ensures Latest(tickets + [t], k)
  {
  }

  lemma BothKeepsInv(p: Pair, call: Call)
    requires Inv(p) && Disciplined(p, call)
    ensures Inv(Both(p, call))
    ensures Perform(Sqlite, p.lite, call).1 == Perform(Postgres, p.pg, call).1
  {
    hide Perform, AllAlike, Alike, PlainArguments;
    var r := Both(p, call);
    if Acts(call) {
      DisciplineHolds(p, call);
      FencesAgree(p.lite, p.pg, call);
    } else {
      OpensAlike(p.lite, p.pg, call);
    }
    forall i | 0 <= i < |r.pg| ensures HeldByLatest(r, i) { HeldKept(p, call, i); }
  }

  /** A claim changes the claimed row only, and puts the caller's token on it. */
  lemma ClaimTouchesOne(engine: Engine, jobs: seq<Job>, call: Call)
    requires call.Claims? && Perform(engine, jobs, call).1.Row? && Perform(engine, jobs, call).1.claimed.Some?
    ensures var r := Perform(engine, jobs, call); var i := r.1.claimed.value.job;
            && i < |jobs| && |r.0| == |jobs| && (forall k :: 0 <= k < |jobs| && k != i ==> r.0[k] == jobs[k])
            && r.0[i].worker == Some(call.worker) && (engine == Postgres ==> r.0[i].token == Some(call.token))
  {
  }

  lemma HeldKept(p: Pair, call: Call, i: nat)
    requires Inv(p) && i < |Both(p, call).pg|
    ensures HeldByLatest(Both(p, call), i)
  {
    var r := Both(p, call);
    var answer := Perform(Postgres, p.pg, call).1;
    assert i < |p.pg| ==> HeldByLatest(p, i);
    if call.Claims? && answer.Row? && answer.claimed.Some? {
      var t := Ticket(answer.claimed.value.job, call.worker, call.token);
      ClaimTouchesOne(Postgres, p.pg, call);
      if i == t.job {
        NewestIsLatest(p.tickets, t);
      } else if r.pg[i].status == Running && r.pg[i].worker.Some? && r.pg[i].token.Some? {
        var k: nat :| Latest(p.tickets, k) && p.tickets[k] == Ticket(i, p.pg[i].worker.value, p.pg[i].token.value);
        LatestAfterIssue(p.tickets, t, k);
        assert r.tickets[k] == p.tickets[k];
      }
    }
  }

  lemma NewestIsLatest(tickets: seq<Ticket>, t: Ticket)
    ensures Latest(tickets + [t], |tickets|) && (tickets + [t])[|tickets|] == t
  {
  }

  lemma {:induction false} RunKeepsInv(calls: seq<Call>)
    requires RunBoth(calls).Some?
    ensures Inv(RunBoth(calls).value)
    decreases |calls|
  {
    hide Inv, Both, Disciplined;
    if calls == [] {
      StartInv();
    } else {
      RunKeepsInv(calls[..|calls| - 1]);
      BothKeepsInv(RunBoth(calls[..|calls| - 1]).value, calls[|calls| - 1]);
    }
  }

  lemma StartInv()
    ensures Inv(START)
  {
  }

  /**
    * In every run in which workers act on their latest claims only, the two
    * queues give the same answer to every call and end with tables that agree
    * on status, attempts, availability, lease and error.
    */
  lemma {:induction false} QueuesSimulateEachOther(calls: seq<Call>, n: nat)
    requires RunBoth(calls).Some? && n < |calls|
    ensures AllAlike(RunBoth(calls).value.lite, RunBoth(calls).value.pg)
    ensures Perform(Sqlite, Jobs(Sqlite, calls[..n]), calls[n]).1
            == Perform(Postgres, Jobs(Postgres, calls[..n]), calls[n]).1
    decreases |calls|
  {
    hide Inv, Disciplined, AllAlike, Perform;
    RunKeepsInv(calls);
    InvAlike(RunBoth(calls).value);
    var before := calls[..|calls| - 1];
    RunKeepsInv(before);
    if n == |calls| - 1 {
      RunTables(before);
      BothKeepsInv(RunBoth(before).value, calls[n]);
    } else {
      QueuesSimulateEachOther(before, n);
      assert before[..n] == calls[..n];
    }
  }

  lemma InvAlike(p: Pair)
    requires Inv(p)
    ensures AllAlike(p.lite, p.pg)
  {
  }

  lemma {:induction false} RunTables(calls: seq<Call>)
    requires RunBoth(calls).Some?
    ensures RunBoth(calls).value.lite == Jobs(Sqlite, calls) && RunBoth(calls).value.pg == Jobs(Postgres, calls)
    decreases |calls|
  {
    hide Perform, Disciplined;
    if calls != [] { RunTables(calls[..|calls| - 1]); }
  }

  // ----- A worker that acts on an older claim -----

  /** Claimed, expired, claimed again by the same worker; then the first claim completes the job. */
  const REVENANT: seq<Call> :=
    [Enqueued("job", 0.0), Claims("w", 10, 0.0, "first"), Claims("w", 10, 20.0, "second"),
     Completes(0, "w", "first", 25.0)]

  /** SQLite completes the job for the older claim, PostgreSQL refuses it. */
  lemma OlderClaimWitness()
    ensures Perform(Sqlite, Jobs(Sqlite, REVENANT[..3]), REVENANT[3]).1 == Flag(true)
    ensures Perform(Postgres, Jobs(Postgres, REVENANT[..3]), REVENANT[3]).1 == Flag(false)
    ensures ActsOnOlderClaim(Jobs(Postgres, REVENANT[..3]), REVENANT[3])
  {
    FirstThree(Sqlite);
    FirstThree(Postgres);
    assert !IsSpace("w"[0]);
  }

  lemma FirstTwo(engine: Engine)
    ensures var token := if engine == Postgres then Some("first") else None;
            Jobs(engine, REVENANT[..2]) == [Job("job", Running, 1, 0.0, Some(10.0), Some("w"), token, None)]
  {
    var c := REVENANT[..2];
    assert c[..1][..0] == [] && c[..1] == REVENANT[..1];
    assert !IsSpace("w"[0]) && !IsSpace("job"[0]);
    assert Jobs(engine, c[..1]) == [NewJob("job", 0.0)];
  }

  lemma FirstThree(engine: Engine)
    ensures var token := if engine == Postgres then Some("second") else None;
            Jobs(engine, REVENANT[..3]) == [Job("job", Running, 2, 0.0, Some(30.0), Some("w"), token, None)]
  {
    var c := REVENANT[..3];
    FirstTwo(engine);
    assert c[..2] == REVENANT[..2] && c[2] == REVENANT[2];
    assert !IsSpace("w"[0]);
  }
}
