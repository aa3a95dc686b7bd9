/**
  * The pipeline job queue in its two forms: job_queue.py fences a worker's
  * calls by worker id, postgres_runtime_state.py by worker id and claim token.
  * Jobs are kept in job_id order and named by their rank; SQL transactions are
  * single steps; clock readings and uuid4 tokens are parameters.
  */
module JobQueue {
  import opened Basics

  datatype Engine = Sqlite | Postgres

  datatype Status = Pending | Running | Completed | Dead

  /** A pipeline_jobs row; the SQLite table has no lock_token column. */
  datatype Job = Job(
    path: string, status: Status, attempts: nat, availableAt: real, lockedUntil: Option<real>,
    worker: Option<string>, token: Option<string>, lastError: Option<string>)

  /** What a claim returns: the job and its row. */
  datatype Claimed = Claimed(job: nat, row: Job)

  datatype Verdict = LeaseLost | WentDead | WentPending

  datatype JobError = InvalidArgument | UnknownJob

  function NewJob(path: string, now: real): Job {
    Job(path, Pending, 0, now, None, None, None, None)
  }

  predicate Known(jobs: seq<Job>, path: string) {
    exists i :: 0 <= i < |jobs| && jobs[i].path == path
  }

  /** enqueue: one job per payload path. Only PostgreSQL refuses a blank path. */
  function Enqueue(engine: Engine, jobs: seq<Job>, path: string, now: real): Result<(seq<Job>, bool), JobError> {
    if engine == Postgres && Blank(path) then Err(InvalidArgument)
    else if Known(jobs, path) then Ok((jobs, false))
    else Ok((jobs + [NewJob(path, now)], true))
  }

  predicate Ready(j: Job, now: real) {
    (j.status == Pending && j.availableAt <= now) || (j.status == Running && j.lockedUntil.Some?
     && j.lockedUntil.value <= now)
  }

  /** The ready job with the least id. */
  function FirstReady(jobs: seq<Job>, now: real, from: nat): (r: Option<nat>)
    ensures r.Some? ==>
              from <= r.value < |jobs| && Ready(jobs[r.value], now) && forall i :: from <= i < r.value ==>
                  !Ready(jobs[i], now)
    ensures r.None? ==> forall i :: from <= i < |jobs| ==> !Ready(jobs[i], now)
    decreases |jobs| - from
  {
    if from >= |jobs| then None else if Ready(jobs[from], now) then Some(from) else FirstReady(jobs, now, from + 1)
  }

  function ClaimedJob(engine: Engine, j: Job, worker: string, token: string, until: real): Job {
    j.(status := Running, attempts := j.attempts + 1, lockedUntil := Some(until), worker := Some(worker),
       token := if engine == Postgres then Some(token) else j.token)
  }

  /** SQLite returns the row as it was, but for the new attempt; PostgreSQL the row as it now is. */
  function Returned(engine: Engine, before: Job, after: Job): Job {
    if engine == Sqlite then before.(attempts := before.attempts + 1) else after
  }

  function Claim(engine: Engine, jobs: seq<Job>, worker: string, lease: int, now: real, token: string)
    : Result<(seq<Job>, Option<Claimed>), JobError>
  {
    if Blank(worker) || lease <= 0 then Err(InvalidArgument)
    else
      var first := FirstReady(jobs, now, 0);
      if first.None? then Ok((jobs, None))
      else
        var j := ClaimedJob(engine, jobs[first.value], worker, token, now + lease as real);
        Ok((jobs[first.value := j], Some(Claimed(first.value, Returned(engine, jobs[first.value], j)))))
  }

  /** The job is running under this worker (and, in PostgreSQL, this claim) with its lease unexpired. */
  predicate Holds(engine: Engine, jobs: seq<Job>, job: nat, worker: string, token: string, now: real) {
    && job < |jobs| && jobs[job].status == Running && jobs[job].worker == Some(worker)
    && jobs[job].lockedUntil.Some? && jobs[job].lockedUntil.value > now
    && (engine == Postgres ==> jobs[job].token == Some(token))
  }

  function Renew(
    engine: Engine, jobs: seq<Job>, job: nat, worker: string, token: string, lease: int, now: real)
    : Result<(seq<Job>, bool), JobError> {
    if Blank(worker) || lease <= 0 || (engine == Postgres && token == "") then Err(InvalidArgument)
    else if Holds(engine, jobs, job, worker, token, now) then
      Ok((jobs[job := jobs[job].(lockedUntil := Some(now + lease as real))], true))
    else Ok((jobs, false))
  }

  /** PostgreSQL clears the worker columns of a completed row, SQLite keeps them. */
  function CompletedJob(engine: Engine, j: Job): Job {
    var done := j.(status := Completed, lockedUntil := None, lastError := None);
    if engine == Postgres then done.(worker := None, token := None) else done
  }

  function Complete(
    engine: Engine, jobs: seq<Job>, job: nat, worker: string, token: string, now: real)
    : Result<(seq<Job>, bool), JobError> {
    if engine == Sqlite && Blank(worker) then Err(InvalidArgument)
    else if Holds(engine, jobs, job, worker, token, now) then Ok((jobs[job := CompletedJob(engine, jobs[job])], true))
    else Ok((jobs, false))
  }

  function FailedJob(j: Job, dead: bool, delay: int, error: string, now: real): Job {
    j.(status := if dead then Status.Dead else Pending, availableAt := now + (if dead then 0.0 else delay as real),
       lockedUntil := None, worker := None, token := None, lastError := Some(Clip(error, 2000)))
  }

  /** fail: PostgreSQL calls an unknown job a lost lease and does not check the worker id's text. */
  function Fail(
    engine: Engine, jobs: seq<Job>, job: nat, worker: string, token: string, error: string, maxAttempts: int,
    delay: int, now: real)
    : Result<(seq<Job>, Verdict), JobError>
  {
    if (engine == Sqlite && Blank(worker)) || maxAttempts < 1 || delay < 0 then Err(InvalidArgument)
    else if engine == Sqlite && job >= |jobs| then Err(UnknownJob)
    else if !Holds(engine, jobs, job, worker, token, now) then Ok((jobs, LeaseLost))
    else
      var dead := jobs[job].attempts >= maxAttempts;
      Ok((jobs[job := FailedJob(jobs[job], dead, delay, error, now)], if dead then WentDead else WentPending))
  }

  // ----- The two queue objects -----

  class SQLiteJobQueue {
    var jobs: seq<Job>

    constructor ()
      ensures jobs == []
    {
      jobs := [];
    }

    method EnqueueJob(path: string, now: real) returns (inserted: bool)
      modifies this
      ensures Enqueue(Sqlite, old(jobs), path, now) == Ok((jobs, inserted))
    {
      inserted := !Known(jobs, path);
      if inserted { jobs := jobs + [NewJob(path, now)]; }
    }

    method ClaimJob(worker: string, lease: int, now: real) returns (r: Result<Option<Claimed>, JobError>)
      modifies this
      ensures var spec := Claim(Sqlite, old(jobs), worker, lease, now, "");
              r == (if spec.Ok? then Ok(spec.value.1) else Err(spec.error)) && jobs == if spec.Ok? then spec.value.0
              else old(jobs)
    {
      if Blank(worker) || lease <= 0 { return Err(InvalidArgument); }
      var first := FirstReady(jobs, now, 0);
      if first.None? { return Ok(None); }
      var i := first.value;
      var row := jobs[i].(attempts := jobs[i].attempts + 1);
      jobs := jobs[i := row.(status := Running, lockedUntil := Some(now + lease as real), worker := Some(worker))];
      r := Ok(Some(Claimed(i, row)));
    }

    method RenewLease(job: nat, worker: string, lease: int, now: real) returns (r: Result<bool, JobError>)
      modifies this
      ensures var spec := Renew(Sqlite, old(jobs), job, worker, "", lease, now);
              r == (if spec.Ok? then Ok(spec.value.1) else Err(spec.error)) && jobs == if spec.Ok? then spec.value.0
              else old(jobs)
    {
      if Blank(worker) || lease <= 0 { return Err(InvalidArgument); }
      if !Holds(Sqlite, jobs, job, worker, "", now) { return Ok(false); }
      jobs := jobs[job := jobs[job].(lockedUntil := Some(now + lease as real))];
      r := Ok(true);
    }

    method CompleteJob(job: nat, worker: string, now: real) returns (r: Result<bool, JobError>)
      modifies this
      ensures var spec := Complete(Sqlite, old(jobs), job, worker, "", now);
              r == (if spec.Ok? then Ok(spec.value.1) else Err(spec.error)) && jobs == if spec.Ok? then spec.value.0
              else old(jobs)
    {
      if Blank(worker) { return Err(InvalidArgument); }
      if !Holds(Sqlite, jobs, job, worker, "", now) { return Ok(false); }
      jobs := jobs[job := jobs[job].(status := Completed, lockedUntil := None, lastError := None)];
      r := Ok(true);
    }

    method FailJob(job: nat, worker: string, error: string, maxAttempts: int, delay: int, now: real)
      returns (r: Result<Verdict, JobError>)
      modifies this
      ensures var spec := Fail(Sqlite, old(jobs), job, worker, "", error, maxAttempts, delay, now);
              r == (if spec.Ok? then Ok(spec.value.1) else Err(spec.error)) && jobs == if spec.Ok? then spec.value.0
              else old(jobs)
    {
      if Blank(worker) || maxAttempts < 1 || delay < 0 { return Err(InvalidArgument); }
      if job >= |jobs| { return Err(UnknownJob); }
      if !Holds(Sqlite, jobs, job, worker, "", now) { return Ok(LeaseLost); }
      var dead := jobs[job].attempts >= maxAttempts;
      jobs := jobs[job := FailedJob(jobs[job], dead, delay, error, now)];
      r := Ok(if dead then WentDead else WentPending);
    }
  }

  class PostgresJobQueue {
    var jobs: seq<Job>

    constructor ()
      ensures jobs == []
    {
      jobs := [];
    }

    method EnqueueJob(path: string, now: real) returns (r: Result<bool, JobError>)
      modifies this
      ensures var spec := Enqueue(Postgres, old(jobs), path, now);
              r == (if spec.Ok? then Ok(spec.value.1) else Err(spec.error)) && jobs == if spec.Ok? then spec.value.0
              else old(jobs)
    {
      if Blank(path) { return Err(InvalidArgument); }
      var inserted := !Known(jobs, path);
      if inserted { jobs := jobs + [NewJob(path, now)]; }
      r := Ok(inserted);
    }

    method ClaimJob(worker: string, lease: int, now: real, token: string) returns (r: Result<Option<Claimed>, JobError>)
      modifies this
      ensures var spec := Claim(Postgres, old(jobs), worker, lease, now, token);
              r == (if spec.Ok? then Ok(spec.value.1) else Err(spec.error)) && jobs == if spec.Ok? then spec.value.0
              else old(jobs)
    {
      if Blank(worker) || lease <= 0 { return Err(InvalidArgument); }
      var first := FirstReady(jobs, now, 0);
      if first.None? { return Ok(None); }
      var i := first.value;
      var j := jobs[i].(status := Running, attempts := jobs[i].attempts + 1, lockedUntil := Some(now + lease as real),
                        worker := Some(worker), token := Some(token));
      jobs := jobs[i := j];
      r := Ok(Some(Claimed(i, j)));
    }

    method RenewLease(job: nat, worker: string, token: string, lease: int, now: real)
      returns (r: Result<bool, JobError>)
      modifies this
      ensures var spec := Renew(Postgres, old(jobs), job, worker, token, lease, now);
              r == (if spec.Ok? then Ok(spec.value.1) else Err(spec.error)) && jobs == if spec.Ok? then spec.value.0
              else old(jobs)
    {
      if Blank(worker) || token == "" || lease <= 0 { return Err(InvalidArgument); }
      if !Holds(Postgres, jobs, job, worker, token, now) { return Ok(false); }
      jobs := jobs[job := jobs[job].(lockedUntil := Some(now + lease as real))];
      r := Ok(true);
    }

    method CompleteJob(job: nat, worker: string, token: string, now: real) returns (completed: bool)
      modifies this
      ensures Complete(Postgres, old(jobs), job, worker, token, now) == Ok((jobs, completed))
    {
      completed := Holds(Postgres, jobs, job, worker, token, now);
      if completed {
        var done := jobs[job].(status := Completed, lockedUntil := None, worker := None, token := None,
                               lastError := None);
        jobs := jobs[job := done];
      }
    }

    method FailJob(job: nat, worker: string, token: string, error: string, maxAttempts: int, delay: int, now: real)
      returns (r: Result<Verdict, JobError>)
      modifies this
      ensures var spec := Fail(Postgres, old(jobs), job, worker, token, error, maxAttempts, delay, now);
              r == (if spec.Ok? then Ok(spec.value.1) else Err(spec.error)) && jobs == if spec.Ok? then spec.value.0
              else old(jobs)
    {
      if maxAttempts < 1 || delay < 0 { return Err(InvalidArgument); }
      if !Holds(Postgres, jobs, job, worker, token, now) { return Ok(LeaseLost); }
      var dead := jobs[job].attempts >= maxAttempts;
      jobs := jobs[job := FailedJob(jobs[job], dead, delay, error, now)];
      r := Ok(if dead then WentDead else WentPending);
    }
  }
}
