/**
  * pipeline_worker.py's _process_claimed_job: a renewal proves that the job is
  * still owned, the heartbeat keeps it so while the evidence is read and the
  * pipeline runs, and the job is then settled. What the reading and the
  * pipeline come to is an input.
  */
module PipelineWorker {
  import opened Basics
  import opened JobQueue
  import opened JobLease
  import opened Heartbeat

  /** WorkerRunOptions, as far as the queue is concerned. */
  datatype Options = Options(lease: int, maxAttempts: int, delay: int)

  /** _validate_worker_run_options */
  predicate ValidOptions(o: Options) {
    o.lease >= MIN_WORKER_LEASE_SECONDS && o.maxAttempts >= 1 && o.delay >= 0
  }

  const STORAGE_ERROR := "evidence storage is temporarily unavailable"

  /** Done, storage unavailable while reading, evidence refused while reading, or an exception in the pipeline. */
  datatype Work = Done | Unavailable | Refused(error: string) | Raised(error: string)

  datatype Outcome = Lost | Success | Failure(verdict: Verdict)

  /**
    * What happens around one claimed job: the others' calls before the first
    * renewal, when that reads the clock, the heartbeat's beats, the others'
    * calls after the last of them, and when the settling call reads the clock.
    */
  datatype Shift = Shift(before: seq<Call>, at: real, beats: seq<Beat>, after: seq<Call>, now: real)

  /** The job is settled before the last renewal's lease runs out. */
  predicate InTime(worker: string, lease: int, s: Shift) {
    && Beats(worker, s.at, lease, s.beats) && Meanwhile(worker, s.after, s.now)
    && s.now < LastSample(s.at, lease, s.beats) + lease as real
  }

  /** The row a settling call leaves, and what the worker reports. */
  function Ending(o: Options, work: Work, j: Job, now: real): (Job, Outcome) {
    match work
    case Done => (CompletedJob(Sqlite, j), Success)
    case Unavailable => Failing(j, o.maxAttempts, o.delay, STORAGE_ERROR, now)
    case Refused(error) => Failing(j, 1, 0, error, now)
    case Raised(error) => Failing(j, o.maxAttempts, o.delay, error, now)
  }

  function Failing(j: Job, maxAttempts: int, delay: int, error: string, now: real): (Job, Outcome) {
    var dead := j.attempts >= maxAttempts;
    (FailedJob(j, dead, delay, error, now), Failure(if dead then WentDead else WentPending))
  }

  /** The row with its lease running to the given time. */
  function Leased(j: Job, until: real): Job {
    j.(lockedUntil := Some(until))
  }

  /** The heartbeat changes nothing of the row but the end of its lease. */
  lemma {:induction false} BeatsKeepRow(
    jobs: seq<Job>, job: nat, worker: string, lease: int, at: real, beats: seq<Beat>)
    requires !Blank(worker) && lease >= MIN_WORKER_LEASE_SECONDS
    requires Owned(jobs, job, worker, at + lease as real) && Beats(worker, at, lease, beats)
    ensures var left := AfterBeats(jobs, job, worker, lease, at, beats);
            job < |left| && left[job] == Leased(jobs[job], LastSample(at, lease, beats) + lease as real)
    decreases |beats|
  {
    hide AfterOthers, Meanwhile;
    if beats != [] {
      TimeoutFits(lease);
      BeatRenews(jobs, job, worker, lease, at, beats[0]);
      var now := Sample(at, lease, beats[0]);
      OthersLeaveJob(jobs, beats[0].others, job, worker, at + lease as real, now);
      var next := Renew(Sqlite, AfterOthers(jobs, beats[0].others), job, worker, "", lease, now).value.0;
      BeatsKeepRow(next, job, worker, lease, now, beats[1..]);
    }
  }

  /** The table when the job is about to be settled: the others' calls and the renewals, in turn. */
  function Kept(start: seq<Job>, job: nat, worker: string, lease: int, s: Shift): seq<Job>
    requires job < |start|
  {
    var renewed := start[job := Leased(start[job], s.at + lease as real)];
    AfterOthers(AfterBeats(renewed, job, worker, lease, s.at, s.beats), s.after)
  }

  /** After the heartbeat and whatever others did, the job is still this worker's, its row as it was claimed. */
  lemma KeptRow(start: seq<Job>, job: nat, worker: string, lease: int, s: Shift)
    requires !Blank(worker) && lease >= MIN_WORKER_LEASE_SECONDS && InTime(worker, lease, s)
    requires Holds(Sqlite, start, job, worker, "", s.at)
    ensures var left, until := Kept(start, job, worker, lease, s), LastSample(s.at, lease, s.beats) + lease as real;
            && Owned(left, job, worker, until) && left[job] == Leased(start[job], until)
            && Holds(Sqlite, left, job, worker, "", s.now)
  {
    hide AfterOthers, AfterBeats, Beats, LastSample;
    var renewed := start[job := Leased(start[job], s.at + lease as real)];
    BeatsKeepRow(renewed, job, worker, lease, s.at, s.beats);
    OthersLeaveJob(AfterBeats(renewed, job, worker, lease, s.at, s.beats), s.after, job, worker,
                   LastSample(s.at, lease, s.beats) + lease as real, s.now);
  }

  /** A lease that has not run out when the first renewal reads the clock is still held then. */
  lemma FreshClaimHolds(
    jobs: seq<Job>, worker: string, lease: int, claimedAt: real, job: nat, before: seq<Call>, at: real)
    requires var r := Claim(Sqlite, jobs, worker, lease, claimedAt, "");
             r.Ok? && r.value.1.Some? && r.value.1.value.job == job
    requires Meanwhile(worker, before, at) && at < claimedAt + lease as real
    ensures var claimed := Claim(Sqlite, jobs, worker, lease, claimedAt, "").value.0;
            var start := AfterOthers(claimed, before);
            Holds(Sqlite, start, job, worker, "", at) && start[job] == claimed[job]
  {
    hide AfterOthers;
    var claimed := Claim(Sqlite, jobs, worker, lease, claimedAt, "").value.0;
    OthersLeaveJob(claimed, before, job, worker, claimedAt + lease as real, at);
  }

  /**
    * A worker that still owns the job at its first renewal settles it: done
    * work completes it, failed work sends it back or kills it, and no other
    * worker has touched its row. One that does not own it changes nothing.
    */
  method ProcessClaimedJob(queue: SQLiteJobQueue, job: nat, worker: string, o: Options, s: Shift, work: Work)
    returns (outcome: Outcome)
    requires !Blank(worker) && ValidOptions(o) && InTime(worker, o.lease, s)
    modifies queue
    ensures var start := AfterOthers(old(queue.jobs), s.before);
            if Holds(Sqlite, start, job, worker, "", s.at) then
              var left := Kept(start, job, worker, o.lease, s);
              var ending := Ending(o, work, Leased(start[job], LastSample(s.at, o.lease, s.beats) + o.lease as real),
                                   s.now);
              job < |left| && queue.jobs == left[job := ending.0] && outcome == ending.1
            else queue.jobs == start && outcome == Lost
  {
    hide AfterOthers, AfterBeats, Beats, LastSample, Interval;
    queue.jobs := AfterOthers(queue.jobs, s.before);
    ghost var start := queue.jobs;
    var owned := queue.RenewLease(job, worker, o.lease, s.at);
    if owned != Ok(true) { return Lost; }
    KeptRow(start, job, worker, o.lease, s);
    var leaseLost := RenewLeaseUntilStopped(queue, job, worker, o.lease, s.at, s.beats);
    queue.jobs := AfterOthers(queue.jobs, s.after);
    assert queue.jobs == Kept(start, job, worker, o.lease, s);
    match work
    case Done =>
      var completed := Ok(false);
      if !leaseLost { completed := queue.CompleteJob(job, worker, s.now); }
      outcome := if completed == Ok(true) then Success else Lost;
    case Unavailable =>
      outcome := ReportFailure(queue, job, worker, STORAGE_ERROR, o.maxAttempts, o.delay, s.now);
    case Refused(error) =>
      outcome := ReportFailure(queue, job, worker, error, 1, 0, s.now);
    case Raised(error) =>
      outcome := ReportFailure(queue, job, worker, error, o.maxAttempts, o.delay, s.now);
  }

  method ReportFailure(
    queue: SQLiteJobQueue, job: nat, worker: string, error: string, maxAttempts: int, delay: int, now: real)
    returns (outcome: Outcome)
    requires !Blank(worker) && maxAttempts >= 1 && delay >= 0 && Holds(Sqlite, queue.jobs, job, worker, "", now)
    modifies queue
    ensures var ending := Failing(old(queue.jobs)[job], maxAttempts, delay, error, now);
            queue.jobs == old(queue.jobs)[job := ending.0] && outcome == ending.1
  {
    var told := queue.FailJob(job, worker, error, maxAttempts, delay, now);
    outcome := Failure(told.value);
  }
}
