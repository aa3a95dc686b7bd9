/**
  * pipeline_worker.py's heartbeat: a worker that has just renewed its lease
  * renews it again and again while other workers use the same SQLite queue.
  */
module Heartbeat {
  import opened Basics
  import opened JobQueue
  import opened JobLease

  const SQLITE_LOCK_TIMEOUT_SECONDS := 30
  const MIN_WORKER_LEASE_SECONDS := SQLITE_LOCK_TIMEOUT_SECONDS * 2

  /** _lease_renewal_interval */
  function Interval(lease: int): real {
    if lease as real / 3.0 > 0.05 then lease as real / 3.0 else 0.05
  }

  /** One turn of the loop: what other workers did meanwhile, and how long the renewal waited for the write lock. */
  datatype Beat = Beat(others: seq<Call>, delay: real)

  predicate ByAnother(worker: string, c: Call) {
    match c
    case Enqueued(_, _) => true
    case Claims(w, _, _, _) => w != worker
    case Renews(_, w, _, _, _) => w != worker
    case Completes(_, w, _, _) => w != worker
    case Fails(_, w, _, _, _, _, _) => w != worker
  }

  /** The other calls come from other workers, and none reads a clock ahead of the renewal's. */
  predicate Meanwhile(worker: string, others: seq<Call>, until: real) {
    forall i :: 0 <= i < |others| ==> ByAnother(worker, others[i]) && others[i].now <= until
  }

  /** When the renewal reads the clock, the previous one having read at. */
  function Sample(at: real, lease: int, beat: Beat): real {
    at + Interval(lease) + beat.delay
  }

  predicate Plausible(worker: string, at: real, lease: int, beat: Beat) {
    beat.delay >= 0.0 && Meanwhile(worker, beat.others, Sample(at, lease, beat))
  }

  /** The job runs under this worker until the given time. */
  predicate Owned(jobs: seq<Job>, job: nat, worker: string, until: real) {
    job < |jobs| && jobs[job].status == Running && jobs[job].worker == Some(worker)
      && jobs[job].lockedUntil == Some(until)
  }

  function AfterOthers(jobs: seq<Job>, others: seq<Call>): seq<Job> {
    if others == [] then jobs
    else Perform(Sqlite, AfterOthers(jobs, others[..|others| - 1]), others[|others| - 1]).0
  }

  /** Other workers can neither claim nor settle a job before its lease expires. */
  lemma {:induction false} OthersLeaveJob(
    jobs: seq<Job>, others: seq<Call>, job: nat, worker: string, until: real, now: real)
    requires Owned(jobs, job, worker, until) && Meanwhile(worker, others, now) && now < until
    ensures Owned(AfterOthers(jobs, others), job, worker, until)
    ensures job < |AfterOthers(jobs, others)| && AfterOthers(jobs, others)[job] == jobs[job]
    decreases |others|
  {
    if others != [] {
      var less := others[..|others| - 1];
      assert forall i :: 0 <= i < |less| ==> less[i] == others[i];
      OthersLeaveJob(jobs, less, job, worker, until, now);
      assert ByAnother(worker, others[|others| - 1]) && others[|others| - 1].now <= now;
    }
  }

  /** What they answer: no claim of theirs returns this job. */
  lemma OthersCannotClaim(jobs: seq<Job>, others: seq<Call>, k: nat, job: nat, worker: string, until: real, now: real)
    requires Owned(jobs, job, worker, until) && Meanwhile(worker, others, now) && now < until && k < |others|
    ensures var answer := Perform(Sqlite, AfterOthers(jobs, others[..k]), others[k]).1;
            answer.Row? && answer.claimed.Some? ==> answer.claimed.value.job != job
  {
    var less := others[..k];
    assert forall i :: 0 <= i < |less| ==> less[i] == others[i];
    OthersLeaveJob(jobs, less, job, worker, until, now);
    assert ByAnother(worker, others[k]) && others[k].now <= now;
  }

  /** One beat renews the lease exactly when its lock wait is shorter than the lease minus the interval. */
  lemma BeatRenews(jobs: seq<Job>, job: nat, worker: string, lease: int, at: real, beat: Beat)
    requires !Blank(worker) && lease > 0 && Owned(jobs, job, worker, at + lease as real)
    requires Plausible(worker, at, lease, beat)
    ensures var now := Sample(at, lease, beat);
            var r := Renew(Sqlite, AfterOthers(jobs, beat.others), job, worker, "", lease, now);
            r.Ok? && (beat.delay < lease as real - Interval(lease) ==>
                        r.value.1 && Owned(r.value.0, job, worker, now + lease as real))
            && (beat.others == [] && beat.delay >= lease as real - Interval(lease) ==> !r.value.1)
  {
    var now := Sample(at, lease, beat);
    if beat.delay < lease as real - Interval(lease) {
      OthersLeaveJob(jobs, beat.others, job, worker, at + lease as real, now);
    }
  }

  /** With the shortest allowed lease or a longer one, the lock timeout always fits. */
  lemma TimeoutFits(lease: int)
    ensures (Interval(lease) + SQLITE_LOCK_TIMEOUT_SECONDS as real < lease as real) <==> lease > 45
    ensures lease >= MIN_WORKER_LEASE_SECONDS ==>
              Interval(lease) + SQLITE_LOCK_TIMEOUT_SECONDS as real + 10.0 <= lease as real
  {
  }

  /** Every beat is plausible, with a lock wait of at most the timeout. */
  predicate Beats(worker: string, at: real, lease: int, beats: seq<Beat>)
    decreases |beats|
  {
    beats == [] || (Plausible(worker, at, lease, beats[0]) && beats[0].delay <= SQLITE_LOCK_TIMEOUT_SECONDS as real
                    && Beats(worker, Sample(at, lease, beats[0]), lease, beats[1..]))
  }

  /** When the last of the beats read the clock. */
  function LastSample(at: real, lease: int, beats: seq<Beat>): real
    decreases |beats|
  {
    if beats == [] then at else LastSample(Sample(at, lease, beats[0]), lease, beats[1..])
  }

  /** The table after the given beats. */
  function AfterBeats(jobs: seq<Job>, job: nat, worker: string, lease: int, at: real, beats: seq<Beat>): seq<Job>
    decreases |beats|
  {
    if beats == [] then jobs
    else
      var now := Sample(at, lease, beats[0]);
      var r := Renew(Sqlite, AfterOthers(jobs, beats[0].others), job, worker, "", lease, now);
      AfterBeats(if r.Ok? then r.value.0 else jobs, job, worker, lease, now, beats[1..])
  }

  /** The first beat of several, and the rest. */
  lemma BeatsStep(jobs: seq<Job>, job: nat, worker: string, lease: int, at: real, beats: seq<Beat>)
    requires beats != []
    ensures var now := Sample(at, lease, beats[0]);
            var r := Renew(Sqlite, AfterOthers(jobs, beats[0].others), job, worker, "", lease, now);
            && AfterBeats(jobs, job, worker, lease, at, beats)
               == AfterBeats(if r.Ok? then r.value.0 else jobs, job, worker, lease, now, beats[1..])
            && LastSample(at, lease, beats) == LastSample(now, lease, beats[1..])
            && (Beats(worker, at, lease, beats) ==>
                  && Plausible(worker, at, lease, beats[0]) && beats[0].delay <= SQLITE_LOCK_TIMEOUT_SECONDS as real
                  && Beats(worker, now, lease, beats[1..]))
  {
  }

  /** The answer to the n-th renewal: the lease was still held, and is extended. */
  predicate RenewalSucceeds(jobs: seq<Job>, job: nat, worker: string, lease: int, at: real, beats: seq<Beat>, n: nat)
    requires n < |beats|
  {
    var before := AfterBeats(jobs, job, worker, lease, at, beats[..n]);
    var r := Renew(Sqlite, AfterOthers(before, beats[n].others), job, worker, "", lease,
                   LastSample(at, lease, beats[..n + 1]));
    r.Ok? && r.value.1
  }

  /** Every renewal, however many there are, finds the lease unexpired. */
  lemma {:induction false} EveryRenewalSucceeds(
    jobs: seq<Job>, job: nat, worker: string, lease: int, at: real, beats: seq<Beat>, n: nat)
    requires !Blank(worker) && lease >= MIN_WORKER_LEASE_SECONDS
    requires Owned(jobs, job, worker, at + lease as real) && Beats(worker, at, lease, beats) && n < |beats|
    ensures RenewalSucceeds(jobs, job, worker, lease, at, beats, n)
    decreases |beats|
  {
    hide AfterOthers, Owned;
    TimeoutFits(lease);
    BeatRenews(jobs, job, worker, lease, at, beats[0]);
    var now := Sample(at, lease, beats[0]);
    if n == 0 {
      assert beats[..0] == [] && beats[..1][0] == beats[0] && beats[..1][1..] == [];
      assert LastSample(at, lease, beats[..1]) == LastSample(now, lease, []);
    } else {
      var next := Renew(Sqlite, AfterOthers(jobs, beats[0].others), job, worker, "", lease, now).value.0;
      assert beats[..n][0] == beats[0] && beats[..n][1..] == beats[1..][..n - 1] && beats[1..][n - 1] == beats[n];
      assert beats[..n + 1][1..] == beats[1..][..n];
      EveryRenewalSucceeds(next, job, worker, lease, now, beats[1..], n - 1);
    }
  }

  /**
    * _renew_lease_until_stopped, run for the given beats after a first renewal
    * at time at: with a lease of at least MIN_WORKER_LEASE_SECONDS and lock
    * waits within the timeout, no renewal is ever lost, however many there are,
    * and the job stays this worker's.
    */
  method RenewLeaseUntilStopped(queue: SQLiteJobQueue, job: nat, worker: string, lease: int, at: real, beats: seq<Beat>)
    returns (leaseLost: bool)
    requires !Blank(worker) && lease >= MIN_WORKER_LEASE_SECONDS
    requires Owned(queue.jobs, job, worker, at + lease as real) && Beats(worker, at, lease, beats)
    modifies queue
    ensures !leaseLost
    ensures queue.jobs == AfterBeats(old(queue.jobs), job, worker, lease, at, beats)
    ensures Owned(queue.jobs, job, worker, LastSample(at, lease, beats) + lease as real)
  {
    hide AfterOthers, Owned, Interval, AfterBeats, LastSample, Beats, Renew, Plausible;
    leaseLost := false;
    var last := at;
    var i := 0;
    assert beats[0..] == beats;
    while i < |beats| && !leaseLost
      invariant 0 <= i <= |beats| && !leaseLost
      invariant Owned(queue.jobs, job, worker, last + lease as real) && Beats(worker, last, lease, beats[i..])
      invariant LastSample(last, lease, beats[i..]) == LastSample(at, lease, beats)
      invariant AfterBeats(queue.jobs, job, worker, lease, last, beats[i..])
                == AfterBeats(old(queue.jobs), job, worker, lease, at, beats)
      decreases |beats| - i
    {
      var beat := beats[i];
      assert beats[i..][0] == beat && beats[i..][1..] == beats[i + 1..];
      BeatsStep(queue.jobs, job, worker, lease, last, beats[i..]);
      TimeoutFits(lease);
      BeatRenews(queue.jobs, job, worker, lease, last, beat);
      queue.jobs := AfterOthers(queue.jobs, beat.others);
      last := Sample(last, lease, beat);
      var renewed := queue.RenewLease(job, worker, lease, last);
      if renewed.Err? || !renewed.value {
        leaseLost := true;
      }
      i := i + 1;
    }
    NoBeats(queue.jobs, job, worker, lease, last);
  }

  lemma NoBeats(jobs: seq<Job>, job: nat, worker: string, lease: int, at: real)
    ensures AfterBeats(jobs, job, worker, lease, at, []) == jobs && LastSample(at, lease, []) == at
  {
  }

  /** At any moment of the heartbeat, no other worker's claim returns the job. */
  lemma {:induction false} NeverTaken(
    jobs: seq<Job>, job: nat, worker: string, lease: int, at: real, beats: seq<Beat>, n: nat, k: nat)
    requires !Blank(worker) && lease >= MIN_WORKER_LEASE_SECONDS
    requires Owned(jobs, job, worker, at + lease as real) && Beats(worker, at, lease, beats) && n < |beats|
    requires k < |beats[n].others|
    ensures var before := AfterOthers(AfterBeats(jobs, job, worker, lease, at, beats[..n]), beats[n].others[..k]);
            var answer := Perform(Sqlite, before, beats[n].others[k]).1;
            answer.Row? && answer.claimed.Some? ==> answer.claimed.value.job != job
    decreases |beats|
  {
    hide Perform, AfterOthers;
    TimeoutFits(lease);
    BeatRenews(jobs, job, worker, lease, at, beats[0]);
    var now := Sample(at, lease, beats[0]);
    if n == 0 {
      assert beats[..0] == [];
      OthersCannotClaim(jobs, beats[0].others, k, job, worker, at + lease as real, now);
    } else {
      var next := Renew(Sqlite, AfterOthers(jobs, beats[0].others), job, worker, "", lease, now).value.0;
      assert beats[..n][0] == beats[0] && beats[..n][1..] == beats[1..][..n - 1] && beats[1..][n - 1] == beats[n];
      NeverTaken(next, job, worker, lease, now, beats[1..], n - 1, k);
    }
  }
}
