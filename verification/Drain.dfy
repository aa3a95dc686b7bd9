/**
  * load_soak_baseline.py: draining the outbox with one worker and reconciling
  * what reached the sink with what was committed.
  */
module Drain {
  import opened Basics
  import opened CanonicalJson
  import opened ChainedLog
  import opened LeaseQueue
  import opened OutboxDelivery

  const LEASE := 60

  /** A worker turn: the claim's and the settlement's clock readings and the token drawn. */
  datatype Turn = Turn(claimedAt: real, settledAt: real, token: string)

  /** The settlement falls inside the lease, and every waiting row is already available. */
  predicate Prompt(t: Table, turn: Turn) {
    turn.settledAt < turn.claimedAt + LEASE as real
    && forall id :: id in t && t[id].delivered.None? ==> t[id].availableAt <= turn.claimedAt
  }

  /** No dead row, no lock, and every waiting row is a message the publisher accepts. */
  ghost predicate Drainable(loads: Loads, numberIs: NumberIs, t: Table) {
    forall id :: id in t ==>
      t[id].lock.None? && t[id].deadAt.None?
      && (t[id].delivered.None? ==> WellFormedMessage(loads, numberIs, id, t[id].message))
  }

  /** Something can be claimed as long as a row waits: the least event of its finding. */
  lemma {:induction false} WaitingIsClaimable(t: Table, id: string, now: real)
    requires id in t && t[id].delivered.None?
    requires forall e :: e in t ==> t[e].lock.None? && t[e].deadAt.None?
    requires forall e :: e in t && t[e].delivered.None? ==> t[e].availableAt <= now
    ensures exists e :: e in t && Claimable(t, e, now)
    decreases t[id].message.sequence
  {
    if !EarlierDelivered(t, t[id].message) {
      var e :| e in t && t[e].message.finding == t[id].message.finding
               && t[e].message.sequence < t[id].message.sequence && t[e].delivered.None?;
      WaitingIsClaimable(t, e, now);
    } else {
      assert Claimable(t, id, now);
    }
  }

  /** Every row of t is in u, untouched outside sent, and delivered inside. */
  ghost predicate Sent(t: Table, u: Table, sent: set<string>) {
    && u.Keys == t.Keys
    && (forall id :: id in t && id !in sent ==> u[id] == t[id])
    && (forall id :: id in sent ==> SentRow(t, u, id))
  }

  /** Delivered by this drain: one attempt more, nothing else of the row changed. */
  predicate SentRow(t: Table, u: Table, id: string) {
    id in t && id in u && t[id].delivered.None?
    && u[id].delivered.Some? && u[id].delivered.value.receipt == Broker(id)
    && u[id] == t[id].(attempts := t[id].attempts + 1, delivered := u[id].delivered, lastError := None)
  }

  ghost predicate Carries(t: Table, sink: Sink, sent: set<string>) {
    sink.Keys == sent && forall id :: id in sent ==> id in t && sink[id] == t[id].message.payload
  }

  /** A prompt turn on an acceptable row that is not in the sink yet. */
  lemma PromptTurn(
    worker: OutboxWorker, u: Table, id: string, turn: Turn, v: Table, sink: Sink, newSink: Sink,
    result: Result<RunResult, QueueError>)
    requires Reads(worker.loads, true) && id in u && WellFormedMessage(worker.loads, worker.numberIs, id, u[id].message)
    requires turn.settledAt < turn.claimedAt + LEASE as real && id !in sink
    requires worker.Worked(u, sink, id, LEASE, 5, 30, true, turn.claimedAt, turn.settledAt, turn.token, v, newSink,
                           result)
    ensures result == Ok(RunResult.Delivered) && newSink == sink[id := u[id].message.payload]
    ensures v.Keys == u.Keys && forall other :: other in u && other != id ==> v[other] == u[other]
    ensures v[id] == u[id].(attempts := u[id].attempts + 1, lock := None, lastError := None,
                            delivered := Some(Delivery(turn.settledAt, Broker(id))))
  {
    hide FromItem, WellFormedMessage, Reads;
    FromItemAccepts(worker.sha, worker.loads, worker.numberIs, id, u[id].message);
  }

  /** One turn on a drainable table delivers one waiting row. */
  lemma TurnDelivers(worker: OutboxWorker, t: Table, u: Table, sent: set<string>, id: string, turn: Turn, v: Table,
                     sink: Sink, newSink: Sink, result: Result<RunResult, QueueError>)
    requires Reads(worker.loads, true)
    requires Drainable(worker.loads, worker.numberIs, t) && Sent(t, u, sent) && Carries(t, sink, sent)
    requires turn.settledAt < turn.claimedAt + LEASE as real && Claimable(u, id, turn.claimedAt)
    requires worker.Worked(u, sink, id, LEASE, 5, 30, true, turn.claimedAt, turn.settledAt, turn.token, v, newSink,
                           result)
    ensures result == Ok(RunResult.Delivered) && id !in sent
    ensures Sent(t, v, sent + {id}) && Carries(t, newSink, sent + {id})
  {
    hide WellFormedMessage, EarlierDelivered, Reads, worker.Worked;
    assert id in sent ==> SentRow(t, u, id);
    assert u[id] == t[id];
    PromptTurn(worker, u, id, turn, v, sink, newSink, result);
    hide Drainable, Claimable;
    SentGrows(t, u, sent, id, v);
  }

  lemma SentGrows(t: Table, u: Table, sent: set<string>, id: string, v: Table)
    requires Sent(t, u, sent) && id in t && id !in sent && SentRow(t, v, id)
    requires v.Keys == u.Keys && forall other :: other in u && other != id ==> v[other] == u[other]
    ensures Sent(t, v, sent + {id})
  {
    forall e | e in sent ensures SentRow(t, v, e) { assert SentRow(t, u, e); }
  }

  predicate NoneDead(t: Table) {
    forall id :: id in t ==> t[id].deadAt.None?
  }

  lemma StartsSent(loads: Loads, numberIs: NumberIs, t: Table)
    requires Drainable(loads, numberIs, t)
    ensures Sent(t, t, {}) && Carries(t, map[], {}) && NoneDead(t)
  {
  }

  /** Part of the way through, a waiting row still means a claimable one. */
  lemma StillClaimable(loads: Loads, numberIs: NumberIs, t: Table, u: Table, sent: set<string>, turn: Turn)
    requires Drainable(loads, numberIs, t) && Sent(t, u, sent) && Prompt(t, turn)
    ensures (forall e :: e in u ==> !Claimable(u, e, turn.claimedAt)) ==> Pending(u) == {}
  {
    forall e | e in u
      ensures u[e].lock.None? && u[e].deadAt.None? && (u[e].delivered.None? ==> u[e].availableAt <= turn.claimedAt)
    {
      if e in sent { assert SentRow(t, u, e); }
    }
    if Pending(u) != {} {
      var id :| id in Pending(u);
      WaitingIsClaimable(u, id, turn.claimedAt);
    }
  }

  lemma PendingLeft(t: Table, u: Table, sent: set<string>)
    requires Sent(t, u, sent) && NoneDead(t)
    ensures Pending(u) == Pending(t) - sent && sent <= Pending(t) && |Pending(u)| == |Pending(t)| - |sent|
  {
    forall id | id in sent ensures id in Pending(t) && id !in Pending(u) { assert SentRow(t, u, id); }
    assert Pending(t) - (Pending(t) - sent) == sent;
  }

  /**
    * _drain_outbox's loop: with no dead or locked row and prompt turns, exactly
    * one waiting row is delivered per turn until none is left (or the bound is
    * reached); the sink then holds exactly those rows' texts.
    */
  method DrainOutbox(worker: OutboxWorker, maximum: nat, clock: nat -> Turn)
    returns (delivered: nat, ghost sent: set<string>)
    requires !Blank(worker.worker) && Reads(worker.loads, true) && worker.publisher.messages == map[]
    requires Drainable(worker.loads, worker.numberIs, worker.queue.table)
    requires forall i :: 0 <= i <= maximum ==> Prompt(worker.queue.table, clock(i))
    modifies worker.queue, worker.publisher
    ensures var waiting := |Pending(old(worker.queue.table))|;
            delivered == |sent| == if waiting <= maximum then waiting else maximum + 1
    ensures Sent(old(worker.queue.table), worker.queue.table, sent)
    ensures Carries(old(worker.queue.table), worker.publisher.messages, sent)
    ensures |Pending(old(worker.queue.table))| <= maximum ==>
              sent == Pending(old(worker.queue.table)) && Pending(worker.queue.table) == {}
                && DeadLetters(worker.queue.table) == {}
  {
    hide Sent, Carries, Drainable, Reads, FromItem, WellFormedMessage, EarlierDelivered, Pending, DeadLetters;
    ghost var t := worker.queue.table;
    StartsSent(worker.loads, worker.numberIs, t);
    delivered, sent := 0, {};
    var i := 0;
    while i < maximum + 1
      invariant 0 <= i <= maximum + 1 && delivered == i == |sent|
      invariant Sent(t, worker.queue.table, sent) && Carries(t, worker.publisher.messages, sent)
      invariant i <= |Pending(t)|
    {
      PendingLeft(t, worker.queue.table, sent);
      assert Prompt(t, clock(i));
      var turn := clock(i);
      ghost var u, sink := worker.queue.table, worker.publisher.messages;
      StillClaimable(worker.loads, worker.numberIs, t, u, sent, turn);
      var outcome := worker.RunOnce(LEASE, 5, 30, true, turn.claimedAt, turn.settledAt, turn.token);
      if outcome == Ok(Empty) {
        Finished(t, u, sent);
        return;
      }
      ghost var id :| FirstCandidate(u, id, turn.claimedAt)
                      && worker.Worked(u, sink, id, LEASE, 5, 30, true, turn.claimedAt, turn.settledAt, turn.token,
                                       worker.queue.table, worker.publisher.messages, outcome);
      TurnDelivers(worker, t, u, sent, id, turn, worker.queue.table, sink, worker.publisher.messages, outcome);
      sent := sent + {id};
      PendingLeft(t, worker.queue.table, sent);
      if outcome == Ok(RunResult.Delivered) { delivered := delivered + 1; }
      i := i + 1;
    }
    PendingLeft(t, worker.queue.table, sent);
  }

  lemma Finished(t: Table, u: Table, sent: set<string>)
    requires Sent(t, u, sent) && Pending(u) == {} && NoneDead(t)
    ensures sent == Pending(t) && DeadLetters(u) == {}
  {
    PendingLeft(t, u, sent);
    forall id | id in u ensures u[id].deadAt.None? { if id in sent { assert SentRow(t, u, id); } }
  }

  // ----- Reconciliation -----

  datatype Reconciliation = Reconciliation(
    expected: nat, observed: nat, missing: nat, unexpected: nat, mismatched: nat,
    expectedDigest: string, observedDigest: string)

  /** A dictionary of digests as a JSON object; key order is settled by the canonical text. */
  ghost function Entries(m: map<string, string>): (ms: seq<Member>)
    ensures WellFormed(Obj(ms)) && forall e :: e in ms <==> e.key in m && e.value == Str(m[e.key])
    decreases |m|
  {
    if m == map[] then []
    else
      var k :| k in m;
      var rest := map x | x in m && x != k :: m[x];
      assert m.Keys == rest.Keys + {k};
      EntriesCons(m, k, rest, Entries(rest));
      [Member(k, Str(m[k]))] + Entries(rest)
  }

  lemma EntriesCons(m: map<string, string>, k: string, rest: map<string, string>, ms: seq<Member>)
    requires k in m && rest == map x | x in m && x != k :: m[x]
    requires WellFormed(Obj(ms)) && forall e :: e in ms <==> e.key in rest && e.value == Str(rest[e.key])
    ensures WellFormed(Obj([Member(k, Str(m[k]))] + ms))
    ensures forall e :: e in [Member(k, Str(m[k]))] + ms <==> e.key in m && e.value == Str(m[e.key])
  {
    forall i | 0 <= i < |ms| ensures ms[i].key != k { assert ms[i] in ms; }
  }

  ghost function CanonicalMap(m: map<string, string>): string {
    Canonical(Obj(Entries(m)), true)
  }

  function Digests(sha: Digest, bodies: Sink): map<string, string> {
    map id | id in bodies :: sha(bodies[id])
  }

  ghost function Reconcile(sha: Digest, expected: map<string, string>, bodies: Sink): Reconciliation {
    var actual := Digests(sha, bodies);
    Reconciliation(
      |expected|, |actual|, |expected.Keys - actual.Keys|, |actual.Keys - expected.Keys|,
      |set id | id in expected && id in actual && expected[id] != actual[id]|,
      sha(CanonicalMap(expected)), sha(CanonicalMap(actual)))
  }

  predicate DeliveryExact(r: Reconciliation, count: nat) {
    r.expected == r.observed == count && r.missing == r.unexpected == r.mismatched == 0
    && r.expectedDigest == r.observedDigest
  }

  /** _validate_reconciliation returns without raising. */
  predicate Validates(r: Reconciliation) {
    var overlap := r.expected - r.missing;
    && IsHex64(r.expectedDigest) && IsHex64(r.observedDigest)
    && overlap >= 0 && overlap == r.observed - r.unexpected && r.mismatched <= overlap
    && ((r.missing == r.unexpected == r.mismatched == 0) <==> r.expectedDigest == r.observedDigest)
  }

  lemma EmptyCount<T>(s: set<T>)
    ensures |s| == 0 <==> s == {}
  {
  }

  /** The three difference counts are zero exactly when the maps are equal. */
  lemma CountsMatch(sha: Digest, expected: map<string, string>, bodies: Sink)
    ensures var r := Reconcile(sha, expected, bodies);
            r.missing == r.unexpected == r.mismatched == 0 <==> expected == Digests(sha, bodies)
  {
    var actual := Digests(sha, bodies);
    var differing := set id | id in expected && id in actual && expected[id] != actual[id];
    EmptyCount(expected.Keys - actual.Keys);
    EmptyCount(actual.Keys - expected.Keys);
    EmptyCount(differing);
    if expected.Keys - actual.Keys == {} && actual.Keys - expected.Keys == {} && differing == {} {
      assert expected.Keys == actual.Keys;
      forall id | id in expected ensures expected[id] == actual[id] {
        assert id !in differing;
      }
      assert expected == actual;
    }
  }

  /** Delivery is reported exact if and only if the sink's digest map is the committed one, of the expected size. */
  lemma ExactIffEqual(sha: Digest, expected: map<string, string>, bodies: Sink, count: nat)
    ensures DeliveryExact(Reconcile(sha, expected, bodies), count) <==>
              expected == Digests(sha, bodies) && |expected| == count
  {
    CountsMatch(sha, expected, bodies);
  }

  /** The canonical text determines the map. */
  lemma CanonicalMapInjective(m: map<string, string>, n: map<string, string>)
    ensures CanonicalMap(m) == CanonicalMap(n) ==> m == n
  {
    hide Canonical;
    var ms, ns := Entries(m), Entries(n);
    CanonicalDeterminesValue(Obj(ms), Obj(ns), true);
    if Same(Obj(ms), Obj(ns)) {
      CanonicalDeterminesValue(Obj(ns), Obj(ms), true);
      forall k | k in m ensures k in n && n[k] == m[k] { EntryShared(ms, ns, Member(k, Str(m[k]))); }
      forall k | k in n ensures k in m && m[k] == n[k] { EntryShared(ns, ms, Member(k, Str(n[k]))); }
      assert m.Keys == n.Keys;
    }
  }

  lemma EntryShared(ms: seq<Member>, ns: seq<Member>, e: Member)
    requires WellFormed(Obj(ms)) && WellFormed(Obj(ns)) && Same(Obj(ms), Obj(ns))
    requires e in ms && e.value.Str?
    ensures e in ns
  {
    var i :| 0 <= i < |ms| && ms[i] == e;
    assert HasSame(ms[i], ns);
  }

  /**
    * Every reconciliation passes the validator, except one: the maps differ but
    * their canonical texts, two different texts, share a digest.
    */
  lemma ReconciliationValidates(sha: Digest, expected: map<string, string>, bodies: Sink)
    requires Hexadecimal(sha)
    ensures var actual := Digests(sha, bodies);
            Validates(Reconcile(sha, expected, bodies)) <==>
            !(CanonicalMap(expected) != CanonicalMap(actual)
              && sha(CanonicalMap(expected)) == sha(CanonicalMap(actual)))
  {
    var actual := Digests(sha, bodies);
    CountsMatch(sha, expected, bodies);
    CanonicalMapInjective(expected, actual);
    CountsConsistent(expected, actual);
    hide CanonicalMap, IsHex64;
  }

  /** Both sides minus what only they hold leave the same overlap. */
  lemma CountsConsistent(expected: map<string, string>, actual: map<string, string>)
    ensures var overlap := |expected| - |expected.Keys - actual.Keys|;
            overlap == |actual| - |actual.Keys - expected.Keys|
            && |set id | id in expected && id in actual && expected[id] != actual[id]| <= overlap
  {
    SplitCount(expected.Keys, actual.Keys);
    SplitCount(actual.Keys, expected.Keys);
    assert expected.Keys * actual.Keys == actual.Keys * expected.Keys;
    SubsetSize((set id | id in expected && id in actual && expected[id] != actual[id]), expected.Keys * actual.Keys);
    KeyCount(expected);
    KeyCount(actual);
  }

  lemma SplitCount<T>(a: set<T>, b: set<T>)
    ensures |a| == |a - b| + |a * b|
  {
    assert a == (a - b) + a * b;
  }

  lemma KeyCount<K, V>(m: map<K, V>)
    ensures |m| == |m.Keys|
  {
  }

  function Committed(sha: Digest, t: Table): map<string, string> {
    map id | id in t :: sha(t[id].message.payload)
  }

  /**
    * After a complete drain, delivery is reported exact exactly when nothing had
    * been delivered before the drain and the row count is the expected one.
    */
  lemma DrainReconciles(sha: Digest, t: Table, sink: Sink, count: nat)
    requires Carries(t, sink, Pending(t)) && NoneDead(t)
    ensures DeliveryExact(Reconcile(sha, Committed(sha, t), sink), count) <==>
              LeaseQueue.Delivered(t) == {} && |t| == count
  {
    ExactIffEqual(sha, Committed(sha, t), sink, count);
    hide Reconcile, DeliveryExact;
    assert Committed(sha, t).Keys == t.Keys;
    assert |Committed(sha, t).Keys| == |t.Keys|;
    if Committed(sha, t) == Digests(sha, sink) {
      assert t.Keys == sink.Keys;
    }
    if LeaseQueue.Delivered(t) == {} {
      forall id | id in t ensures id in Pending(t) { assert id !in LeaseQueue.Delivered(t); }
      assert t.Keys == sink.Keys;
      assert Committed(sha, t) == Digests(sha, sink);
    }
  }
}
