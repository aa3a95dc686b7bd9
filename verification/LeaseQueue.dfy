/**
  * The leased row tables of outbox_delivery.py and audit_delivery.py. Each SQL
  * transaction is one step on the table; clock readings and uuid4 tokens are
  * parameters. The two queues share their claim; their settling calls differ.
  */
module LeaseQueue {
  import opened Basics
  import opened CanonicalJson

  datatype Kind = Outbox | Audit

  /** The columns written once, when the event is appended. */
  datatype Message = Message(eventId: string, finding: string, sequence: nat, topic: string, payload: string,
                             createdAt: real)

  /** worker_id, lock_token and locked_until, which are set and cleared together. */
  datatype Lock = Lock(worker: string, token: string, until: real)

  /** The columns an acknowledgement fills in. */
  datatype Receipt = Broker(messageId: string) | Archived(objectKey: string, sha256: string, size: nat, etag: string)

  datatype Delivery = Delivery(at: real, receipt: Receipt)

  datatype Row = Row(
    message: Message, availableAt: real, attempts: nat, lock: Option<Lock>,
    delivered: Option<Delivery>, deadAt: Option<real>, lastError: Option<string>)

  type Table = map<string, Row>

  /** What a worker took away from a claim: the row as it was just after it. */
  datatype Item = Item(id: string, row: Row)

  datatype QueueError = InvalidRequest | InvalidPolicy | ReceiptMismatch | NotConfirmed

  datatype Outcome = Retry | Dead | Stale

  const ARCHIVE_FAILED := "audit archive delivery failed"
  const MAX_ERROR := 2000

  predicate IsHexId(s: string) {
    |s| == 32 && forall i :: 0 <= i < |s| ==> IsHex(s[i])
  }

  function NewRow(m: Message): Row {
    Row(m, m.createdAt, 0, None, None, None, None)
  }

  // ----- Claim -----

  /** Every earlier event of the finding is delivered. */
  predicate EarlierDelivered(t: Table, m: Message) {
    forall e :: e in t && t[e].message.finding == m.finding && t[e].message.sequence < m.sequence ==>
        t[e].delivered.Some?
  }

  predicate Claimable(t: Table, id: string, now: real) {
    && id in t
    && t[id].delivered.None? && t[id].deadAt.None? && t[id].availableAt <= now
    && (t[id].lock.Some? ==> t[id].lock.value.until <= now)
    && EarlierDelivered(t, t[id].message)
  }

  /** The order in which candidates are taken: created_at, then the row's id. */
  predicate Precedes(t: Table, a: string, b: string)
    requires a in t && b in t
  {
    t[a].message.createdAt < t[b].message.createdAt
    || (t[a].message.createdAt == t[b].message.createdAt && Before(a, b))
  }

  predicate FirstCandidate(t: Table, id: string, now: real) {
    Claimable(t, id, now) && forall other :: other in t && Claimable(t, other, now) ==> !Precedes(t, other, id)
  }

  function ClaimedRow(row: Row, worker: string, token: string, until: real): Row {
    row.(attempts := row.attempts + 1, lock := Some(Lock(worker, token, until)))
  }

  function Claimed(t: Table, id: string, worker: string, token: string, until: real): Table
    requires id in t
  {
    t[id := ClaimedRow(t[id], worker, token, until)]
  }

  // ----- Settling a claimed row -----

  /** The row is still open under the item's worker and token. */
  predicate Holds(t: Table, item: Item) {
    && item.id in t
    && t[item.id].delivered.None? && t[item.id].deadAt.None?
    && t[item.id].lock.Some? && item.row.lock.Some?
    && t[item.id].lock.value.worker == item.row.lock.value.worker
    && t[item.id].lock.value.token == item.row.lock.value.token
  }

  /** ... and its lease has not run out. */
  predicate HoldsLease(t: Table, item: Item, now: real) {
    Holds(t, item) && t[item.id].lock.value.until > now
  }

  function DeliveredRow(row: Row, receipt: Receipt, now: real): Row {
    row.(delivered := Some(Delivery(now, receipt)), lock := None, lastError := None)
  }

  function FailedRow(row: Row, dead: bool, available: real, error: string, now: real): Row {
    row.(availableAt := available, deadAt := if dead then Some(now) else None, lock := None, lastError := Some(error))
  }

  /** GovernanceOutboxQueue.acknowledge: the new table and the returned flag. */
  function AckOutbox(t: Table, item: Item, messageId: string, now: real): Result<(Table, bool), QueueError> {
    if messageId != item.id then Err(ReceiptMismatch)
    else if item.id !in t then Ok((t, false))
    else if t[item.id].delivered.Some? then Ok((t, t[item.id].delivered.value.receipt == Broker(messageId)))
    else if HoldsLease(t, item, now) then Ok((t[item.id := DeliveredRow(t[item.id], Broker(messageId), now)], true))
    else Ok((t, false))
  }

  /** AuditExportQueue.acknowledge. */
  function AckAudit(t: Table, item: Item, receipt: Receipt, now: real): (Table, bool) {
    if HoldsLease(t, item, now) then (t[item.id := DeliveredRow(t[item.id], receipt, now)], true) else (t, false)
  }

  predicate ExhaustedOutbox(item: Item, permanent: bool, maxAttempts: int) {
    permanent || item.row.attempts >= maxAttempts
  }

  /** GovernanceOutboxQueue.fail: needs an unexpired lease. */
  function FailOutbox(t: Table, item: Item, permanent: bool, maxAttempts: int, delay: int, error: string, now: real)
    : Result<(Table, Outcome), QueueError>
  {
    if maxAttempts < 1 || delay < 0 then Err(InvalidPolicy)
    else if !HoldsLease(t, item, now) then Ok((t, Stale))
    else
      var dead := ExhaustedOutbox(item, permanent, maxAttempts);
      var available := now + if dead then 0.0 else delay as real;
      Ok((t[item.id := FailedRow(t[item.id], dead, available, Clip(error, MAX_ERROR), now)],
          if dead then Dead else Retry))
  }

  /** AuditExportQueue.fail: fenced by worker and token only, and it delays dead rows too. */
  function FailAudit(
    t: Table, item: Item, maxAttempts: int, delay: int, now: real): Result<(Table, Outcome), QueueError> {
    if maxAttempts < 1 || delay < 0 then Err(InvalidPolicy)
    else if !Holds(t, item) then Ok((t, Stale))
    else
      var dead := item.row.attempts >= maxAttempts;
      Ok((t[item.id := FailedRow(t[item.id], dead, now + delay as real, ARCHIVE_FAILED, now)],
          if dead then Dead else Retry))
  }

  function Confirmation(kind: Kind, id: string): string {
    if kind == Outbox then "REQUEUE OUTBOX " + id else "REQUEUE " + id
  }

  function RequeuedRow(row: Row, now: real): Row {
    row.(attempts := 0, availableAt := now, deadAt := None, lock := None, lastError := None)
  }

  predicate Requeueable(t: Table, id: string) {
    id in t && t[id].delivered.None? && t[id].deadAt.Some?
  }

  /** requeue_dead of either queue. */
  function Requeue(
    kind: Kind, t: Table, id: string, confirmation: string, now: real): Result<(Table, bool), QueueError> {
    if !IsHexId(id) then Err(InvalidRequest)
    else if confirmation != Confirmation(kind, id) then Err(NotConfirmed)
    else if Requeueable(t, id) then Ok((t[id := RequeuedRow(t[id], now)], true))
    else Ok((t, false))
  }

  // ----- metrics -----

  datatype Metrics = Metrics(delivered: nat, pending: nat, dead: nat)

  function Delivered(t: Table): set<string> { set id | id in t && t[id].delivered.Some? }

  function Pending(t: Table): set<string> { set id | id in t && t[id].delivered.None? && t[id].deadAt.None? }

  function DeadLetters(t: Table): set<string> { set id | id in t && t[id].deadAt.Some? }

  /** Waiting after a failed delivery. */
  function Retrying(t: Table): set<string> { set id | id in Pending(t) && t[id].lastError.Some? }

  /** No waiting row was created earlier. */
  predicate OldestPending(t: Table, id: string) {
    id in Pending(t) && forall other :: other in Pending(t) ==> t[id].message.createdAt <= t[other].message.createdAt
  }

  function Elapsed(since: real, now: real): real { if now >= since then now - since else 0.0 }

  /** How long the oldest waiting row has waited; nothing if none waits or the clock is behind. */
  ghost predicate IsOldestAge(t: Table, now: real, age: real) {
    if Pending(t) == {} then age == 0.0
    else exists id :: OldestPending(t, id) && age == Elapsed(t[id].message.createdAt, now)
  }

  function Count(t: Table): Metrics {
    Metrics(|Delivered(t)|, |Pending(t)|, |DeadLetters(t)|)
  }

  // ----- Facts about one table -----

  /** A delivered or dead row is not locked, and no row is both. */
  predicate RowSane(row: Row) {
    && (row.delivered.Some? ==> row.deadAt.None? && row.lock.None?)
    && (row.deadAt.Some? ==> row.lock.None?)
  }

  predicate Sane(t: Table) {
    forall id :: id in t ==> RowSane(t[id])
  }

  /** The counters partition the table while no row is both delivered and dead. */
  lemma MetricsPartition(t: Table)
    requires Sane(t)
    ensures Count(t).delivered + Count(t).pending + Count(t).dead == |t|
  {
    var d, p, x := Delivered(t), Pending(t), DeadLetters(t);
    assert t.Keys == (d + p) + x;
    assert d !! p && (d + p) !! x;
    assert |t.Keys| == |d + p| + |x| && |d + p| == |d| + |p|;
  }

  lemma {:induction false} OldestExists(t: Table, ids: set<string>) returns (id: string)
    requires ids != {} && forall i :: i in ids ==> i in t
    ensures id in ids && forall other :: other in ids ==> t[id].message.createdAt <= t[other].message.createdAt
    decreases |ids|
  {
    var one :| one in ids;
    var rest := ids - {one};
    if rest == {} {
      assert ids == {one};
      return one;
    }
    var best := OldestExists(t, rest);
    id := if t[best].message.createdAt < t[one].message.createdAt then best else one;
    forall other | other in ids
      ensures t[id].message.createdAt <= t[other].message.createdAt
    {
      if other != one { assert other in rest; }
    }
  }

  /** Some candidate comes first whenever there is one. */
  lemma {:induction false} FirstExists(t: Table, ids: set<string>, now: real) returns (id: string)
    requires ids != {} && forall i :: i in ids ==> i in t && Claimable(t, i, now)
    ensures id in ids && forall other :: other in ids ==> !Precedes(t, other, id)
    decreases |ids|
  {
    var one :| one in ids;
    var rest := ids - {one};
    BeforeIrreflexive(one);
    if rest == {} {
      assert ids == {one};
      return one;
    }
    var best := FirstExists(t, rest, now);
    BeforeTotal(one, best);
    if Precedes(t, one, best) {
      forall other | other in ids ensures !Precedes(t, other, one) {
        if other != one && Precedes(t, other, one) {
          PrecedesTransitive(t, other, one, best);
        }
      }
      return one;
    }
    assert forall other :: other in ids ==> other == one || other in rest;
    return best;
  }

  lemma PrecedesTransitive(t: Table, a: string, b: string, c: string)
    requires a in t && b in t && c in t && Precedes(t, a, b) && Precedes(t, b, c)
    ensures Precedes(t, a, c)
  {
    if t[a].message.createdAt == t[b].message.createdAt == t[c].message.createdAt {
      BeforeTransitive(a, b, c);
    }
  }

  /** Two different rows of one order never tie, so the first candidate is unique. */
  lemma FirstUnique(t: Table, a: string, b: string, now: real)
    requires FirstCandidate(t, a, now) && FirstCandidate(t, b, now)
    ensures a == b
  {
    BeforeTotal(a, b);
  }

  /**
    * The two fail calls differ in the lease: on an open row under the caller's
    * own token, the outbox call changes the row exactly while the lease runs,
    * the audit call always.
    */
  lemma FailFences(t: Table, item: Item, permanent: bool, maxAttempts: int, delay: int, error: string, now: real)
    requires maxAttempts >= 1 && delay >= 0
    ensures FailOutbox(t, item, permanent, maxAttempts, delay, error, now).value.0 != t <==> HoldsLease(t, item, now)
    ensures FailAudit(t, item, maxAttempts, delay, now).value.0 != t <==> Holds(t, item)
  {
    var a := FailOutbox(t, item, permanent, maxAttempts, delay, error, now).value.0;
    var b := FailAudit(t, item, maxAttempts, delay, now).value.0;
    if HoldsLease(t, item, now) { assert a[item.id].lock.None?; }
    if Holds(t, item) { assert b[item.id].lock.None?; }
  }

  /** An expired audit claim can still be failed by its holder; an outbox claim cannot. */
  lemma ExpiredAuditFailWitness() returns (t: Table, item: Item, now: real)
    ensures Holds(t, item) && !HoldsLease(t, item, now)
    ensures FailAudit(t, item, 5, 30, now).value.1 == Retry
    ensures FailOutbox(t, item, false, 5, 30, "", now).value.1 == Stale
  {
    var row := ClaimedRow(NewRow(Message("e", "f", 1, "", "", 0.0)), "w", "token", 60.0);
    t, item, now := map["r" := row], Item("r", row), 61.0;
  }

  /** The row may be claimed from the given moment on, and not before. */
  ghost predicate ClaimableFrom(t: Table, id: string, start: real) {
    forall now :: Claimable(t, id, now) <==> now >= start
  }

  /**
    * What a failed delivery means for the row: a retried row is claimable again
    * exactly from the end of its delay, a dead one never, and requeueing a dead
    * one makes it claimable at once with its attempts counted afresh.
    */
  lemma FailedRowReturns(
    t: Table, item: Item, permanent: bool, maxAttempts: int, delay: int, error: string, now: real, again: real)
    requires FailOutbox(t, item, permanent, maxAttempts, delay, error, now).Ok?
    requires HoldsLease(t, item, now) && EarlierDelivered(t, t[item.id].message) && IsHexId(item.id)
    ensures var (u, outcome) := FailOutbox(t, item, permanent, maxAttempts, delay, error, now).value;
            if permanent || item.row.attempts >= maxAttempts then
              var v := Requeue(Outbox, u, item.id, Confirmation(Outbox, item.id), again);
              outcome == Dead && (forall later :: !Claimable(u, item.id, later))
              && v.Ok? && v.value.1 && ClaimableFrom(v.value.0, item.id, again) && v.value.0[item.id].attempts == 0
            else
              outcome == Retry && ClaimableFrom(u, item.id, now + delay as real)
              && u[item.id].attempts == t[item.id].attempts
  {
    var u := FailOutbox(t, item, permanent, maxAttempts, delay, error, now).value.0;
    assert EarlierDelivered(u, u[item.id].message);
    var v := Requeue(Outbox, u, item.id, Confirmation(Outbox, item.id), again);
    if v.Ok? {
      assert EarlierDelivered(v.value.0, v.value.0[item.id].message);
    }
  }

  /** The audit queue's counterpart, which needs no unexpired lease. */
  lemma FailedExportReturns(t: Table, item: Item, maxAttempts: int, delay: int, now: real, again: real)
    requires FailAudit(t, item, maxAttempts, delay, now).Ok?
    requires Holds(t, item) && EarlierDelivered(t, t[item.id].message) && IsHexId(item.id)
    ensures var (u, outcome) := FailAudit(t, item, maxAttempts, delay, now).value;
            if item.row.attempts >= maxAttempts then
              var v := Requeue(Audit, u, item.id, Confirmation(Audit, item.id), again);
              outcome == Dead && (forall later :: !Claimable(u, item.id, later))
              && v.Ok? && v.value.1 && ClaimableFrom(v.value.0, item.id, again) && v.value.0[item.id].attempts == 0
            else
              outcome == Retry && ClaimableFrom(u, item.id, now + delay as real)
              && u[item.id].attempts == t[item.id].attempts
  {
    var u := FailAudit(t, item, maxAttempts, delay, now).value.0;
    assert EarlierDelivered(u, u[item.id].message);
    var v := Requeue(Audit, u, item.id, Confirmation(Audit, item.id), again);
    if v.Ok? {
      assert EarlierDelivered(v.value.0, v.value.0[item.id].message);
    }
  }
}
