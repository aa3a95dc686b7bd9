/**
  * outbox_delivery.py: the message check, the in-memory publisher, the outbox
  * queue and its worker. The queue object holds the governance_outbox table.
  */
module OutboxDelivery {
  import opened Basics
  import opened CanonicalJson
  import opened ChainedLog
  import opened LeaseQueue

  const MAX_MESSAGE_BYTES := 262144
  const TOPIC := "governance.event.v1"
  const UNAVAILABLE := "Service Bus delivery is unavailable"

  datatype OutboxMessage = OutboxMessage(
    messageId: string, eventId: string, finding: string, sequence: nat, topic: string, body: string, sha256: string)

  /** Python's == between a JSON number, given by its text, and an integer. */
  type NumberIs = (string, nat) -> bool

  predicate HasString(ms: seq<Member>, key: string, s: string) {
    Get(ms, key) == Some(Str(s))
  }

  /** payload.get(key) == n, where True equals 1. */
  predicate HasInteger(numberIs: NumberIs, ms: seq<Member>, key: string, n: nat) {
    Get(ms, key).Some?
      && (match Get(ms, key).value case Num(x) => numberIs(x, n) case Bool(b) => b && n == 1 case _ => false)
  }

  predicate HasMetadata(numberIs: NumberIs, ms: seq<Member>, m: Message) {
    HasString(ms, "event_id", m.eventId) && HasString(ms, "finding_id", m.finding)
    && HasInteger(numberIs, ms, "event_sequence", m.sequence)
  }

  /** OutboxMessage.from_item; the error is PermanentOutboxError's text. */
  function FromItem(
    sha: Digest, loads: Loads, numberIs: NumberIs, id: string, m: Message): Result<OutboxMessage, string> {
    if Blank(id) || Blank(m.eventId) || Blank(m.finding) || Blank(m.topic) || Blank(m.payload) then
      Err("outbox field is invalid")
    else if !IsHexId(id) then Err("outbox message identity is invalid")
    else if m.topic != TOPIC then Err("outbox topic is not an approved contract")
    else if loads(m.payload).None? then Err("outbox payload is invalid")
    else
      var payload := loads(m.payload).value;
      if m.sequence < 1 || !payload.Obj? then Err("outbox event sequence is invalid")
      else if !HasMetadata(numberIs, payload.members, m) then Err("outbox metadata does not match its payload")
      else if Canonical(payload, true) != m.payload then Err("outbox payload is not canonical JSON")
      else if |m.payload| == 0 || |m.payload| > MAX_MESSAGE_BYTES then Err("outbox payload size is invalid")
      else Ok(OutboxMessage(id, m.eventId, m.finding, m.sequence, m.topic, m.payload, sha(m.payload)))
  }

  /** The payload is the canonical text of an object that carries the row's metadata. */
  ghost predicate CanonicalEvent(loads: Loads, numberIs: NumberIs, ms: seq<Member>, m: Message) {
    Held(loads, Obj(ms)) && m.payload == Canonical(Obj(ms), true) && HasMetadata(numberIs, ms, m)
  }

  ghost predicate WellFormedMessage(loads: Loads, numberIs: NumberIs, id: string, m: Message) {
    && IsHexId(id) && m.topic == TOPIC && !Blank(m.eventId) && !Blank(m.finding) && m.sequence >= 1
    && |m.payload| <= MAX_MESSAGE_BYTES
    && exists ms :: CanonicalEvent(loads, numberIs, ms, m)
  }

  /** The check accepts exactly the well-formed messages, and hands their text on unchanged. */
  lemma FromItemAccepts(sha: Digest, loads: Loads, numberIs: NumberIs, id: string, m: Message)
    requires Reads(loads, true)
    ensures FromItem(sha, loads, numberIs, id, m).Ok? <==> WellFormedMessage(loads, numberIs, id, m)
    ensures FromItem(sha, loads, numberIs, id, m).Ok? ==>
              FromItem(sha, loads, numberIs, id, m).value
              == OutboxMessage(id, m.eventId, m.finding, m.sequence, TOPIC, m.payload, sha(m.payload))
  {
    hide WellFormed, NumbersKept, Dump;
    assert IsHexId(id) ==> !IsSpace(id[0]);
    assert !IsSpace(TOPIC[0]);
    if FromItem(sha, loads, numberIs, id, m).Ok? {
      assert CanonicalEvent(loads, numberIs, loads(m.payload).value.members, m);
    }
    if WellFormedMessage(loads, numberIs, id, m) {
      var ms :| CanonicalEvent(loads, numberIs, ms, m);
      CanonicalEventReads(loads, numberIs, ms, m);
    }
  }

  lemma UnavailableShort()
    ensures Clip(UNAVAILABLE, MAX_ERROR) == UNAVAILABLE
  {
  }

  lemma FromItemKeeps(sha: Digest, loads: Loads, numberIs: NumberIs, id: string, m: Message)
    ensures var r := FromItem(sha, loads, numberIs, id, m); r.Ok? ==>
              r.value.messageId == id && r.value.body == m.payload
  {
  }

  lemma CanonicalEventReads(loads: Loads, numberIs: NumberIs, ms: seq<Member>, m: Message)
    requires Reads(loads, true) && CanonicalEvent(loads, numberIs, ms, m)
    ensures !Blank(m.payload) && Normalize(Obj(ms)).Obj? && loads(m.payload) == Some(Normalize(Obj(ms)))
    ensures HasMetadata(numberIs, Normalize(Obj(ms)).members, m) && Canonical(Normalize(Obj(ms)), true) == m.payload
  {
    hide NumbersKept, Dump;
    var n := Normalize(Obj(ms));
    NormalizeHeld(loads, Obj(ms));
    NormalizeIdempotent(Obj(ms));
    assert Held(loads, n) && loads(Dump(n, true)) == Some(n);
    GetNormal(ms, "event_id");
    GetNormal(ms, "finding_id");
    GetNormal(ms, "event_sequence");
  }

  /** MemoryOutboxPublisher: message id to body. */
  class MemoryOutboxPublisher {
    var messages: map<string, string>

    constructor ()
      ensures messages == map[]
    {
      messages := map[];
    }

    /** Publishing again is harmless; another body under the same id is refused. */
    method Publish(message: OutboxMessage) returns (receipt: Option<string>)
      modifies this
      ensures var clash := message.messageId in old(messages) && old(messages)[message.messageId] != message.body;
              receipt == (if clash then None else Some(message.messageId))
              && messages == if clash then old(messages) else old(messages)[message.messageId := message.body]
    {
      if message.messageId in messages && messages[message.messageId] != message.body {
        return None;
      }
      messages := messages[message.messageId := message.body];
      receipt := Some(message.messageId);
    }
  }

  class GovernanceOutboxQueue {
    var table: Table

    constructor ()
      ensures table == map[]
    {
      table := map[];
    }

    /** The SQLite claim: the first candidate, with one more attempt and a new lock. */
    method Claim(worker: string, lease: int, now: real, token: string) returns (r: Result<Option<Item>, QueueError>)
      modifies this
      ensures Blank(worker) || lease <= 0 ==> r == Err(InvalidRequest) && table == old(table)
      ensures !Blank(worker) && lease > 0 ==>
                r.Ok? && (r.value.None? <==> forall id :: id in old(table) ==> !Claimable(old(table), id, now))
                && (r.value.None? ==> table == old(table))
      ensures r.Ok? && r.value.Some? ==>
                var id := r.value.value.id;
                FirstCandidate(old(table), id, now)
                && table == Claimed(old(table), id, worker, token, now + lease as real)
                && r.value.value.row == table[id]
    {
      if Blank(worker) || lease <= 0 {
        return Err(InvalidRequest);
      }
      var candidates := set id | id in table && Claimable(table, id, now);
      if candidates == {} {
        assert forall id :: id in table && Claimable(table, id, now) ==> id in candidates;
        return Ok(None);
      }
      ghost var first := FirstExists(table, candidates, now);
      assert FirstCandidate(table, first, now);
      var id :| id in table && FirstCandidate(table, id, now);
      table := Claimed(table, id, worker, token, now + lease as real);
      r := Ok(Some(Item(id, table[id])));
    }

    method Acknowledge(item: Item, messageId: string, now: real) returns (r: Result<bool, QueueError>)
      modifies this
      ensures var spec := AckOutbox(old(table), item, messageId, now);
              r == (if spec.Ok? then Ok(spec.value.1) else Err(spec.error))
              && table == if spec.Ok? then spec.value.0 else old(table)
    {
      if messageId != item.id { return Err(ReceiptMismatch); }
      if item.id !in table { return Ok(false); }
      var row := table[item.id];
      if row.delivered.Some? { return Ok(row.delivered.value.receipt == Broker(messageId)); }
      if !HoldsLease(table, item, now) { return Ok(false); }
      row := row.(delivered := Some(Delivery(now, Broker(messageId))), lock := None, lastError := None);
      table := table[item.id := row];
      r := Ok(true);
    }

    method Fail(item: Item, error: string, permanent: bool, maxAttempts: int, delay: int, now: real)
      returns (r: Result<Outcome, QueueError>)
      modifies this
      ensures var spec := FailOutbox(old(table), item, permanent, maxAttempts, delay, error, now);
              r == (if spec.Ok? then Ok(spec.value.1) else Err(spec.error))
              && table == if spec.Ok? then spec.value.0 else old(table)
    {
      if maxAttempts < 1 || delay < 0 { return Err(InvalidPolicy); }
      var dead := permanent || item.row.attempts >= maxAttempts;
      if !HoldsLease(table, item, now) { return Ok(Stale); }
      var available := now;
      if !dead { available := now + delay as real; }
      table := table[item.id := FailedRow(table[item.id], dead, available, Clip(error, MAX_ERROR), now)];
      r := Ok(if dead then Dead else Retry);
    }

    /**
      * metrics: while no row is both delivered and dead, the counters add up to
      * the table; the retrying rows are among the waiting ones.
      */
    method ReadMetrics(now: real) returns (m: Metrics, retrying: nat, oldestAge: real)
      ensures m == Count(table) && (Sane(table) ==> m.delivered + m.pending + m.dead == |table|)
      ensures retrying == |Retrying(table)| && retrying <= m.pending
      ensures IsOldestAge(table, now, oldestAge)
    {
      if Sane(table) { MetricsPartition(table); }
      m := Metrics(|LeaseQueue.Delivered(table)|, |Pending(table)|, |DeadLetters(table)|);
      SubsetSize(Retrying(table), Pending(table));
      retrying, oldestAge := |Retrying(table)|, 0.0;
      if Pending(table) != {} {
        ghost var oldest := OldestExists(table, Pending(table));
        assert OldestPending(table, oldest);
        var id :| id in table && OldestPending(table, id);
        oldestAge := Elapsed(table[id].message.createdAt, now);
      }
    }

    method RequeueDead(id: string, confirmation: string, now: real) returns (r: Result<bool, QueueError>)
      modifies this
      ensures var spec := Requeue(Outbox, old(table), id, confirmation, now);
              r == (if spec.Ok? then Ok(spec.value.1) else Err(spec.error))
              && table == if spec.Ok? then spec.value.0 else old(table)
    {
      if !IsHexId(id) { return Err(InvalidRequest); }
      if confirmation != "REQUEUE OUTBOX " + id { return Err(NotConfirmed); }
      if !Requeueable(table, id) { return Ok(false); }
      table := table[id := RequeuedRow(table[id], now)];
      r := Ok(true);
    }
  }

  type Sink = map<string, string>

  datatype RunResult = Empty | Delivered | Settled(outcome: Outcome)

  class OutboxWorker {
    const queue: GovernanceOutboxQueue
    const publisher: MemoryOutboxPublisher
    const worker: string
    const sha: Digest
    const loads: Loads
    const numberIs: NumberIs

    constructor (queue: GovernanceOutboxQueue, publisher: MemoryOutboxPublisher, worker: string,
                 sha: Digest, loads: Loads, numberIs: NumberIs)
      requires !Blank(worker)
      ensures this.queue == queue && this.publisher == publisher && this.worker == worker
      ensures this.sha == sha && this.loads == loads && this.numberIs == numberIs
    {
      this.queue, this.publisher, this.worker := queue, publisher, worker;
      this.sha, this.loads, this.numberIs := sha, loads, numberIs;
    }

    /**
      * run_once: claim at claimedAt, publish, settle at settledAt; up says that
      * the broker can be reached. The claimed row ends delivered with its exact
      * text in the sink, waiting or dead after a failed delivery, dead because
      * it can never be published, or still locked because the lease ran out or
      * the retry policy is invalid.
      */
    method RunOnce(lease: int, maxAttempts: int, delay: int, up: bool, claimedAt: real, settledAt: real, token: string)
      returns (r: Result<RunResult, QueueError>)
      requires !Blank(worker)
      modifies queue, publisher
      ensures lease <= 0 <==> r == Err(InvalidRequest)
      ensures lease > 0 ==>
                (r == Ok(Empty) <==> forall id :: id in old(queue.table) ==>
                   !Claimable(old(queue.table), id, claimedAt))
      ensures r == Err(InvalidRequest) || r == Ok(Empty) ==>
                queue.table == old(queue.table) && publisher.messages == old(publisher.messages)
      ensures lease > 0 && r != Ok(Empty) ==>
                exists id :: FirstCandidate(old(queue.table), id, claimedAt)
                             && Worked(old(queue.table), old(publisher.messages), id, lease, maxAttempts, delay, up,
                                       claimedAt, settledAt, token,
                                       queue.table, publisher.messages, r)
    {
      hide EarlierDelivered, Precedes, Blank, IsHexId, FromItem, Clip;
      var claimed := queue.Claim(worker, lease, claimedAt, token);
      if claimed.Err? { return Err(claimed.error); }
      if claimed.value.None? { return Ok(Empty); }
      var item := claimed.value.value;
      var message := FromItem(sha, loads, numberIs, item.id, item.row.message);
      FromItemKeeps(sha, loads, numberIs, item.id, item.row.message);
      if message.Err? {
        r := Refuse(item, message.error, settledAt);
      } else if !up {
        UnavailableShort();
        var failed := queue.Fail(item, UNAVAILABLE, false, maxAttempts, delay, settledAt);
        r := if failed.Err? then Err(failed.error) else Ok(Settled(failed.value));
      } else {
        var receipt := publisher.Publish(message.value);
        if receipt.None? {
          r := Refuse(item, "message identity collision", settledAt);
        } else {
          var done := queue.Acknowledge(item, receipt.value, settledAt);
          r := Ok(if done.value then Delivered else Settled(Stale));
        }
      }
      assert Worked(old(queue.table), old(publisher.messages), item.id, lease, maxAttempts, delay, up, claimedAt,
                    settledAt, token,
                    queue.table, publisher.messages, r);
    }

    /** A permanent error: the default policy, and no retry. */
    method Refuse(item: Item, error: string, now: real) returns (r: Result<RunResult, QueueError>)
      requires item.id in queue.table && LeaseQueue.Holds(queue.table, item)
      modifies queue
      ensures var inTime := HoldsLease(old(queue.table), item, now);
              r == Ok(Settled(if inTime then Dead else Stale))
              && queue.table == (if inTime then
                   old(queue.table)[item.id :=
                     FailedRow(old(queue.table)[item.id], true, now, Clip(error, MAX_ERROR), now)]
                 else old(queue.table))
    {
      var failed := queue.Fail(item, error, true, 5, 30, now);
      r := Ok(Settled(failed.value));
    }

    /** What one claimed row's turn leaves behind. */
    ghost predicate Worked(
      t: Table, sink: Sink, id: string, lease: int, maxAttempts: int, delay: int, up: bool,
      claimedAt: real, settledAt: real, token: string, u: Table, newSink: Sink, result: Result<RunResult, QueueError>)
      requires id in t
    {
      var row := ClaimedRow(t[id], worker, token, claimedAt + lease as real);
      var m := t[id].message;
      var ok := FromItem(sha, loads, numberIs, id, m).Ok?;
      var clash := id in sink && sink[id] != m.payload;
      var inTime := settledAt < claimedAt + lease as real;
      var exhausted := row.attempts >= maxAttempts;
      && newSink == (if ok && up && !clash then sink[id := m.payload] else sink)
      && (u.Keys == t.Keys && forall other :: other in t && other != id ==> u[other] == t[other])
      && (if ok && !up && (maxAttempts < 1 || delay < 0) then result == Err(InvalidPolicy) && u[id] == row
          else if !inTime then result == Ok(Settled(Stale)) && u[id] == row
          else if ok && up && !clash then
            result == Ok(RunResult.Delivered)
            && u[id] == row.(lock := None, delivered := Some(Delivery(settledAt, Broker(id))), lastError := None)
          else if ok && !up && !exhausted then
            result == Ok(Settled(Retry))
            && u[id] == row.(lock := None, availableAt := settledAt + delay as real, deadAt := None,
                             lastError := Some(UNAVAILABLE))
          else
            result == Ok(Settled(Dead)) && u[id].lastError.Some?
            && u[id] == row.(lock := None, availableAt := settledAt, deadAt := Some(settledAt),
                             lastError := u[id].lastError))
    }
  }
}
