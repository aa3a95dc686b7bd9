/** audit_delivery.py: the audit export queue and its archive worker, as objects. */
module AuditDelivery {
  import opened Basics
  import opened CanonicalJson
  import opened ChainedLog
  import opened LeaseQueue
  import opened AuditArchive

  class AuditExportQueue {
    var table: Table

    constructor ()
      ensures table == map[]
    {
      table := map[];
    }

    method Claim(worker: string, lease: int, now: real, token: string) returns (r: Result<Option<Item>, QueueError>)
      modifies this
      ensures Blank(worker) || lease <= 0 ==> r == Err(InvalidRequest) && table == old(table)
      ensures !Blank(worker) && lease > 0 ==>
                r.Ok? && (r.value.None? <==> forall id :: id in old(table) ==> !Claimable(old(table), id, now))
                && (r.value.None? ==> table == old(table))
      ensures r.Ok? && r.value.Some? ==>
                var id := r.value.value.id;
                FirstCandidate(old(table), id, now)
                && table == Claimed(old(table), id, worker, token, now + lease as real)
                && r.value.value.row == table[id]
    {
      if Blank(worker) || lease <= 0 {
        return Err(InvalidRequest);
      }
      var candidates := set id | id in table && Claimable(table, id, now);
      if candidates == {} {
        assert forall id :: id in table && Claimable(table, id, now) ==> id in candidates;
        return Ok(None);
      }
      ghost var first := FirstExists(table, candidates, now);
      assert FirstCandidate(table, first, now);
      var id :| id in table && FirstCandidate(table, id, now);
      table := Claimed(table, id, worker, token, now + lease as real);
      r := Ok(Some(Item(id, table[id])));
    }

    method Acknowledge(item: Item, archived: Receipt, now: real) returns (updated: bool)
      modifies this
      ensures (table, updated) == AckAudit(old(table), item, archived, now)
    {
      if !HoldsLease(table, item, now) { return false; }
      var row := table[item.id].(delivered := Some(Delivery(now, archived)), lock := None, lastError := None);
      table := table[item.id := row];
      updated := true;
    }

    method Fail(item: Item, maxAttempts: int, delay: int, now: real) returns (r: Result<Outcome, QueueError>)
      modifies this
      ensures var spec := FailAudit(old(table), item, maxAttempts, delay, now);
              r == (if spec.Ok? then Ok(spec.value.1) else Err(spec.error))
              && table == if spec.Ok? then spec.value.0 else old(table)
    {
      if maxAttempts < 1 || delay < 0 { return Err(InvalidPolicy); }
      var dead := item.row.attempts >= maxAttempts;
      if !LeaseQueue.Holds(table, item) { return Ok(Stale); }
      table := table[item.id := FailedRow(table[item.id], dead, now + delay as real, ARCHIVE_FAILED, now)];
      r := Ok(if dead then Dead else Retry);
    }

    /** metrics: while no row is both delivered and dead, the counters add up to the table. */
    method ReadMetrics() returns (m: Metrics)
      ensures m == Count(table) && (Sane(table) ==> m.delivered + m.pending + m.dead == |table|)
    {
      if Sane(table) { MetricsPartition(table); }
      m := Metrics(|LeaseQueue.Delivered(table)|, |Pending(table)|, |DeadLetters(table)|);
    }

    method RequeueDead(id: string, confirmation: string, now: real) returns (r: Result<bool, QueueError>)
      modifies this
      ensures var spec := Requeue(Audit, old(table), id, confirmation, now);
              r == (if spec.Ok? then Ok(spec.value.1) else Err(spec.error))
              && table == if spec.Ok? then spec.value.0 else old(table)
    {
      if !IsHexId(id) { return Err(InvalidRequest); }
      if confirmation != "REQUEUE " + id { return Err(NotConfirmed); }
      if !Requeueable(table, id) { return Ok(false); }
      table := table[id := RequeuedRow(table[id], now)];
      r := Ok(true);
    }
  }

  datatype ArchiveResult = Empty | Archived | Settled(outcome: Outcome)

  class AuditExportWorker {
    const queue: AuditExportQueue
    const archive: MemoryAuditArchive
    const worker: string
    const loads: Loads

    constructor (queue: AuditExportQueue, archive: MemoryAuditArchive, worker: string, loads: Loads)
      requires !Blank(worker)
      ensures this.queue == queue && this.archive == archive && this.worker == worker && this.loads == loads
    {
      this.queue, this.archive, this.worker, this.loads := queue, archive, worker, loads;
    }

    /**
      * run_once: a claimed row ends archived with its object stored, retried or
      * dead when the event is refused, or still locked when the lease ran out or
      * the retry policy is invalid.
      */
    method RunOnce(lease: int, claimedAt: real, settledAt: real, token: string, maxAttempts: int, delay: int)
      returns (r: Result<ArchiveResult, QueueError>)
      requires !Blank(worker)
      modifies queue, archive
      ensures lease <= 0 <==> r == Err(InvalidRequest)
      ensures lease > 0 ==>
                (r == Ok(Empty) <==> forall id :: id in old(queue.table) ==>
                   !Claimable(old(queue.table), id, claimedAt))
      ensures r == Err(InvalidRequest) || r == Ok(Empty) ==>
                queue.table == old(queue.table) && archive.objects == old(archive.objects)
      ensures lease > 0 && r != Ok(Empty) ==>
                exists id :: FirstCandidate(old(queue.table), id, claimedAt)
                             && Worked(old(queue.table), old(archive.objects), id, lease, claimedAt, settledAt, token,
                                       maxAttempts, delay,
                                       queue.table, archive.objects, r)
    {
      hide SerializeEvent, EarlierDelivered, Precedes, Utf8Size, Blank;
      var claimed := queue.Claim(worker, lease, claimedAt, token);
      if claimed.Err? { return Err(claimed.error); }
      if claimed.value.None? { return Ok(Empty); }
      var item := claimed.value.value;
      var archived := Persist(item.row.message.payload);
      hide Stored;
      if archived.Ok? {
        var updated := queue.Acknowledge(item, archived.value, settledAt);
        r := Ok(if updated then ArchiveResult.Archived else Settled(Stale));
        assert Worked(old(queue.table), old(archive.objects), item.id, lease, claimedAt, settledAt, token, maxAttempts,
                      delay,
                      queue.table, archive.objects, r);
        return;
      }
      var failed := queue.Fail(item, maxAttempts, delay, settledAt);
      r := if failed.Err? then Err(failed.error) else Ok(Settled(failed.value));
      assert Worked(old(queue.table), old(archive.objects), item.id, lease, claimedAt, settledAt, token, maxAttempts,
                    delay,
                    queue.table, archive.objects, r);
    }

    /** The payload, parsed and stored; any exception on the way is an error. */
    method Persist(payload: string) returns (r: Result<Receipt, ArchiveError>)
      modifies archive
      ensures var s := Stored(payload);
              && archive.objects == (if s.Err? || s.value.key in old(archive.objects) then old(archive.objects)
                                     else old(archive.objects)[s.value.key := s.value.content])
              && (r.Ok? <==> s.Ok? && archive.sha(archive.objects[s.value.key]) == s.value.digest)
              && (r.Ok? ==>
                    r.value == Receipt.Archived(s.value.key, s.value.digest, Utf8Size(s.value.content), s.value.digest))
    {
      hide SerializeEvent, Utf8Size;
      var event := loads(payload);
      if event.None? { return Err(InvalidEvent); }
      r := archive.PersistEvent(event.value);
    }

    function Stored(payload: string): Result<Serialized, ArchiveError> {
      var event := loads(payload);
      if event.None? then Err(InvalidEvent) else SerializeEvent(archive.sha, event.value)
    }

    /** What one claimed row's turn leaves behind; a refusal reaches the row even after its lease ran out. */
    ghost predicate Worked(
      t: Table, objects: map<string, string>, id: string, lease: int, claimedAt: real, settledAt: real, token: string,
      maxAttempts: int, delay: int, u: Table, newObjects: map<string, string>,
      result: Result<ArchiveResult, QueueError>)
      requires id in t
    {
      var row := ClaimedRow(t[id], worker, token, claimedAt + lease as real);
      var s := Stored(t[id].message.payload);
      && newObjects == (if s.Err? || s.value.key in objects then objects else objects[s.value.key := s.value.content])
      && (u.Keys == t.Keys && forall other :: other in t && other != id ==> u[other] == t[other])
      && (if s.Ok? && archive.sha(newObjects[s.value.key]) == s.value.digest then
            if settledAt < claimedAt + lease as real then
              result == Ok(ArchiveResult.Archived)
              && u[id] == row.(lock := None, lastError := None, delivered := Some(Delivery(settledAt,
                   Receipt.Archived(s.value.key, s.value.digest, Utf8Size(s.value.content), s.value.digest))))
            else result == Ok(Settled(Stale)) && u[id] == row
          else if maxAttempts < 1 || delay < 0 then result == Err(InvalidPolicy) && u[id] == row
          else
            var dead := row.attempts >= maxAttempts;
            result == Ok(Settled(if dead then Dead else Retry))
            && u[id] == row.(lock := None, availableAt := settledAt + delay as real,
                             deadAt := if dead then Some(settledAt) else None, lastError := Some(ARCHIVE_FAILED)))
    }
  }
}
