/** state_store.py's external findings and run_minisoar_bridge, as objects. */
module MiniSoarBridge {
  import opened Basics
  import opened CanonicalJson
  import opened ChainedLog
  import opened AuditArchive
  import LogFiles
  import opened MiniSoar

  class StateStore {
    const sha: Digest
    var findings: map<string, FindingRow>
    var audit: map<string, AuditRow>

    function State(): Db
      reads this
    {
      Db(findings, audit)
    }

    /** UNIQUE(finding_id, evidence_hash). */
    ghost predicate Valid()
      reads this
    {
      OneImport(State())
    }

    constructor (sha: Digest)
      ensures this.sha == sha && State() == Db(map[], map[]) && Valid()
    {
      this.sha, findings, audit := sha, map[], map[];
    }

    /** record_external_finding_import: one transaction, or an error and no change. */
    method RecordImport(x: Fields, evidenceHash: string, now: real)
      returns (r: Result<(Action, Option<string>), ImportError>)
      requires Valid()
      modifies this
      ensures Valid()
      ensures var spec := Import(sha, old(State()), x, evidenceHash, now);
              if spec.Ok? then r == Ok((spec.value.action, spec.value.event)) && State() == spec.value.db
              else r == Err(spec.error) && State() == old(State())
    {
      hide EventId;
      if x.severity != "low" && x.severity != "medium" && x.severity != "high" && x.severity != "critical" {
        return Err(InvalidFinding);
      }
      if !IsHex64(evidenceHash) { return Err(InvalidHash); }
      if exists id :: id in audit && IsImport(State(), id, x.finding, evidenceHash) {
        var id :| id in audit && IsImport(State(), id, x.finding, evidenceHash);
        return Ok((Replayed, if audit[id].delivered.None? then Some(id) else None));
      }
      NoImport(State(), x.finding, evidenceHash);
      var action := NewAction(State(), x.finding);
      var row := FindingRow(x, now, now, 0, evidenceHash);
      if x.finding in findings {
        var was := findings[x.finding];
        row := was.(fields := x, updatedAt := now, reassessments := was.reassessments + 1, lastHash := evidenceHash);
      }
      var event := EventId(sha, x.finding, evidenceHash, EventType(action));
      if event in audit { return Err(IntegrityViolation); }
      ImportStaysUnique(sha, State(), x, evidenceHash, now);
      findings := findings[x.finding := row];
      audit := audit[event := AuditRow(x.finding, evidenceHash, EventType(action), x.control, x.source, now, None)];
      r := Ok((action, Some(event)));
    }

    method MarkAuditDelivered(id: string, now: real) returns (known: bool)
      requires Valid()
      modifies this
      ensures Valid()
      ensures var spec := MarkDelivered(old(State()), id, now);
              known == spec.Some? && State() == if spec.Some? then spec.value else old(State())
    {
      if id !in audit { return false; }
      MarkStaysUnique(State(), id, now);
      var row := audit[id];
      if row.delivered.None? {
        row := row.(delivered := Some(now));
      }
      audit := audit[id := row];
      known := true;
    }
  }

  lemma NoImport(db: Db, finding: string, evidenceHash: string)
    requires !exists id :: id in db.audit && IsImport(db, id, finding, evidenceHash)
    ensures !exists id :: IsImport(db, id, finding, evidenceHash)
  {
    forall id ensures !IsImport(db, id, finding, evidenceHash) {
      assert IsImport(db, id, finding, evidenceHash) ==> id in db.audit;
    }
  }

  lemma ImportStaysUnique(sha: Digest, db: Db, x: Fields, evidenceHash: string, now: real)
    requires OneImport(db) && !exists id :: IsImport(db, id, x.finding, evidenceHash)
    ensures ImportNew(sha, db, x, evidenceHash, now).Ok? ==>
              OneImport(ImportNew(sha, db, x, evidenceHash, now).value.db)
  {
    hide EventId;
    if ImportNew(sha, db, x, evidenceHash, now).Ok? {
      var r := ImportNew(sha, db, x, evidenceHash, now).value;
      var id := r.event.value;
      forall a, b | a in r.db.audit && IsImport(r.db, b, r.db.audit[a].finding, r.db.audit[a].evidenceHash)
        ensures a == b
      {
        assert a != id && b != id ==> IsImport(db, b, db.audit[a].finding, db.audit[a].evidenceHash);
        assert a == id && b != id ==> IsImport(db, b, x.finding, evidenceHash);
        assert a != id && b == id ==> IsImport(db, a, x.finding, evidenceHash);
      }
    }
  }

  lemma MarkStaysUnique(db: Db, id: string, now: real)
    requires OneImport(db) && id in db.audit
    ensures OneImport(MarkDelivered(db, id, now).value)
  {
    var r := MarkDelivered(db, id, now).value;
    forall a, b | a in r.audit && IsImport(r, b, r.audit[a].finding, r.audit[a].evidenceHash) ensures a == b {
      assert IsImport(db, b, db.audit[a].finding, db.audit[a].evidenceHash);
    }
  }

  datatype BridgeResult = StorageFailed(reason: ImportError) | DeliveryFailed(action: Action,
      error: LogError) | Delivered(action: Action)

  /**
    * run_minisoar_bridge from a normalized finding on: without an error, the
    * event is in the log and marked; with one, everything before it stays.
    */
  method RunBridge(
    store: StateStore, log: LogFiles.AuditLog, x: Fields, evidenceHash: string, now: real, recordedAt: string,
    markedAt: real)
    returns (r: BridgeResult)
    requires store.Valid() && log.Valid()
    modifies store, log
    ensures store.Valid()
    ensures var done := Import(store.sha, old(store.State()), x, evidenceHash, now);
            if done.Err? then
              r == StorageFailed(done.error) && store.State() == old(store.State()) && log.text == old(log.text)
            else if done.value.event.None? then
              r == Delivered(done.value.action) && store.State() == old(store.State()) && log.text == old(log.text)
            else
              var id := done.value.event.value;
              id in done.value.db.audit
              && var entry := EntryOf(id, done.value.db.audit[id]);
                 var appended := AppendOnce(log.sha, log.loads, old(log.text), entry, recordedAt);
                 if appended.Err? then
                   r == DeliveryFailed(done.value.action, appended.error) && store.State() == done.value.db
                     && log.text == old(log.text)
                 else
                   r == Delivered(done.value.action) && log.text == appended.value.0
                   && store.State() == MarkDelivered(done.value.db, id, markedAt).value
  {
    hide Import, AppendOnce, MarkDelivered;
    var imported := store.RecordImport(x, evidenceHash, now);
    if imported.Err? { return StorageFailed(imported.error); }
    ImportEvent(store.sha, old(store.State()), x, evidenceHash, now);
    if imported.value.1.None? { return Delivered(imported.value.0); }
    var id := imported.value.1.value;
    var entry := EntryOf(id, store.audit[id]);
    EntryValid(id, store.audit[id]);
    var appended := log.AppendIdempotent(entry, recordedAt);
    if appended.Err? { return DeliveryFailed(imported.value.0, appended.error); }
    MarkKnown(store.State(), id, markedAt);
    var known := store.MarkAuditDelivered(id, markedAt);
    r := Delivered(imported.value.0);
  }

  lemma MarkKnown(db: Db, id: string, now: real)
    ensures MarkDelivered(db, id, now).Some? <==> id in db.audit
  {
  }

  lemma ImportEvent(sha: Digest, db: Db, x: Fields, evidenceHash: string, now: real)
    requires Import(sha, db, x, evidenceHash, now).Ok?
    ensures var r := Import(sha, db, x, evidenceHash, now).value;
            (r.event.Some? ==> r.event.value in r.db.audit) && (r.event.None? ==> r.db == db)
  {
    ImportIs(sha, db, x, evidenceHash, now);
  }
}
