/**
  * The Mini-SOAR bridge: a database transaction that records the import and
  * its audit event, then an idempotent append to the audit log, then a mark
  * that the event was delivered. Any number of bridge processes run the three
  * steps interleaved; any of them may crash between two steps.
  */
module MiniSoar {
  import opened Basics
  import opened CanonicalJson
  import opened ChainedLog
  import opened AuditArchive

  const CONNECTOR_ACTOR := "minisoar-bridge-connector"

  /** The finding's columns; details is its JSON text. */
  datatype Fields = Fields(
    finding: string, source: string, control: string, asset: string, title: string, riskOwner: string,
    severity: string, details: string)

  datatype FindingRow = FindingRow(fields: Fields, createdAt: real, updatedAt: real, reassessments: nat,
                                   lastHash: string)

  datatype AuditRow = AuditRow(
    finding: string, evidenceHash: string, eventType: string, control: string, source: string,
    createdAt: real, delivered: Option<real>)

  datatype Db = Db(findings: map<string, FindingRow>, audit: map<string, AuditRow>)

  datatype Action = Created | Reassessed | Replayed

  datatype ImportError = InvalidFinding | InvalidHash | IntegrityViolation

  /** What the transaction reports: the action, and the audit event still to deliver. */
  datatype Imported = Imported(db: Db, action: Action, event: Option<string>)

  predicate IsImport(db: Db, id: string, finding: string, evidenceHash: string) {
    id in db.audit && db.audit[id].finding == finding && db.audit[id].evidenceHash == evidenceHash
  }

  function ActionName(a: Action): string {
    match a case Created => "created" case Reassessed => "reassessed" case Replayed => "replayed"
  }

  function EventType(a: Action): string {
    "bridge.minisoar.finding." + ActionName(a)
  }

  function EventId(sha: Digest, finding: string, evidenceHash: string, eventType: string): string {
    var h := sha("minisoar-audit|" + finding + "|" + evidenceHash + "|" + eventType);
    if |h| <= 24 then h else h[..24]
  }

  function NewAction(db: Db, finding: string): Action {
    if finding in db.findings then Reassessed else Created
  }

  function Recorded(db: Db, x: Fields, evidenceHash: string, now: real): FindingRow {
    if x.finding in db.findings then
      db.findings[x.finding].(fields := x, updatedAt := now, reassessments := db.findings[x.finding].reassessments + 1,
                              lastHash := evidenceHash)
    else FindingRow(x, now, now, 0, evidenceHash)
  }

  /** record_external_finding_import on a finding and hash not imported before. */
  function ImportNew(sha: Digest, db: Db, x: Fields, evidenceHash: string, now: real): Result<Imported, ImportError> {
    var action := NewAction(db, x.finding);
    var id := EventId(sha, x.finding, evidenceHash, EventType(action));
    if id in db.audit then Err(IntegrityViolation)
    else
      var row := AuditRow(x.finding, evidenceHash, EventType(action), x.control, x.source, now, None);
      Ok(Imported(Db(db.findings[x.finding := Recorded(db, x, evidenceHash, now)], db.audit[id := row]), action,
                  Some(id)))
  }

  ghost function Import(
    sha: Digest, db: Db, x: Fields, evidenceHash: string, now: real): Result<Imported, ImportError> {
    if x.severity !in {"low", "medium", "high", "critical"} then Err(InvalidFinding)
    else if !IsHex64(evidenceHash) then Err(InvalidHash)
    else if id :| IsImport(db, id, x.finding, evidenceHash) then
      Ok(Imported(db, Replayed, if db.audit[id].delivered.None? then Some(id) else None))
    else ImportNew(sha, db, x, evidenceHash, now)
  }

  /** mark_external_finding_audit_delivered: the first delivery time stays. */
  function MarkDelivered(db: Db, id: string, now: real): Option<Db> {
    if id !in db.audit then None
    else
      var row := db.audit[id];
      Some(db.(audit := db.audit[id := row.(delivered := if row.delivered.Some? then row.delivered else Some(now))]))
  }

  /** What append_idempotent is asked to record for an event. */
  function EntryOf(id: string, row: AuditRow): Entry {
    Entry(id, row.eventType, Str(CONNECTOR_ACTOR), row.finding,
          Obj([Member("control_id", Str(row.control)), Member("source", Str(row.source))]))
  }

  // ----- Bridge processes -----

  datatype Process = Process(id: string, logged: bool)

  datatype Bridge = Bridge(
    db: Db, log: string, processes: map<nat, Process>,
    completed: set<(string, string)>)  // the (finding, evidence hash) of every run that ended without an error

  datatype Step =
    | Begin(p: nat, fields: Fields, evidenceHash: string, now: real)
    | Append(p: nat, recordedAt: string)
    | Mark(p: nat, now: real)
    | Crash(p: nat)

  const START := Bridge(Db(map[], map[]), "", map[], {})

  /** The identifiers the connector produces hold no line separators. */
  ghost predicate Plain(x: Fields) {
    BreakFreeText(x.finding) && BreakFreeText(x.control) && BreakFreeText(x.source)
  }

  ghost predicate Enabled(s: Bridge, step: Step) {
    match step
    case Begin(p, fields, _, _) => p !in s.processes && Plain(fields)
    case Append(p, recordedAt) => p in s.processes && !s.processes[p].logged && BreakFreeText(recordedAt)
    case Mark(p, _) => p in s.processes && s.processes[p].logged
    case Crash(p) => p in s.processes
  }

  function Subject(db: Db, id: string): (string, string) {
    if id in db.audit then (db.audit[id].finding, db.audit[id].evidenceHash) else ("", "")
  }

  ghost function After(sha: Digest, loads: Loads, s: Bridge, step: Step): Bridge
    requires Enabled(s, step)
  {
    match step
    case Begin(p, fields, evidenceHash, now) =>
      var done := Import(sha, s.db, fields, evidenceHash, now);
      if done.Err? then s
      else if done.value.event.None? then s.(completed := s.completed + {(fields.finding, evidenceHash)})
      else s.(db := done.value.db, processes := s.processes[p := Process(done.value.event.value, false)])
    case Append(p, recordedAt) =>
      var id := s.processes[p].id;
      if id !in s.db.audit then s
      else
        var done := AppendOnce(sha, loads, s.log, EntryOf(id, s.db.audit[id]), recordedAt);
        if done.Err? then s.(processes := s.processes - {p})
        else s.(log := done.value.0, processes := s.processes[p := Process(id, true)])
    case Mark(p, now) =>
      var id := s.processes[p].id;
      var done := MarkDelivered(s.db, id, now);
      if done.None? then s.(processes := s.processes - {p})
      else s.(db := done.value, processes := s.processes - {p}, completed := s.completed + {Subject(s.db, id)})
    case Crash(p) => s.(processes := s.processes - {p})
  }

  ghost function Run(sha: Digest, loads: Loads, steps: seq<Step>): Option<Bridge>
    decreases |steps|
  {
    if steps == [] then Some(START)
    else
      var before := Run(sha, loads, steps[..|steps| - 1]);
      if before.Some? && Enabled(before.value, steps[|steps| - 1]) then
        Some(After(sha, loads, before.value, steps[|steps| - 1]))
      else None
  }

  // ----- What every state keeps -----

  function LogRecords(loads: Loads, log: string): seq<Json> {
    var r := Records(loads, Lines(log));
    if r.Some? then r.value else []
  }

  ghost predicate InLog(vs: seq<Json>, id: string) {
    exists v :: v in vs && HasId(v, id)
  }

  /** An outbox row's id is computed from its content, and its text is plain. */
  ghost predicate RowOk(sha: Digest, db: Db, id: string)
    requires id in db.audit
  {
    var row := db.audit[id];
    && id == EventId(sha, row.finding, row.evidenceHash, row.eventType)
    && BreakFreeText(row.finding) && BreakFreeText(row.eventType) && BreakFreeText(row.control)
       && BreakFreeText(row.source)
    && row.finding in db.findings
  }

  /** UNIQUE(finding_id, evidence_hash). */
  ghost predicate OneImport(db: Db) {
    forall a, b :: a in db.audit && IsImport(db, b, db.audit[a].finding, db.audit[a].evidenceHash) ==> a == b
  }

  function Hashes(db: Db, finding: string): set<string> {
    set id | id in db.audit && db.audit[id].finding == finding :: db.audit[id].evidenceHash
  }

  ghost predicate DbOk(sha: Digest, db: Db) {
    && (forall id :: id in db.audit ==> RowOk(sha, db, id))
    && OneImport(db)
    && forall f :: f in db.findings ==> db.findings[f].reassessments + 1 == |Hashes(db, f)|
  }

  /** A record of the log belongs to an outbox row and says what the row says. */
  ghost predicate RecordOk(db: Db, v: Json) {
    forall id :: HasId(v, id) ==> id in db.audit && Matches(v, EntryOf(id, db.audit[id]))
  }

  ghost predicate LogOk(sha: Digest, loads: Loads, s: Bridge) {
    Sound(sha, loads, s.log) && forall v :: v in LogRecords(loads, s.log) ==> RecordOk(s.db, v)
  }

  predicate ProcessOk(loads: Loads, s: Bridge, p: nat)
    requires p in s.processes
  {
    s.processes[p].id in s.db.audit && (s.processes[p].logged ==> Logged(loads, s, s.processes[p].id))
  }

  predicate Logged(loads: Loads, s: Bridge, id: string) {
    FindEvent(LogRecords(loads, s.log), id).Some?
  }

  ghost predicate CompletedOk(loads: Loads, s: Bridge, f: string, h: string) {
    exists id :: IsImport(s.db, id, f, h) && Logged(loads, s, id)
  }

  ghost predicate Inv(sha: Digest, loads: Loads, s: Bridge) {
    && DbOk(sha, s.db) && LogOk(sha, loads, s)
    && (forall p :: p in s.processes ==> ProcessOk(loads, s, p))
    && (forall id :: id in s.db.audit && s.db.audit[id].delivered.Some? ==> Logged(loads, s, id))
    && (forall f, h :: (f, h) in s.completed ==> CompletedOk(loads, s, f, h))
  }

  lemma HexPlain(sha: Digest)
    requires Hexadecimal(sha)
    ensures PlainDigest(sha)
  {
    forall x ensures BreakFreeText(sha(x)) { assert IsHex64(sha(x)); }
  }

  lemma EventIdText(sha: Digest, f: string, h: string, t: string)
    requires Hexadecimal(sha)
    ensures !Blank(EventId(sha, f, h, t)) && BreakFreeText(EventId(sha, f, h, t))
  {
    var d := sha("minisoar-audit|" + f + "|" + h + "|" + t);
    assert IsHex64(d);
    assert !IsSpace(d[0]);
    assert EventId(sha, f, h, t)[0] == d[0];
  }

  /** One import more of a finding is one evidence hash more. */
  lemma HashAdded(db: Db, id: string, row: AuditRow, f: string)
    requires id !in db.audit
    ensures Hashes(db.(audit := db.audit[id := row]), f)
            == Hashes(db, f) + (if row.finding == f then {row.evidenceHash} else {})
  {
    var more := db.(audit := db.audit[id := row]);
    assert forall x :: x in db.audit ==> x in more.audit && more.audit[x] == db.audit[x];
    forall h | h in Hashes(more, f) ensures h in Hashes(db, f) + (if row.finding == f then {row.evidenceHash} else {}) {
      var x :| x in more.audit && more.audit[x].finding == f && more.audit[x].evidenceHash == h;
    }
    forall h | h in Hashes(db, f) ensures h in Hashes(more, f) {
      var x :| x in db.audit && db.audit[x].finding == f && db.audit[x].evidenceHash == h;
      assert more.audit[x] == db.audit[x];
    }
    assert row.finding == f ==> more.audit[id].evidenceHash in Hashes(more, f);
  }

  /** A new import keeps ids, uniqueness and the reassessment count in step. */
  lemma ImportKeepsDb(sha: Digest, db: Db, x: Fields, evidenceHash: string, now: real)
    requires DbOk(sha, db) && Plain(x) && IsHex64(evidenceHash)
    requires forall id :: !IsImport(db, id, x.finding, evidenceHash)
    requires ImportNew(sha, db, x, evidenceHash, now).Ok?
    ensures DbOk(sha, ImportNew(sha, db, x, evidenceHash, now).value.db)
  {
    hide BreakFreeText, Hashes, EventId, IsHex64;
    var r := ImportNew(sha, db, x, evidenceHash, now).value;
    var id, row := r.event.value, r.db.audit[r.event.value];
    ImportRows(sha, db, x, evidenceHash, now);
    forall f | f in r.db.findings ensures r.db.findings[f].reassessments + 1 == |Hashes(r.db, f)| {
      HashAdded(db, id, row, f);
      HashesSame(db.(audit := db.audit[id := row]), r.db, f);
      if f == x.finding {
        HashNotYet(db, f, evidenceHash);
        if f !in db.findings { NoHashes(sha, db, f); }
      }
    }
  }

  lemma HashNotYet(db: Db, f: string, evidenceHash: string)
    requires forall id :: !IsImport(db, id, f, evidenceHash)
    ensures evidenceHash !in Hashes(db, f)
  {
    assert forall a :: a in db.audit ==> !IsImport(db, a, f, evidenceHash);
  }

  lemma ImportRows(sha: Digest, db: Db, x: Fields, evidenceHash: string, now: real)
    requires DbOk(sha, db) && Plain(x)
    requires forall id :: !IsImport(db, id, x.finding, evidenceHash)
    requires ImportNew(sha, db, x, evidenceHash, now).Ok?
    ensures var r := ImportNew(sha, db, x, evidenceHash, now).value.db;
            (forall a :: a in r.audit ==> RowOk(sha, r, a)) && OneImport(r)
  {
    hide Hashes, EventId, Recorded;
    var r := ImportNew(sha, db, x, evidenceHash, now).value;
    var id := r.event.value;
    TypePlain();
    forall a | a in r.db.audit ensures RowOk(sha, r.db, a) { assert a != id ==> RowOk(sha, db, a); }
    forall a, b | a in r.db.audit && IsImport(r.db, b, r.db.audit[a].finding, r.db.audit[a].evidenceHash)
      ensures a == b
    {
      assert a != id && b != id ==> IsImport(db, b, db.audit[a].finding, db.audit[a].evidenceHash);
      assert a == id && b != id ==> IsImport(db, b, x.finding, evidenceHash);
      assert a != id && b == id ==> IsImport(db, a, x.finding, evidenceHash);
    }
  }

  lemma TypePlain()
    ensures forall a: Action :: BreakFreeText(EventType(a))
  {
  }

  lemma NoHashes(sha: Digest, db: Db, f: string)
    requires DbOk(sha, db) && f !in db.findings
    ensures Hashes(db, f) == {}
  {
    forall a | a in db.audit ensures db.audit[a].finding != f { assert RowOk(sha, db, a); }
  }

  // ----- Steps -----

  lemma EntryPlain(loads: Loads, sha: Digest, db: Db, id: string)
    requires Hexadecimal(sha) && DbOk(sha, db) && id in db.audit
    ensures HeldEntry(loads, EntryOf(id, db.audit[id])) && !Blank(id)
    ensures forall at :: BreakFreeText(at) ==> BreakFreeEntry(EntryOf(id, db.audit[id]), at)
  {
    hide EventId, Hashes, OneImport, WellFormed;
    var row := db.audit[id];
    assert RowOk(sha, db, id);
    EntryValid(id, row);
    EventIdText(sha, row.finding, row.evidenceHash, row.eventType);
    var ms := EntryOf(id, row).details.members;
    assert BreakFreeText(CONNECTOR_ACTOR) && BreakFreeText("control_id") && BreakFreeText("source");
    forall i | 0 <= i < |ms| ensures BreakFreeMember(ms[i]) && NumbersKept(loads, ms[i].value) {}
  }

  lemma EntryValid(id: string, row: AuditRow)
    ensures ValidEntry(EntryOf(id, row))
  {
    var ms := EntryOf(id, row).details.members;
    assert ms[0].key[0] != ms[1].key[0];
  }

  lemma FoundIffIn(vs: seq<Json>, id: string)
    ensures FindEvent(vs, id).Some? <==> InLog(vs, id)
  {
    if v :| v in vs && HasId(v, id) {
      var i :| 0 <= i < |vs| && vs[i] == v;
    }
  }

  /** One record more, for that event alone. */
  ghost predicate AddsRecord(loads: Loads, log: string, more: string, e: Entry) {
    exists v :: Records(loads, Lines(more)) == Some(LogRecords(loads, log) + [v]) && Matches(v, e)
                && forall x :: HasId(v, x) <==> x == e.eventId
  }

  lemma AppendDone(sha: Digest, loads: Loads, s: Bridge, id: string, recordedAt: string)
    requires Reads(loads, false) && Hexadecimal(sha) && DbOk(sha, s.db) && LogOk(sha, loads, s)
    requires id in s.db.audit && BreakFreeText(recordedAt)
    ensures var e := EntryOf(id, s.db.audit[id]); var done := AppendOnce(sha, loads, s.log, e, recordedAt);
            done.Ok? && Sound(sha, loads, done.value.0)
            && if done.value.1 then AddsRecord(loads, s.log, done.value.0, e)
               else done.value.0 == s.log && InLog(LogRecords(loads, s.log), id)
  {
    hide HasId, Matches, Sound, Reads, PlainDigest, BreakFreeEntry, HeldEntry, DbOk, AppendOnce, Records, Lines;
    var e := EntryOf(id, s.db.audit[id]);
    var vs := LogRecords(loads, s.log);
    SoundReads(sha, loads, s.log);
    HexPlain(sha);
    EntryPlain(loads, sha, s.db, id);
    AppendOnceSound(sha, loads, s.log, e, recordedAt);
    forall v | v in vs && HasId(v, id) ensures Matches(v, e) { assert RecordOk(s.db, v); }
  }

  /**
    * The append of an outbox event never fails, binds the event id to that
    * event, and leaves every other event of the log where it was.
    */
  lemma AppendOk(sha: Digest, loads: Loads, s: Bridge, id: string, recordedAt: string)
    requires Reads(loads, false) && Hexadecimal(sha) && DbOk(sha, s.db) && LogOk(sha, loads, s)
    requires id in s.db.audit && BreakFreeText(recordedAt)
    ensures var done := AppendOnce(sha, loads, s.log, EntryOf(id, s.db.audit[id]), recordedAt);
            && done.Ok? && var r := s.(log := done.value.0);
               LogOk(sha, loads, r) && forall x :: Logged(loads, r, x) <==> Logged(loads, s, x) || x == id
  {
    hide HasId, Matches, Sound, Reads, DbOk, AppendOnce, EntryOf;
    AppendDone(sha, loads, s, id, recordedAt);
    var e := EntryOf(id, s.db.audit[id]);
    var done := AppendOnce(sha, loads, s.log, e, recordedAt);
    var r := s.(log := done.value.0);
    var vs, ws := LogRecords(loads, s.log), LogRecords(loads, r.log);
    if done.value.1 {
      assert e.eventId == id by { EntryId(id, s.db.audit[id]); }
      var v :| Records(loads, Lines(r.log)) == Some(vs + [v]) && Matches(v, e) && forall x :: HasId(v, x) <==> x == id;
      assert ws == vs + [v];
      assert RecordOk(s.db, v);
      forall x ensures Logged(loads, r, x) <==> Logged(loads, s, x) || x == id {
        FoundIffIn(vs, x);
        FoundIffIn(ws, x);
        InLogAppend(vs, v, x);
      }
    } else {
      FoundIffIn(vs, id);
    }
  }

  lemma EntryId(id: string, row: AuditRow)
    ensures EntryOf(id, row).eventId == id
  {
  }

  lemma InLogAppend(vs: seq<Json>, v: Json, x: string)
    ensures InLog(vs + [v], x) <==> InLog(vs, x) || HasId(v, x)
  {
    hide HasId;
    if HasId(v, x) { assert v in vs + [v]; }
    if InLog(vs, x) {
      var u :| u in vs && HasId(u, x);
      assert u in vs + [v];
    }
  }

  lemma SoundReads(sha: Digest, loads: Loads, log: string)
    requires Sound(sha, loads, log)
    ensures Records(loads, Lines(log)).Some?
  {
  }

  lemma AppendKeepsInv(sha: Digest, loads: Loads, s: Bridge, p: nat, recordedAt: string)
    requires Reads(loads, false) && Hexadecimal(sha) && Inv(sha, loads, s)
    requires Enabled(s, Append(p, recordedAt))
    ensures Inv(sha, loads, After(sha, loads, s, Append(p, recordedAt)))
  {
    hide DbOk, LogOk, AppendOnce, Logged, Reads, EntryOf, CompletedOk, BreakFreeText;
    assert ProcessOk(loads, s, p);
    AppendOk(sha, loads, s, s.processes[p].id, recordedAt);
    var r := After(sha, loads, s, Append(p, recordedAt));
    LogOkSame(sha, loads, s.(log := r.log), r);
    LoggedSame(loads, s.(log := r.log), r);
    forall q | q in r.processes ensures ProcessOk(loads, r, q) { assert q != p ==> ProcessOk(loads, s, q); }
    forall f, h | (f, h) in r.completed ensures CompletedOk(loads, r, f, h) { CompletedKept(loads, s, r, f, h); }
  }

  lemma LogOkSame(sha: Digest, loads: Loads, s: Bridge, r: Bridge)
    requires s.log == r.log && s.db.audit == r.db.audit
    ensures LogOk(sha, loads, s) ==> LogOk(sha, loads, r)
  {
    hide Matches, HasId;
    forall v | RecordOk(s.db, v) ensures RecordOk(r.db, v) {}
  }

  lemma LoggedSame(loads: Loads, s: Bridge, r: Bridge)
    requires s.log == r.log
    ensures forall x :: Logged(loads, s, x) <==> Logged(loads, r, x)
  {
  }

  /** What was imported and logged stays imported and logged. */
  lemma CompletedKept(loads: Loads, s: Bridge, r: Bridge, f: string, h: string)
    requires CompletedOk(loads, s, f, h)
    requires forall id :: IsImport(s.db, id, f, h) ==> IsImport(r.db, id, f, h)
    requires forall x :: Logged(loads, s, x) ==> Logged(loads, r, x)
    ensures CompletedOk(loads, r, f, h)
  {
    hide Logged;
    var id :| IsImport(s.db, id, f, h) && Logged(loads, s, id);
  }

  /** The audit rows grow only; what a record of the log matched, it still matches. */
  lemma LogOkGrows(sha: Digest, loads: Loads, s: Bridge, r: Bridge)
    requires LogOk(sha, loads, s) && r.log == s.log
    requires forall id :: id in s.db.audit ==>
               id in r.db.audit && EntryOf(id, r.db.audit[id]) == EntryOf(id, s.db.audit[id])
    ensures LogOk(sha, loads, r)
  {
    hide Matches, HasId, Sound, EntryOf;
    forall v | v in LogRecords(loads, r.log) ensures RecordOk(r.db, v) { assert RecordOk(s.db, v); }
  }

  lemma BeginKeepsInv(sha: Digest, loads: Loads, s: Bridge, step: Step)
    requires Inv(sha, loads, s) && step.Begin? && Enabled(s, step)
    ensures Inv(sha, loads, After(sha, loads, s, step))
  {
    hide LogOk, DbOk, Logged, Plain, Import, ImportNew, EntryOf, CompletedOk;
    var done := Import(sha, s.db, step.fields, step.evidenceHash, step.now);
    var r := After(sha, loads, s, step);
    if done.Ok? {
      ImportIs(sha, s.db, step.fields, step.evidenceHash, step.now);
      if done.value.action != Replayed {
        ImportKeepsDb(sha, s.db, step.fields, step.evidenceHash, step.now);
      }
      LogOkGrows(sha, loads, s, r);
      LoggedSame(loads, s, r);
      forall q | q in r.processes ensures ProcessOk(loads, r, q) { assert q != step.p ==> ProcessOk(loads, s, q); }
      forall f, h | (f, h) in r.completed ensures CompletedOk(loads, r, f, h) {
        if (f, h) in s.completed {
          CompletedKept(loads, s, r, f, h);
        } else {
          var id :| ReplayOf(s.db, id, f, h, None);
          CompletedNow(loads, r, id, f, h);
        }
      }
    }
  }

  predicate ReplayOf(db: Db, id: string, finding: string, evidenceHash: string, event: Option<string>) {
    IsImport(db, id, finding, evidenceHash) && event == if db.audit[id].delivered.None? then Some(id) else None
  }

  /** What an accepted import did, without the choice of row. */
  lemma ImportIs(sha: Digest, db: Db, x: Fields, evidenceHash: string, now: real)
    requires Import(sha, db, x, evidenceHash, now).Ok?
    ensures IsHex64(evidenceHash)
    ensures var r := Import(sha, db, x, evidenceHash, now).value;
            if r.action == Replayed then
              r.db == db && exists id :: ReplayOf(db, id, x.finding, evidenceHash, r.event)
            else
              && (forall id :: !IsImport(db, id, x.finding, evidenceHash))
              && Import(sha, db, x, evidenceHash, now) == ImportNew(sha, db, x, evidenceHash, now)
              && r.event.Some? && r.event.value !in db.audit
              && r.db.audit == db.audit[r.event.value := r.db.audit[r.event.value]]
              && r.db.audit[r.event.value].delivered.None?
  {
    hide EventId, Recorded;
    if exists id :: IsImport(db, id, x.finding, evidenceHash) {
      var id :| IsImport(db, id, x.finding, evidenceHash)
          && ReplayOf(db, id, x.finding, evidenceHash, Import(sha, db, x, evidenceHash, now).value.event);
    }
  }

  lemma MarkKeepsInv(sha: Digest, loads: Loads, s: Bridge, p: nat, now: real)
    requires Enabled(s, Mark(p, now)) && Inv(sha, loads, s)
    ensures Inv(sha, loads, After(sha, loads, s, Mark(p, now)))
  {
    hide LogOk, Logged, DbOk, CompletedOk;
    assert ProcessOk(loads, s, p);
    var id := s.processes[p].id;
    var r := After(sha, loads, s, Mark(p, now));
    MarkKeepsDb(sha, s.db, id, now);
    LogOkGrows(sha, loads, s, r);
    LoggedSame(loads, s, r);
    forall q | q in r.processes ensures ProcessOk(loads, r, q) { assert ProcessOk(loads, s, q); }
    forall f, h | (f, h) in r.completed ensures CompletedOk(loads, r, f, h) {
      if (f, h) in s.completed {
        CompletedKept(loads, s, r, f, h);
      } else {
        CompletedNow(loads, r, id, f, h);
      }
    }
  }

  lemma CompletedNow(loads: Loads, s: Bridge, id: string, f: string, h: string)
    requires IsImport(s.db, id, f, h) && Logged(loads, s, id)
    ensures CompletedOk(loads, s, f, h)
  {
  }

  lemma MarkKeepsDb(sha: Digest, db: Db, id: string, now: real)
    requires DbOk(sha, db) && id in db.audit
    ensures DbOk(sha, MarkDelivered(db, id, now).value)
  {
    hide RowOk, OneImport, Hashes;
    var r := MarkDelivered(db, id, now).value;
    MarkKeepsRows(sha, db, id, now);
    forall f ensures Hashes(r, f) == Hashes(db, f) { HashesSame(db, r, f); }
  }

  lemma MarkKeepsRows(sha: Digest, db: Db, id: string, now: real)
    requires DbOk(sha, db) && id in db.audit
    ensures var r := MarkDelivered(db, id, now).value;
            (forall a :: a in r.audit ==> RowOk(sha, r, a)) && OneImport(r)
  {
    hide EventId, BreakFreeText, Hashes;
    var r := MarkDelivered(db, id, now).value;
    forall a | a in r.audit ensures RowOk(sha, r, a) { assert RowOk(sha, db, a); }
    forall a, b | a in r.audit && IsImport(r, b, r.audit[a].finding, r.audit[a].evidenceHash) ensures a == b {
      assert IsImport(db, b, db.audit[a].finding, db.audit[a].evidenceHash);
    }
  }

  lemma HashesSame(db: Db, r: Db, f: string)
    requires db.audit.Keys == r.audit.Keys
    requires forall x :: x in db.audit ==>
               r.audit[x].finding == db.audit[x].finding && r.audit[x].evidenceHash == db.audit[x].evidenceHash
    ensures Hashes(r, f) == Hashes(db, f)
  {
    assert forall x :: x in db.audit <==> x in r.audit;
  }

  lemma CrashKeepsInv(sha: Digest, loads: Loads, s: Bridge, p: nat)
    requires Inv(sha, loads, s)
    ensures Inv(sha, loads, s.(processes := s.processes - {p}))
  {
    hide LogOk, Logged, DbOk;
    var r := s.(processes := s.processes - {p});
    LogOkSame(sha, loads, s, r);
    LoggedSame(loads, s, r);
    forall q | q in r.processes ensures ProcessOk(loads, r, q) { assert ProcessOk(loads, s, q); }
    forall f, h | (f, h) in r.completed ensures CompletedOk(loads, r, f, h) { CompletedKept(loads, s, r, f, h); }
  }

  lemma StartInv(sha: Digest, loads: Loads)
    ensures Inv(sha, loads, START)
  {
    VerifiedEmpty(AUDIT_LOG, sha, loads);
    assert LogRecords(loads, "") == [];
  }

  // ----- Main results -----

  lemma {:induction false} RunKeepsInv(sha: Digest, loads: Loads, steps: seq<Step>)
    requires Reads(loads, false) && Hexadecimal(sha) && Run(sha, loads, steps).Some?
    ensures Inv(sha, loads, Run(sha, loads, steps).value)
    decreases |steps|
  {
    hide Inv, After, Reads;
    if steps == [] {
      StartInv(sha, loads);
    } else {
      var before, step := steps[..|steps| - 1], steps[|steps| - 1];
      RunKeepsInv(sha, loads, before);
      var s := Run(sha, loads, before).value;
      match step
      case Begin(_, _, _, _) => BeginKeepsInv(sha, loads, s, step);
      case Append(p, recordedAt) => AppendKeepsInv(sha, loads, s, p, recordedAt);
      case Mark(p, now) => MarkKeepsInv(sha, loads, s, p, now);
      case Crash(p) => CrashStep(sha, loads, s, p);
    }
  }

  lemma CrashStep(sha: Digest, loads: Loads, s: Bridge, p: nat)
    requires Inv(sha, loads, s) && p in s.processes
    ensures Inv(sha, loads, After(sha, loads, s, Crash(p)))
  {
    CrashKeepsInv(sha, loads, s, p);
  }

  function CountId(vs: seq<Json>, id: string): nat {
    if vs == [] then 0 else CountId(vs[1..], id) + (if HasId(vs[0], id) then 1 else 0)
  }

  lemma {:induction false} UniqueCount(vs: seq<Json>, id: string)
    requires UniqueIds(vs)
    ensures CountId(vs, id) == if FindEvent(vs, id).Some? then 1 else 0
  {
    hide HasId;
    if vs != [] {
      assert UniqueIds(vs[1..]);
      UniqueCount(vs[1..], id);
      forall i | 0 <= i < |vs[1..]| ensures HasId(vs[0], id) ==> !HasId(vs[1..][i], id) {
        assert vs[1..][i] == vs[i + 1];
      }
    }
  }

  /**
    * Exactly-once effect over every run with crashes and replays: the log
    * verifies and holds at most one record per event id; a delivered event is
    * logged; a finding's reassessment count is one less than the number of its
    * distinct evidence hashes; and a completed run's event is logged once, with
    * the content the database recorded.
    */
  lemma ExactlyOnce(sha: Digest, loads: Loads, steps: seq<Step>)
    requires Reads(loads, false) && Hexadecimal(sha) && Run(sha, loads, steps).Some?
    ensures var s := Run(sha, loads, steps).value; var vs := LogRecords(loads, s.log);
            && Verifies(AUDIT_LOG, sha, loads, s.log)
            && (forall id :: CountId(vs, id) <= 1)
            && (forall id :: id in s.db.audit && s.db.audit[id].delivered.Some? ==> CountId(vs, id) == 1)
            && (forall f :: f in s.db.findings ==> s.db.findings[f].reassessments + 1 == |Hashes(s.db, f)|)
            && (forall f, h :: (f, h) in s.completed ==> LoggedOnce(s.db, vs, f, h))
  {
    hide Reads, HasId, Matches;
    RunKeepsInv(sha, loads, steps);
    var s := Run(sha, loads, steps).value;
    var vs := LogRecords(loads, s.log);
    SoundReads(sha, loads, s.log);
    forall id ensures CountId(vs, id) == if FindEvent(vs, id).Some? then 1 else 0 { UniqueCount(vs, id); }
    forall f, h | (f, h) in s.completed ensures LoggedOnce(s.db, vs, f, h) {
      assert CompletedOk(loads, s, f, h);
      var id :| IsImport(s.db, id, f, h) && Logged(loads, s, id);
      assert RecordOk(s.db, FindEvent(vs, id).value);
    }
  }

  ghost predicate LoggedOnce(db: Db, vs: seq<Json>, f: string, h: string) {
    exists id :: IsImport(db, id, f, h) && CountId(vs, id) == 1
                 && FindEvent(vs, id).Some? && Matches(FindEvent(vs, id).value, EntryOf(id, db.audit[id]))
  }

  /** In every run, appending an outbox event never reports a content conflict or any other error. */
  lemma AppendNeverConflicts(sha: Digest, loads: Loads, steps: seq<Step>, p: nat, recordedAt: string)
    requires Reads(loads, false) && Hexadecimal(sha) && Run(sha, loads, steps).Some? && BreakFreeText(recordedAt)
    requires p in Run(sha, loads, steps).value.processes
    ensures var s := Run(sha, loads, steps).value; var id := s.processes[p].id;
            id in s.db.audit && AppendOnce(sha, loads, s.log, EntryOf(id, s.db.audit[id]), recordedAt).Ok?
  {
    hide Reads, AppendOnce, LogOk, DbOk;
    RunKeepsInv(sha, loads, steps);
    var s := Run(sha, loads, steps).value;
    assert ProcessOk(loads, s, p);
    AppendOk(sha, loads, s, s.processes[p].id, recordedAt);
  }

  /** Importing again what was imported before is a replay of that row. */
  lemma ReplayStarts(sha: Digest, db: Db, x: Fields, h: string, now: real)
    requires x.severity in {"low", "medium", "high", "critical"} && IsHex64(h)
             && exists id :: IsImport(db, id, x.finding, h)
    ensures var done := Import(sha, db, x, h, now);
            done.Ok? && done.value.db == db
            && (done.value.event.Some? ==> IsImport(db, done.value.event.value, x.finding, h))
  {
  }

  /**
    * A retry after any crash gets through: from any reachable state, importing
    * an already imported finding again, appending and marking completes it.
    */
  lemma RetryCompletes(
    sha: Digest, loads: Loads, steps: seq<Step>, p: nat, x: Fields, h: string, now: real, recordedAt: string)
    requires Reads(loads, false) && Hexadecimal(sha) && Run(sha, loads, steps).Some? && BreakFreeText(recordedAt)
    requires var s := Run(sha, loads, steps).value;
             p !in s.processes && Plain(x) && x.severity in {"low", "medium", "high", "critical"} && IsHex64(h)
             && exists id :: IsImport(s.db, id, x.finding, h)
    ensures var s := Run(sha, loads, steps).value;
            var a := After(sha, loads, s, Begin(p, x, h, now));
            if p !in a.processes then (x.finding, h) in a.completed
            else
              var b := After(sha, loads, a, Append(p, recordedAt));
              p in b.processes && b.processes[p].logged
                && (x.finding, h) in After(sha, loads, b, Mark(p, now)).completed
  {
    hide Reads, AppendOnce, LogOk, EventId, Import, ImportNew, EntryOf, CompletedOk, Logged;
    RunKeepsInv(sha, loads, steps);
    var s := Run(sha, loads, steps).value;
    BeginKeepsInv(sha, loads, s, Begin(p, x, h, now));
    var a := After(sha, loads, s, Begin(p, x, h, now));
    ReplayStarts(sha, s.db, x, h, now);
    hide DbOk;
    if p in a.processes {
      assert ProcessOk(loads, a, p);
      AppendOk(sha, loads, a, a.processes[p].id, recordedAt);
    }
  }
}
