/**
  * governance_core.py as functions on its tables: each public call is one
  * atomic step that either changes nothing and fails, or changes one finding,
  * appends one event and adds one outbox row and one export row.
  */
module Governance {
  import opened Basics
  import opened CanonicalJson
  import opened ChainedLog
  import opened LeaseQueue
  import opened AuditArchive
  import opened OutboxDelivery
  import opened GovernanceEvents
  import opened Lifecycle

  datatype Finding = Finding(
    control: string, asset: string, title: string, riskOwner: string, severity: Level, status: Status,
    treatment: Option<Treatment>, reason: Option<string>, dueDate: Option<string>, actionOwner: Option<string>,
    implementer: Option<string>, submitter: Option<string>, createdAt: real, updatedAt: real)

  datatype EvidenceRow = EvidenceRow(source: string, sha256: string, submittedBy: string)

  datatype Store = Store(
    findings: map<string, Finding>, events: map<string, seq<Event>>, outbox: Table, exports: Table,
    evidence: map<string, seq<EvidenceRow>>)

  const EMPTY := Store(map[], map[], map[], map[], map[])

  datatype GovernanceError =
    NotPermitted | InvalidValue | NotFound | CannotTransition | AlreadyExists | IdentityChanged | InconsistentStore
    | Disappeared | IntegrityViolation

  /** uuid4 values drawn for the call. */
  datatype Ids = Ids(event: string, outbox: string, archive: string)

  /** SHA-256 over text, how a clock reading is printed, and date.fromisoformat. */
  datatype Env = Env(sha: Digest, stamp: real -> string, isDate: string -> bool)

  /** What the evidence store returned for the submitted bytes. */
  datatype Stored = Stored(sha256: string, objectKey: string, size: nat)

  datatype Call =
    | CreateFinding(finding: string, control: string, asset: string, title: string, riskOwner: string, severity: string)
    | AssessRisk(finding: string, likelihood: string, impact: string)
    | ProposeTreatment(finding: string, treatment: string, reason: string, actionOwner: string, dueDate: Option<string>)
    | ApproveTreatment(finding: string, decision: string, reason: string)
    | StartAction(finding: string, implementer: string)
    | SubmitEvidence(finding: string, source: string, content: string, evidenceId: string, stored: Stored)
    | Verify(finding: string, passed: bool, notes: string)
    | Close(finding: string, reason: string)
    | UpsertFinding(finding: string, control: string, asset: string, title: string, riskOwner: string, severity: string)

  const MAX_IDENTIFIER_LENGTH := 128
  const MAX_TEXT_LENGTH := 4096
  const MAX_EVIDENCE_BYTES := 262144

  // ----- Text arguments -----

  /** str.strip */
  function Strip(s: string): (r: string)
    ensures r != "" ==> !IsSpace(r[0]) && !IsSpace(r[|r| - 1])
    ensures r == "" <==> Blank(s)
    decreases |s|
  {
    if s == "" then ""
    else if IsSpace(s[0]) then
      assert s == [s[0]] + s[1..];
      Strip(s[1..])
    else if IsSpace(s[|s| - 1]) then Strip(s[..|s| - 1])
    else s
  }

  /** _required_text: None stands for its ValueError. */
  function RequiredText(s: string, limit: nat): (r: Option<string>)
    ensures r.Some? ==> r.value != "" && !Blank(s) && |s| <= limit
  {
    if Blank(s) || |s| > limit then None else Some(Strip(s))
  }

  predicate AllSpace(s: string) {
    forall i :: 0 <= i < |s| ==> IsSpace(s[i])
  }

  /** Text without blanks at its ends. */
  predicate Trimmed(s: string) {
    s == "" || (!IsSpace(s[0]) && !IsSpace(s[|s| - 1]))
  }

  /** What is stripped is exactly the blanks around the text. */
  lemma {:induction false} StripBetween(lead: string, core: string, trail: string)
    requires AllSpace(lead) && Trimmed(core) && AllSpace(trail)
    ensures Strip(lead + core + trail) == core
    decreases |lead| + |trail|
  {
    var s := lead + core + trail;
    if core == "" {
      assert Blank(s);
    } else if lead != "" {
      assert s[0] == lead[0] && s[1..] == lead[1..] + core + trail;
      StripBetween(lead[1..], core, trail);
    } else if trail != "" {
      assert s[0] == core[0] && s[|s| - 1] == trail[|trail| - 1];
      assert s[..|s| - 1] == lead + core + trail[..|trail| - 1];
      StripBetween(lead, core, trail[..|trail| - 1]);
    } else {
      assert s == core;
    }
  }

  /** _required_text returns the text between the outer blanks, and refuses exactly blank and overlong input. */
  lemma RequiredTextIs(lead: string, core: string, trail: string, limit: nat)
    requires AllSpace(lead) && Trimmed(core) && AllSpace(trail)
    ensures RequiredText(lead + core + trail, limit)
            == if core == "" || |lead + core + trail| > limit then None else Some(core)
  {
    StripBetween(lead, core, trail);
  }

  function Identifier(s: string): Option<string> {
    RequiredText(s, MAX_IDENTIFIER_LENGTH)
  }

  /** value.lower() looked up among the four ratings; no non-ASCII letter lowers to one of theirs. */
  function LevelOf(s: string): Option<Level> {
    var l := Lower(s);
    if l == "low" then Some(Low) else if l == "medium" then Some(Medium)
    else if l == "high" then Some(High) else if l == "critical" then Some(Critical) else None
  }

  function TreatmentOf(s: string): Option<Treatment> {
    if s == "mitigate" then Some(Mitigate) else if s == "accept" then Some(Accept)
    else if s == "transfer" then Some(Transfer) else if s == "avoid" then Some(Avoid) else None
  }

  // ----- _event -----

  function Rows(store: Store, finding: string): seq<Event> {
    if finding in store.events then store.events[finding] else []
  }

  /** The row ORDER BY event_sequence DESC LIMIT 1 picks. */
  function Latest(events: seq<Event>): (r: Option<Event>)
    ensures r.None? <==> events == []
    ensures r.Some? ==> r.value in events && forall e :: e in events ==> e.sequence <= r.value.sequence
  {
    if events == [] then None
    else
      var rest := Latest(events[1..]);
      assert events == [events[0]] + events[1..];
      if rest.None? || rest.value.sequence <= events[0].sequence then Some(events[0]) else rest
  }

  function NextEvent(
    env: Env, store: Store, finding: string, change: Change, actor: Actor, ids: Ids, now: real): Event {
    var latest := Latest(Rows(store, finding));
    var previous := if latest.None? then "" else latest.value.eventHash;
    var sequence := if latest.None? then 1 else latest.value.sequence + 1;
    var at := env.stamp(now);
    Event(ids.event, sequence, change, actor, at, previous,
          env.sha(EventText(previous, EventBody(finding, change, actor, at, previous))))
  }

  predicate HashTaken(store: Store, h: string) {
    exists f :: f in store.events && HashIn(store.events[f], h)
  }

  predicate HashIn(events: seq<Event>, h: string) {
    exists i :: 0 <= i < |events| && events[i].eventHash == h
  }

  /** The three inserts of _event; the table refuses an event hash it already holds. */
  function AppendEvent(
    env: Env, store: Store, finding: string, change: Change, actor: Actor, ids: Ids, now: real): Option<Store> {
    var e := NextEvent(env, store, finding, change, actor, ids, now);
    if HashTaken(store, e.eventHash) then None
    else Some(store.(
      events := store.events[finding := Rows(store, finding) + [e]],
      outbox := store.outbox[ids.outbox := NewRow(OutboxMessageOf(finding, e, now))],
      exports := store.exports[ids.archive := NewRow(ExportMessageOf(finding, e, now))]))
  }

  // ----- The public calls -----

  /** What a call that passed its checks does to its finding. */
  datatype Effect =
    | Keep(row: Finding)
    | Write(finding: string, row: Finding, change: Change, evidence: Option<EvidenceRow>)

  function EvidenceOf(store: Store, finding: string): seq<EvidenceRow> {
    if finding in store.evidence then store.evidence[finding] else []
  }

  datatype Identity = Identity(finding: string, control: string, asset: string, title: string, riskOwner: string,
                               severity: Level)

  /** The six checked arguments of create_finding and upsert_finding. */
  function IdentityOf(
    finding: string, control: string, asset: string, title: string, riskOwner: string, severity: string)
    : Option<Identity> {
    var f, c, a := Identifier(finding), Identifier(control), Identifier(asset);
    var t, o, l := RequiredText(title, MAX_TEXT_LENGTH), Identifier(riskOwner), LevelOf(severity);
    if f.None? || c.None? || a.None? || t.None? || o.None? || l.None? then None
    else Some(Identity(f.value, c.value, a.value, t.value, o.value, l.value))
  }

  function NewFinding(d: Identity, now: real): Finding {
    Finding(d.control, d.asset, d.title, d.riskOwner, d.severity, Open, None, None, None, None, None, None, now, now)
  }

  function PlanCreate(store: Store, d: Option<Identity>, actor: Actor, now: real): Result<Effect, GovernanceError> {
    if actor.role !in {Admin, Analyst} then Err(NotPermitted)
    else if d.None? then Err(InvalidValue)
    else if d.value.finding in store.findings then Err(AlreadyExists)
    else
      Ok(Write(d.value.finding, NewFinding(d.value, now),
               Created(d.value.control, d.value.asset, d.value.severity), None))
  }

  function PlanUpsert(store: Store, d: Option<Identity>, actor: Actor, now: real): Result<Effect, GovernanceError> {
    var created := PlanCreate(store, d, actor, now);
    if created.Ok? || created.error != AlreadyExists then created
    else
      var row := store.findings[d.value.finding];
      if row.control != d.value.control || row.asset != d.value.asset then Err(IdentityChanged)
      else
        var next := row.(title := d.value.title, riskOwner := d.value.riskOwner,
                         severity := d.value.severity, updatedAt := now);
        Ok(Write(d.value.finding, next, Reassessed(d.value.control, d.value.asset, d.value.severity), None))
  }

  /** _mutate on a finding that exists: the status check, then the new row. */
  function PlanMutate(
    row: Finding, finding: string, allowed: set<Status>, next: Finding, change: Change, now: real)
    : Result<Effect, GovernanceError> {
    if row.status !in allowed then Err(CannotTransition) else Ok(Write(finding, next.(updatedAt := now), change, None))
  }

  function PlanEvidence(env: Env, store: Store, call: Call, actor: Actor, now: real): Result<Effect, GovernanceError>
    requires call.SubmitEvidence?
  {
    var source := RequiredText(call.source, MAX_IDENTIFIER_LENGTH);
    if actor.role !in {RiskOwner, Analyst, Admin} then Err(NotPermitted)
    else if source.None? || call.content == "" || Utf8Size(call.content) > MAX_EVIDENCE_BYTES then Err(InvalidValue)
    else if call.finding !in store.findings then Err(NotFound)
    else
      var row := store.findings[call.finding];
      var item := EvidenceRow(source.value, env.sha(call.content), actor.id);
      if row.status == PendingVerification && item in EvidenceOf(store, call.finding) then Ok(Keep(row))
      else if row.status != InProgress then Err(CannotTransition)
      else if call.stored.sha256 != item.sha256 then Err(InconsistentStore)
      else Ok(Write(call.finding, row.(status := PendingVerification, submitter := Some(actor.id), updatedAt := now),
                    Submitted(call.evidenceId, item.source, item.sha256, call.stored.objectKey,
                              call.stored.size), Some(item)))
  }

  function Plan(env: Env, store: Store, call: Call, actor: Actor, now: real): Result<Effect, GovernanceError> {
    match call
    case CreateFinding(f, c, a, t, o, s) => PlanCreate(store, IdentityOf(f, c, a, t, o, s), actor, now)
    case UpsertFinding(f, c, a, t, o, s) => PlanUpsert(store, IdentityOf(f, c, a, t, o, s), actor, now)
    case SubmitEvidence(_, _, _, _, _) => PlanEvidence(env, store, call, actor, now)
    case AssessRisk(f, likelihood, impact) =>
      var l, i := LevelOf(likelihood), LevelOf(impact);
      if actor.role !in {RiskOwner, Analyst, Admin} then Err(NotPermitted)
      else if l.None? || i.None? then Err(InvalidValue)
      else if f !in store.findings then Err(NotFound)
      else
        var row := store.findings[f];
        PlanMutate(row, f, {Open, Rejected}, row.(status := RiskAssessed), Assessed(l.value, i.value), now)
    case ProposeTreatment(f, treatment, reason, actionOwner, dueDate) =>
      var t, r, o := TreatmentOf(treatment), RequiredText(reason, MAX_TEXT_LENGTH), Identifier(actionOwner);
      if actor.role !in {RiskOwner, Analyst, Admin} then Err(NotPermitted)
      else if t.None? || r.None? || o.None? || (dueDate.Some? && !env.isDate(dueDate.value)) then Err(InvalidValue)
      else if f !in store.findings then Err(NotFound)
      else
        var row := store.findings[f];
        PlanMutate(row, f, {RiskAssessed},
                   row.(status := PendingApproval, treatment := t, reason := r, actionOwner := o, dueDate := dueDate),
                   Proposed(t.value, r.value, o.value), now)
    case ApproveTreatment(f, decision, reason) =>
      if actor.role !in {Approver, Ciso, RiskCommittee} then Err(NotPermitted)
      else if decision != "approved" && decision != "rejected" then Err(InvalidValue)
      else if f !in store.findings then Err(NotFound)
      else
        var row := store.findings[f];
        if actor.id == row.riskOwner then Err(NotPermitted)
        else
          var status := if decision != "approved" then RiskAssessed else if row.treatment == Some(Accept) then Accepted
              else Approved;
          PlanMutate(row, f, {PendingApproval}, row.(status := status), Decided(decision == "approved", reason), now)
    case StartAction(f, implementer) =>
      var i := Identifier(implementer);
      if actor.role !in {RiskOwner, Analyst, Admin} then Err(NotPermitted)
      else if i.None? then Err(InvalidValue)
      else if f !in store.findings then Err(NotFound)
      else
        var row := store.findings[f];
        PlanMutate(row, f, {Approved}, row.(status := InProgress, implementer := i), Started(i.value), now)
    case Verify(f, passed, notes) =>
      if actor.role !in {Analyst, Approver, Ciso, RiskCommittee} then Err(NotPermitted)
      else if f !in store.findings then Err(NotFound)
      else
        var row := store.findings[f];
        if Some(actor.id) == row.implementer || Some(actor.id) == row.submitter then Err(NotPermitted)
        else
          var status := if passed then Verified else InProgress;
          PlanMutate(row, f, {PendingVerification}, row.(status := status), Checked(passed, notes), now)
    case Close(f, reason) =>
      if actor.role !in {Approver, Ciso, RiskCommittee} then Err(NotPermitted)
      else if f !in store.findings then Err(NotFound)
      else
        var row := store.findings[f];
        PlanMutate(row, f, {Verified, Accepted}, row.(status := Closed), Closing(reason), now)
  }

  function Written(store: Store, w: Effect): Store
    requires w.Write?
  {
    store.(findings := store.findings[w.finding := w.row],
           evidence := if w.evidence.Some? then
             store.evidence[w.finding := EvidenceOf(store, w.finding) + [w.evidence.value]] else store.evidence)
  }

  /** How a refused event insert surfaces from the call. */
  function Refusal(call: Call, store: Store, finding: string): GovernanceError {
    if call.CreateFinding? then AlreadyExists
    else if call.UpsertFinding? && finding !in store.findings then Disappeared
    else IntegrityViolation
  }

  datatype Done = Done(store: Store, row: Finding)

  /** One public call: the tables afterwards and the row it returns, or its error with nothing changed. */
  function Do(env: Env, store: Store, call: Call, actor: Actor, ids: Ids, now: real): Result<Done, GovernanceError> {
    var plan := Plan(env, store, call, actor, now);
    if plan.Err? then Err(plan.error)
    else if plan.value.Keep? then Ok(Done(store, plan.value.row))
    else
      var w := plan.value;
      var after := AppendEvent(env, Written(store, w), w.finding, w.change, actor, ids, now);
      if after.None? then Err(Refusal(call, store, w.finding)) else Ok(Done(after.value, w.row))
  }

  // ----- Runs of calls, interleaved with the delivery queues -----

  /** One call, or any activity of the delivery workers on the two row tables. */
  datatype Request =
    | Invoke(call: Call, actor: Actor, ids: Ids, now: real)
    | Deliver(outbox: Table, exports: Table)

  predicate EventIdFresh(store: Store, id: string) {
    forall f, i :: f in store.events && 0 <= i < |store.events[f]| ==> store.events[f][i].eventId != id
  }

  predicate FreshIds(store: Store, ids: Ids) {
    && IsHexId(ids.event) && IsHexId(ids.outbox) && IsHexId(ids.archive)
    && ids.outbox !in store.outbox && ids.archive !in store.exports && EventIdFresh(store, ids.event)
  }

  /** Workers change settlement columns only. */
  predicate SameMessages(t: Table, u: Table) {
    t.Keys == u.Keys && forall id :: id in t ==> u[id].message == t[id].message
  }

  predicate Allowed(store: Store, r: Request) {
    match r
    case Invoke(_, actor, ids, _) => ValidActor(actor) && FreshIds(store, ids)
    case Deliver(outbox, exports) => SameMessages(store.outbox, outbox) && SameMessages(store.exports, exports)
  }

  function Next(env: Env, store: Store, r: Request): Store {
    match r
    case Invoke(call, actor, ids, now) =>
      var done := Do(env, store, call, actor, ids, now);
      if done.Ok? then done.value.store else store
    case Deliver(outbox, exports) => store.(outbox := outbox, exports := exports)
  }

  /** The tables after a run; None when a request was not allowed. */
  function Run(env: Env, requests: seq<Request>): Option<Store>
    decreases |requests|
  {
    if requests == [] then Some(EMPTY)
    else
      var before := Run(env, requests[..|requests| - 1]);
      if before.Some? && Allowed(before.value, requests[|requests| - 1]) then
        Some(Next(env, before.value, requests[|requests| - 1]))
      else None
  }
}
