/**
  * scripts/azure_staging_validator.py: four phases that drive one finding from
  * creation to closure through the governance calls, and may be run again
  * after any failure. A request may be lost before it is served, and a
  * response may be lost after the call committed. Nobody else touches the
  * validator's two findings.
  */
module StagingValidator {
  import opened Basics
  import opened GovernanceEvents
  import opened Lifecycle
  import opened AuditArchive
  import opened Governance
  import opened GovernanceCalls
  import opened StagingRequests

  datatype Phase = AnalystPrepare | ApproverApprove | AnalystRemediate | ApproverClose

  const CONTROL := "AZ-STAGING-E2E"
  const SOD_CONTROL := "AZ-STAGING-SOD"
  const ASSET := "azure-staging"
  const MAX_REQUESTS := 9
  // in two halves, because the verifier does not see the last character of a longer literal
  const MAIN_TITLE := "Role-isolated Azure " + "staging lifecycle validation"
  const SOD_TITLE := "Risk-owner self-approval " + "rejection validation"
  const MAIN_REASON := "Validate the private staging lifecycle"
  const SOD_REASON := "Prove server-side self-approval rejection"

  predicate CleanText(s: string) {
    s != "" && |s| <= MAX_IDENTIFIER_LENGTH && !IsSpace(s[0]) && !IsSpace(s[|s| - 1])
  }

  predicate ValidSetup(env: Env, c: Setup) {
    && CleanText(c.main) && CleanText(c.sod) && c.main != c.sod
    && CleanText(c.analyst) && CleanText(c.approver) && c.analyst != c.approver
    && c.content != "" && Utf8Size(c.content) <= MAX_EVIDENCE_BYTES && c.stored.sha256 == env.sha(c.content)
  }

  // ----- The findings' expected contents -----

  predicate Identified(row: Finding, control: string, owner: string) {
    row.control == control && row.asset == ASSET && row.riskOwner == owner
  }

  predicate Treated(row: Finding, c: Setup) {
    row.treatment == Some(Mitigate) && row.actionOwner == Some(c.analyst)
  }

  /** The main finding holds what its status calls for. */
  predicate MainRow(row: Finding, c: Setup) {
    && Identified(row, CONTROL, c.analyst)
    && (row.status == Open || row.status == RiskAssessed || Treated(row, c))
    && (row.status in {InProgress, PendingVerification, Verified, Closed} ==> row.implementer == Some(c.analyst))
    && (row.status in {PendingVerification, Verified, Closed} ==> row.submitter == Some(c.analyst))
  }

  predicate SodRow(row: Finding, c: Setup) {
    && Identified(row, SOD_CONTROL, c.approver)
    && (row.status in {Open, RiskAssessed} || (row.status == PendingApproval && Treated(row, c)))
  }

  predicate MainIn(findings: map<string, Finding>, c: Setup, statuses: set<Status>) {
    c.main in findings && MainRow(findings[c.main], c) && findings[c.main].status in statuses
  }

  predicate SodIn(findings: map<string, Finding>, c: Setup, statuses: set<Status>) {
    c.sod in findings && SodRow(findings[c.sod], c) && findings[c.sod].status in statuses
  }

  function Statuses(phase: Phase): set<Status> {
    match phase
    case AnalystPrepare => {Open, RiskAssessed, PendingApproval}
    case ApproverApprove => {PendingApproval, Approved}
    case AnalystRemediate => {Approved, InProgress, PendingVerification}
    case ApproverClose => {PendingVerification, Verified, Closed}
  }

  function FinalStatus(phase: Phase): Status {
    match phase
    case AnalystPrepare => PendingApproval
    case ApproverApprove => Approved
    case AnalystRemediate => PendingVerification
    case ApproverClose => Closed
  }

  /** The phase can be started, or started again. */
  predicate Ready(findings: map<string, Finding>, c: Setup, phase: Phase) {
    if phase == AnalystPrepare then
      && (c.main !in findings || MainIn(findings, c, Statuses(phase)))
      && (c.sod !in findings || SodIn(findings, c, {Open, RiskAssessed, PendingApproval}))
    else MainIn(findings, c, Statuses(phase)) && SodIn(findings, c, {PendingApproval})
  }

  /** The phase's result. */
  predicate PhaseDone(findings: map<string, Finding>, c: Setup, phase: Phase) {
    MainIn(findings, c, {FinalStatus(phase)}) && SodIn(findings, c, {PendingApproval})
  }

  // ----- What single calls do -----

  lemma CleanIdentifier(s: string)
    requires CleanText(s)
    ensures Identifier(s) == Some(s) && RequiredText(s, MAX_TEXT_LENGTH) == Some(s)
  {
  }

  lemma Levels()
    ensures LevelOf("high") == Some(High) && LevelOf("critical") == Some(Critical)
  {
    assert Lower("high") == "high" && Lower("critical") == "critical";
  }

  /** A row without its clock readings. */
  function Timeless(row: Finding): Finding {
    row.(createdAt := 0.0, updatedAt := 0.0)
  }

  /** Whenever the call is served, it means to leave this row, and nothing else changed. */
  ghost predicate PlansRow(env: Env, store: Store, call: Call, actor: Actor, finding: string, row: Finding) {
    forall now :: PlansRowAt(env, store, call, actor, finding, row, now)
  }

  predicate PlansRowAt(env: Env, store: Store, call: Call, actor: Actor, finding: string, row: Finding, now: real) {
    var p := Plan(env, store, call, actor, now);
    p.Ok? && p.value.Write? && p.value.finding == finding && Timeless(p.value.row) == Timeless(row)
  }

  ghost predicate Refused(env: Env, store: Store, call: Call, actor: Actor, error: GovernanceError) {
    forall now :: Plan(env, store, call, actor, now) == Err(error)
  }

  /** Exactly this finding's row changed, to this one. */
  ghost predicate Moved(before: map<string, Finding>, after: map<string, Finding>, finding: string, row: Finding) {
    && finding in after && Timeless(after[finding]) == Timeless(row)
    && forall g :: g != finding ==> (g in after <==> g in before) && (g in after ==> after[g] == before[g])
  }

  /** A planned write either happens or is refused with nothing changed. */
  lemma WriteOutcome(
    env: Env, store: Store, call: Call, actor: Actor, ids: Ids, now: real, finding: string, row: Finding)
    requires PlansRowAt(env, store, call, actor, finding, row, now)
    ensures var r := Do(env, store, call, actor, ids, now);
            r.Ok? ==> r.value.row.status == row.status && Moved(store.findings, r.value.store.findings, finding, row)
  {
    hide Plan, NextEvent, HashTaken;
  }

  predicate SameAt(before: map<string, Finding>, after: map<string, Finding>, finding: string) {
    (finding in after <==> finding in before) && (finding in after ==> after[finding] == before[finding])
  }

  /** One step of the main finding: taken at most once, and taken when the request passed. */
  predicate Stepped(before: map<string, Finding>, after: map<string, Finding>, c: Setup, to: Status, passed: bool) {
    && ((after == before && !passed) || (MainIn(after, c, {to}) && SameAt(before, after, c.sod)))
  }

  predicate SodStepped(before: map<string, Finding>, after: map<string, Finding>, c: Setup, to: Status, passed: bool) {
    && ((after == before && !passed) || (SodIn(after, c, {to}) && SameAt(before, after, c.main)))
  }

  // ----- The calls the phases make -----

  function CreateMain(c: Setup): Call {
    Call.CreateFinding(c.main, CONTROL, ASSET, MAIN_TITLE, c.analyst, "critical")
  }

  function CreateSod(c: Setup): Call {
    Call.CreateFinding(c.sod, SOD_CONTROL, ASSET, SOD_TITLE, c.approver, "high")
  }

  function ProposeMain(c: Setup): Call {
    Call.ProposeTreatment(c.main, "mitigate", MAIN_REASON, c.analyst, None)
  }

  function ProposeSod(c: Setup): Call {
    Call.ProposeTreatment(c.sod, "mitigate", SOD_REASON, c.analyst, None)
  }

  function Evidence(c: Setup): Call {
    Call.SubmitEvidence(c.main, "azure-staging-validator", c.content, c.evidenceId, c.stored)
  }

  function NewRow(control: string, title: string, owner: string, severity: Level): Finding {
    Finding(control, ASSET, title, owner, severity, Open, None, None, None, None, None, None, 0.0, 0.0)
  }

  lemma CreatePlanned(
    env: Env, store: Store, actor: Actor, f: string, control: string, title: string, owner: string, severity: string)
    requires actor.role == Analyst && CleanText(f) && CleanText(control) && CleanText(title) && CleanText(owner)
    requires LevelOf(severity).Some?
    ensures var call := Call.CreateFinding(f, control, ASSET, title, owner, severity);
            if f in store.findings then Refused(env, store, call, actor, AlreadyExists)
            else PlansRow(env, store, call, actor, f, NewRow(control, title, owner, LevelOf(severity).value))
  {
    CleanIdentifier(f);
    CleanIdentifier(control);
    CleanIdentifier(ASSET);
    CleanIdentifier(title);
    CleanIdentifier(owner);
    hide RequiredText, LevelOf;
    assert IdentityOf(f, control, ASSET, title, owner, severity)
           == Some(Identity(f, control, ASSET, title, owner, LevelOf(severity).value));
    var call := Call.CreateFinding(f, control, ASSET, title, owner, severity);
    if f !in store.findings {
      forall now
        ensures PlansRowAt(env, store, call, actor, f, NewRow(control, title, owner, LevelOf(severity).value), now)
      {
      }
    }
  }

  lemma AssessPlanned(env: Env, store: Store, actor: Actor, f: string, impact: string)
    requires actor.role == Analyst && f in store.findings && store.findings[f].status == Open
             && (impact == "high" || impact == "critical")
    ensures PlansRow(env, store, Call.AssessRisk(f, "high", impact), actor, f,
                     store.findings[f].(status := RiskAssessed))
  {
    Levels();
    var row := store.findings[f].(status := RiskAssessed);
    forall now ensures PlansRowAt(env, store, Call.AssessRisk(f, "high", impact), actor, f, row, now) {}
  }

  lemma ProposePlanned(env: Env, store: Store, actor: Actor, f: string, reason: string, owner: string)
    requires actor.role == Analyst && f in store.findings && store.findings[f].status == RiskAssessed
    requires CleanText(reason) && CleanText(owner)
    ensures PlansRow(env, store, Call.ProposeTreatment(f, "mitigate", reason, owner, None), actor, f,
                     store.findings[f].(status := PendingApproval, treatment := Some(Mitigate), reason := Some(reason),
                                        actionOwner := Some(owner), dueDate := None))
  {
    CleanIdentifier(reason);
    CleanIdentifier(owner);
    hide RequiredText;
    var row := store.findings[f].(
      status := PendingApproval, treatment := Some(Mitigate), reason := Some(reason),
      actionOwner := Some(owner), dueDate := None);
    forall now
      ensures PlansRowAt(env, store, Call.ProposeTreatment(f, "mitigate", reason, owner, None), actor, f, row, now)
    {
    }
  }

  lemma ApprovePlanned(env: Env, store: Store, actor: Actor, f: string, reason: string)
    requires actor.role == Approver && f in store.findings
    ensures var row := store.findings[f]; var call := Call.ApproveTreatment(f, "approved", reason);
            if actor.id == row.riskOwner then Refused(env, store, call, actor, NotPermitted)
            else row.status == PendingApproval && row.treatment == Some(Mitigate) ==>
                PlansRow(env, store, call, actor, f, row.(status := Approved))
  {
    var row := store.findings[f];
    if actor.id != row.riskOwner && row.status == PendingApproval && row.treatment == Some(Mitigate) {
      forall now
        ensures PlansRowAt(env, store, Call.ApproveTreatment(f, "approved", reason), actor, f,
                           row.(status := Approved), now)
      {
      }
    }
  }

  lemma StartPlanned(env: Env, store: Store, actor: Actor, f: string, implementer: string)
    requires actor.role == Analyst && f in store.findings && store.findings[f].status == Approved
    requires CleanText(implementer)
    ensures PlansRow(env, store, Call.StartAction(f, implementer), actor, f,
                     store.findings[f].(status := InProgress, implementer := Some(implementer)))
  {
    CleanIdentifier(implementer);
    hide RequiredText;
    var row := store.findings[f].(status := InProgress, implementer := Some(implementer));
    forall now ensures PlansRowAt(env, store, Call.StartAction(f, implementer), actor, f, row, now) {}
  }

  lemma EvidencePlanned(env: Env, store: Store, c: Setup)
    requires ValidSetup(env, c) && c.main in store.findings && store.findings[c.main].status == InProgress
    ensures PlansRow(env, store, Evidence(c), AnalystActor(c), c.main,
                     store.findings[c.main].(status := PendingVerification, submitter := Some(c.analyst)))
  {
    CleanIdentifier("azure-staging-validator");
    hide RequiredText;
    var row := store.findings[c.main].(status := PendingVerification, submitter := Some(c.analyst));
    forall now ensures PlansRowAt(env, store, Evidence(c), AnalystActor(c), c.main, row, now) {}
  }

  lemma VerifyPlanned(env: Env, store: Store, actor: Actor, f: string, notes: string)
    requires (actor.role == Approver || actor.role == Analyst) && f in store.findings
    ensures var row := store.findings[f]; var call := Call.Verify(f, true, notes);
            if Some(actor.id) == row.implementer || Some(actor.id) == row.submitter then
              Refused(env, store, call, actor, NotPermitted)
            else row.status == PendingVerification ==> PlansRow(env, store, call, actor, f, row.(status := Verified))
  {
    var row := store.findings[f];
    if Some(actor.id) != row.implementer && Some(actor.id) != row.submitter && row.status == PendingVerification {
      forall now ensures PlansRowAt(env, store, Call.Verify(f, true, notes), actor, f, row.(status := Verified), now) {}
    }
  }

  lemma ClosePlanned(env: Env, store: Store, actor: Actor, f: string, reason: string)
    requires actor.role == Approver && f in store.findings
    ensures var row := store.findings[f]; var call := Call.Close(f, reason);
            if row.status !in {Verified, Accepted} then Refused(env, store, call, actor, CannotTransition)
            else PlansRow(env, store, call, actor, f, row.(status := Closed))
  {
    var row := store.findings[f];
    if row.status in {Verified, Accepted} {
      forall now ensures PlansRowAt(env, store, Call.Close(f, reason), actor, f, row.(status := Closed), now) {}
    }
  }

  /** Moving the main finding leaves the other one, and the other way round. */
  lemma MovedMain(before: map<string, Finding>, after: map<string, Finding>, c: Setup, row: Finding)
    requires Moved(before, after, c.main, row) && c.main != c.sod && MainRow(row, c)
    ensures MainIn(after, c, {row.status}) && (c.sod in after <==> c.sod in before)
    ensures c.sod in after ==> after[c.sod] == before[c.sod]
  {
    assert Timeless(after[c.main]).status == after[c.main].status;
  }

  lemma MovedSod(before: map<string, Finding>, after: map<string, Finding>, c: Setup, row: Finding)
    requires Moved(before, after, c.sod, row) && c.main != c.sod && SodRow(row, c)
    ensures SodIn(after, c, {row.status}) && (c.main in after <==> c.main in before)
    ensures c.main in after ==> after[c.main] == before[c.main]
  {
    assert Timeless(after[c.sod]).status == after[c.sod].status;
  }

  class AzureStagingLifecycleValidator {
    const core: GovernanceCore
    const setup: Setup
    const transport: Transport
    var sent: nat
    var gates: seq<(string, bool)>

    constructor (core: GovernanceCore, setup: Setup, transport: Transport)
      ensures this.core == core && this.setup == setup && this.transport == transport && gates == [] && sent == 0
    {
      this.core, this.setup, this.transport := core, setup, transport;
      sent, gates := 0, [];
    }

    /**
      * Since the state was s with m requests sent: everything was served, or the
      * last request, and only it, was lost or refused by the event table.
      */
    ghost predicate Went(s: Store, m: nat, passed: bool)
      reads this, core
    {
      Attempt(core.env, setup, transport, s, m, core.State(), sent, passed)
    }

    /** The API's routes to the governance calls. */
    method Dispatch(call: Call, actor: Actor, ids: Ids, now: real) returns (r: Result<Finding, GovernanceError>)
      modifies core
      ensures Behaves(core.env, old(core.State()), core.State(), call, actor, ids, now, r)
    {
      match call
      case CreateFinding(f, c, a, t, o, s) => r := core.CreateFinding(f, c, a, t, o, s, actor, ids, now);
      case AssessRisk(f, l, i) => r := core.AssessRisk(f, actor, l, i, ids, now);
      case ProposeTreatment(f, t, reason, o, d) => r := core.ProposeTreatment(f, actor, t, reason, o, d, ids, now);
      case ApproveTreatment(f, d, reason) => r := core.ApproveTreatment(f, actor, d, reason, ids, now);
      case StartAction(f, i) => r := core.StartAction(f, actor, i, ids, now);
      case SubmitEvidence(f, s, content, e, stored) =>
        r := core.SubmitEvidence(f, actor, s, content, e, stored, ids, now);
      case Verify(f, p, notes) => r := core.Verify(f, actor, p, notes, ids, now);
      case Close(f, reason) => r := core.Close(f, actor, reason, ids, now);
      case UpsertFinding(f, c, a, t, o, s) => r := core.UpsertFinding(f, c, a, t, o, s, actor, ids, now);
    }

    /**
      * One POST request: lost before it is served, or served with its answer
      * delivered or lost.
      */
    method Send(call: Call, actor: Actor) returns (answer: Option<Result<Finding, GovernanceError>>)
      requires Own(setup, call, actor)
      modifies this, core
      ensures sent == old(sent) + 1 && gates == old(gates)
      ensures answer.None? <==> transport.network(old(sent)) != Served
      ensures transport.network(old(sent)) == RequestLost ==> core.State() == old(core.State())
      ensures transport.network(old(sent)) != RequestLost ==>
                exists r :: (answer.Some? ==> r == answer.value)
                            && Behaves(core.env, old(core.State()), core.State(), call, actor,
                                       transport.ids(old(sent)), transport.clock(old(sent)), r)
      ensures Evolves(core.env, setup, transport, old(core.State()), old(sent), core.State(), sent)
    {
      hide Plan, Do;
      var n := sent;
      sent := n + 1;
      ghost var s := core.State();
      if transport.network(n) == RequestLost {
        OneRequest(core.env, setup, transport, s, n, s);
        return None;
      }
      var r := Dispatch(call, actor, transport.ids(n), transport.clock(n));
      ServedIs(core.env, setup, transport, n, s, core.State(), call, actor, r);
      OneRequest(core.env, setup, transport, s, n, core.State());
      answer := if transport.network(n) == ResponseLost then None else Some(r);
    }

    /** _post expecting a new status: the call's planned write happens at most once. */
    method Advance(name: string, call: Call, actor: Actor, expected: Status, ghost finding: string, ghost row: Finding)
      returns (passed: bool)
      requires Own(setup, call, actor)
      requires PlansRow(core.env, core.State(), call, actor, finding, row) && row.status == expected
      modifies this, core
      ensures Went(old(core.State()), old(sent), passed) && sent == old(sent) + 1
      ensures passed ==> gates == old(gates) + [(name, true)]
      ensures core.findings == old(core.findings) || Moved(old(core.findings), core.findings, finding, row)
      ensures passed ==> Moved(old(core.findings), core.findings, finding, row)
    {
      hide PlansRowAt, Do, Moved, Evolves;
      ghost var s, n := core.State(), sent;
      var answer := Send(call, actor);
      assert PlansRowAt(core.env, s, call, actor, finding, row, transport.clock(n));
      WriteOutcome(core.env, s, call, actor, transport.ids(n), transport.clock(n), finding, row);
      passed := answer.Some? && answer.value.Ok? && answer.value.value.status == expected;
      if answer.Some? { gates := gates + [(name, passed)]; }
      if answer.Some? && !passed {
        RefusedWrite(core.env, setup, transport, s, n, call, actor, finding, row);
      }
    }

    /** _post expecting a refusal: nothing changes. */
    method Refuse(name: string, call: Call, actor: Actor, error: GovernanceError) returns (passed: bool)
      requires Own(setup, call, actor) && Refused(core.env, core.State(), call, actor, error)
      modifies this, core
      ensures Went(old(core.State()), old(sent), passed) && sent == old(sent) + 1
      ensures passed ==> gates == old(gates) + [(name, true)]
      ensures core.State() == old(core.State())
    {
      hide Plan, Evolves;
      ghost var s, n := core.State(), sent;
      assert Plan(core.env, s, call, actor, transport.clock(n)) == Err(error);
      var answer := Send(call, actor);
      passed := answer == Some(Err(error));
      if answer.Some? { gates := gates + [(name, passed)]; }
    }

    /** _finding_state: Some(None) is "absent", None a failure. */
    method FindingState(
      name: string, finding: string, allowed: set<Status>, expected: Finding -> bool, allowAbsent: bool)
      returns (r: Option<Option<Status>>)
      modifies this
      ensures sent == old(sent) + 1
      ensures r.Some? ==> Went(core.State(), old(sent), true) && gates == old(gates) + [(name, true)]
      ensures r.None? ==>
                Went(core.State(), old(sent), false)
                || !Acceptable(core.findings, finding, allowed, expected, allowAbsent)
      ensures r == Some(None) ==> allowAbsent && finding !in core.findings
      ensures r.Some? && r.value.Some? ==>
                finding in core.findings && core.findings[finding].status == r.value.value && r.value.value in allowed
                && expected(core.findings[finding])
    {
      hide Evolves;
      var n := sent;
      sent := n + 1;
      OneRequest(core.env, setup, transport, core.State(), n, core.State());
      if transport.network(n) != Served { return None; }
      if finding !in core.findings {
        if !allowAbsent { return None; }
        gates := gates + [(name, true)];
        return Some(None);
      }
      var row := core.findings[finding];
      if row.status !in allowed || !expected(row) { return None; }
      gates := gates + [(name, true)];
      r := Some(Some(row.status));
    }

    /** Advance on the main finding. */
    method MoveMain(name: string, call: Call, actor: Actor, expected: Status, ghost row: Finding) returns (passed: bool)
      requires call.finding == setup.main && Own(setup, call, actor)
      requires PlansRow(core.env, core.State(), call, actor, setup.main, row) && row.status == expected
      requires MainRow(row, setup) && setup.main != setup.sod
      modifies this, core
      ensures Went(old(core.State()), old(sent), passed) && sent == old(sent) + 1
      ensures Stepped(old(core.findings), core.findings, setup, expected, passed)
    {
      hide Plan, PlansRow, Moved, MainRow, Attempt;
      ghost var before := core.findings;
      passed := Advance(name, call, actor, expected, setup.main, row);
      if Moved(before, core.findings, setup.main, row) { MovedMain(before, core.findings, setup, row); }
    }

    method MoveSod(name: string, call: Call, actor: Actor, expected: Status, ghost row: Finding) returns (passed: bool)
      requires call.finding == setup.sod && Own(setup, call, actor)
      requires PlansRow(core.env, core.State(), call, actor, setup.sod, row) && row.status == expected
      requires SodRow(row, setup) && setup.main != setup.sod
      modifies this, core
      ensures Went(old(core.State()), old(sent), passed) && sent == old(sent) + 1
      ensures SodStepped(old(core.findings), core.findings, setup, expected, passed)
    {
      hide Plan, PlansRow, Moved, SodRow, Attempt;
      ghost var before := core.findings;
      passed := Advance(name, call, actor, expected, setup.sod, row);
      if Moved(before, core.findings, setup.sod, row) { MovedSod(before, core.findings, setup, row); }
    }

    /** What was served since t continues what was served before it. */
    lemma Join(s: Store, m: nat, t: Store, n: nat, passed: bool)
      requires Attempt(core.env, setup, transport, s, m, t, n, true) && Went(t, n, passed)
      ensures Went(s, m, passed)
    {
      hide Attempt;
      Continue(core.env, setup, transport, s, m, t, n, core.State(), sent, passed);
    }

    /** The main finding's first three steps, each as one request. */
    method CreateMainFinding() returns (passed: bool)
      requires ValidSetup(core.env, setup) && setup.main !in core.findings
      modifies this, core
      ensures Went(old(core.State()), old(sent), passed) && sent == old(sent) + 1
      ensures Stepped(old(core.findings), core.findings, setup, Open, passed)
    {
      hide Plan, PlansRow, CleanText;
      var c := setup;
      CleanConstants();
      Levels();
      CreatePlanned(core.env, core.State(), AnalystActor(c), c.main, CONTROL, MAIN_TITLE, c.analyst, "critical");
      passed := MoveMain("finding_created", CreateMain(c), AnalystActor(c), Open,
                         NewRow(CONTROL, MAIN_TITLE, c.analyst, Critical));
    }

    method RefuseDuplicate() returns (passed: bool)
      requires ValidSetup(core.env, setup) && setup.main in core.findings
      modifies this, core
      ensures Went(old(core.State()), old(sent), passed) && sent == old(sent) + 1
      ensures core.State() == old(core.State())
    {
      hide Plan, Refused, CleanText;
      var c := setup;
      CleanConstants();
      Levels();
      CreatePlanned(core.env, core.State(), AnalystActor(c), c.main, CONTROL, MAIN_TITLE, c.analyst, "critical");
      passed := Refuse("duplicate_finding_rejected", CreateMain(c), AnalystActor(c), AlreadyExists);
    }

    method AssessMain() returns (passed: bool)
      requires ValidSetup(core.env, setup) && MainIn(core.findings, setup, {Open})
      modifies this, core
      ensures Went(old(core.State()), old(sent), passed) && sent == old(sent) + 1
      ensures Stepped(old(core.findings), core.findings, setup, RiskAssessed, passed)
    {
      hide Plan, PlansRow, CleanText;
      var c := setup;
      AssessPlanned(core.env, core.State(), AnalystActor(c), c.main, "critical");
      passed := MoveMain("risk_assessed", Call.AssessRisk(c.main, "high", "critical"), AnalystActor(c), RiskAssessed,
                         core.findings[c.main].(status := RiskAssessed));
    }

    method ProposeMainTreatment() returns (passed: bool)
      requires ValidSetup(core.env, setup) && MainIn(core.findings, setup, {RiskAssessed})
      modifies this, core
      ensures Went(old(core.State()), old(sent), passed) && sent == old(sent) + 1
      ensures Stepped(old(core.findings), core.findings, setup, PendingApproval, passed)
    {
      hide Plan, PlansRow, CleanText;
      var c := setup;
      CleanConstants();
      ProposePlanned(core.env, core.State(), AnalystActor(c), c.main, MAIN_REASON, c.analyst);
      passed := MoveMain("treatment_proposed", ProposeMain(c), AnalystActor(c), PendingApproval,
                         core.findings[c.main].(status := PendingApproval, treatment := Some(Mitigate),
                                                reason := Some(MAIN_REASON),
                                                actionOwner := Some(c.analyst), dueDate := None));
    }

    /** _analyst_prepare's first half: the main finding, created, assessed and proposed as far as still needed. */
    method PrepareMain() returns (passed: bool)
      requires ValidSetup(core.env, setup) && Ready(core.findings, setup, AnalystPrepare)
      modifies this, core
      ensures Went(old(core.State()), old(sent), passed) && sent <= old(sent) + 5
      ensures Ready(core.findings, setup, AnalystPrepare)
      ensures passed ==> MainIn(core.findings, setup, {PendingApproval})
    {
      hide SodRow, CleanText, Attempt;
      var c := setup;
      ghost var s, m := core.State(), sent;
      var found := FindingState("main_finding_resume_state", c.main, {Open, RiskAssessed, PendingApproval},
                                row => Identified(row, CONTROL, c.analyst), true);
      if found.None? { return false; }
      hide MainRow;
      var state := found.value;
      ghost var t, n := core.State(), sent;
      if state.None? {
        passed := CreateMainFinding();
        Join(s, m, t, n, passed);
        if !passed { return; }
        state := Some(Open);
        t, n := core.State(), sent;
      }
      passed := RefuseDuplicate();
      Join(s, m, t, n, passed);
      if !passed { return; }
      n := sent;
      if state == Some(Open) {
        passed := AssessMain();
        Join(s, m, t, n, passed);
        if !passed { return; }
        state := Some(RiskAssessed);
        t, n := core.State(), sent;
      }
      if state == Some(RiskAssessed) {
        passed := ProposeMainTreatment();
        Join(s, m, t, n, passed);
      }
    }

    /** The self-approval finding's three steps. */
    method CreateSodFinding() returns (passed: bool)
      requires ValidSetup(core.env, setup) && setup.sod !in core.findings
      modifies this, core
      ensures Went(old(core.State()), old(sent), passed) && sent == old(sent) + 1
      ensures SodStepped(old(core.findings), core.findings, setup, Open, passed)
    {
      hide Plan, PlansRow, CleanText;
      var c := setup;
      CleanConstants();
      Levels();
      CreatePlanned(core.env, core.State(), AnalystActor(c), c.sod, SOD_CONTROL, SOD_TITLE, c.approver, "high");
      passed := MoveSod("self_approval_finding_created", CreateSod(c), AnalystActor(c), Open,
                        NewRow(SOD_CONTROL, SOD_TITLE, c.approver, High));
    }

    method AssessSod() returns (passed: bool)
      requires ValidSetup(core.env, setup) && SodIn(core.findings, setup, {Open})
      modifies this, core
      ensures Went(old(core.State()), old(sent), passed) && sent == old(sent) + 1
      ensures SodStepped(old(core.findings), core.findings, setup, RiskAssessed, passed)
    {
      hide Plan, PlansRow, CleanText;
      var c := setup;
      AssessPlanned(core.env, core.State(), AnalystActor(c), c.sod, "high");
      passed := MoveSod("self_approval_risk_assessed", Call.AssessRisk(c.sod, "high", "high"), AnalystActor(c),
                        RiskAssessed,
                        core.findings[c.sod].(status := RiskAssessed));
    }

    method ProposeSodTreatment() returns (passed: bool)
      requires ValidSetup(core.env, setup) && SodIn(core.findings, setup, {RiskAssessed})
      modifies this, core
      ensures Went(old(core.State()), old(sent), passed) && sent == old(sent) + 1
      ensures SodStepped(old(core.findings), core.findings, setup, PendingApproval, passed)
    {
      hide Plan, PlansRow, CleanText;
      var c := setup;
      CleanConstants();
      ProposePlanned(core.env, core.State(), AnalystActor(c), c.sod, SOD_REASON, c.analyst);
      passed := MoveSod("self_approval_treatment_proposed", ProposeSod(c), AnalystActor(c), PendingApproval,
                        core.findings[c.sod].(status := PendingApproval, treatment := Some(Mitigate),
                                              reason := Some(SOD_REASON),
                                              actionOwner := Some(c.analyst), dueDate := None));
    }

    /** ... and its second half: the finding whose risk owner is the approver. */
    method PrepareSod() returns (passed: bool)
      requires ValidSetup(core.env, setup) && Ready(core.findings, setup, AnalystPrepare)
      modifies this, core
      ensures Went(old(core.State()), old(sent), passed) && sent <= old(sent) + 4
      ensures Ready(core.findings, setup, AnalystPrepare)
      ensures MainIn(old(core.findings), setup, {PendingApproval}) ==> MainIn(core.findings, setup, {PendingApproval})
      ensures passed ==> SodIn(core.findings, setup, {PendingApproval})
    {
      hide MainRow, CleanText, Attempt;
      var c := setup;
      ghost var s, m := core.State(), sent;
      var found := FindingState("self_approval_finding_resume_state", c.sod, {Open, RiskAssessed, PendingApproval},
                                row => Identified(row, SOD_CONTROL, c.approver), true);
      if found.None? { return false; }
      hide SodRow;
      var state := found.value;
      ghost var t, n := core.State(), sent;
      if state.None? {
        passed := CreateSodFinding();
        Join(s, m, t, n, passed);
        if !passed { return; }
        state := Some(Open);
        t, n := core.State(), sent;
      }
      if state == Some(Open) {
        passed := AssessSod();
        Join(s, m, t, n, passed);
        if !passed { return; }
        state := Some(RiskAssessed);
        t, n := core.State(), sent;
      }
      if state == Some(RiskAssessed) {
        passed := ProposeSodTreatment();
        Join(s, m, t, n, passed);
        if !passed { return; }
      }
      passed := true;
    }

    /** _analyst_prepare */
    method Prepare() returns (final: Option<Status>)
      requires ValidSetup(core.env, setup) && Ready(core.findings, setup, AnalystPrepare)
      modifies this, core
      ensures Went(old(core.State()), old(sent), final.Some?) && sent <= old(sent) + MAX_REQUESTS
      ensures Ready(core.findings, setup, AnalystPrepare)
      ensures final.Some? ==> final == Some(PendingApproval) && PhaseDone(core.findings, setup, AnalystPrepare)
    {
      hide MainRow, SodRow, Attempt;
      ghost var s, m := core.State(), sent;
      var passed := PrepareMain();
      if !passed { return None; }
      ghost var t, n := core.State(), sent;
      passed := PrepareSod();
      Join(s, m, t, n, passed);
      if !passed { return None; }
      final := Some(PendingApproval);
    }

    /** The approver, who owns the other finding's risk, may not approve it. */
    method RefuseSelfApproval() returns (passed: bool)
      requires ValidSetup(core.env, setup) && SodIn(core.findings, setup, {PendingApproval})
      modifies this, core
      ensures Went(old(core.State()), old(sent), passed) && sent <= old(sent) + 2
      ensures core.State() == old(core.State())
    {
      hide Plan, Refused, CleanText, Attempt;
      var c := setup;
      ghost var s, m := core.State(), sent;
      var sod := FindingState("self_approval_handoff_verified", c.sod, {PendingApproval},
                              row => Identified(row, SOD_CONTROL, c.approver) && Treated(row, c), false);
      if sod.None? { return false; }
      ghost var n := sent;
      ApprovePlanned(core.env, core.State(), ApproverActor(c), c.sod, "must be rejected");
      passed := Refuse("risk_owner_self_approval_rejected",
                       Call.ApproveTreatment(c.sod, "approved", "must be rejected"), ApproverActor(c), NotPermitted);
      Join(s, m, s, n, passed);
    }

    /** A waiting finding may not be closed yet, and is then approved. */
    method ApproveMain() returns (passed: bool)
      requires ValidSetup(core.env, setup) && MainIn(core.findings, setup, {PendingApproval})
      modifies this, core
      ensures Went(old(core.State()), old(sent), passed) && sent <= old(sent) + 2
      ensures Stepped(old(core.findings), core.findings, setup, Approved, passed)
    {
      hide Plan, PlansRow, Refused, CleanText, Attempt;
      var c := setup;
      ghost var s, m := core.State(), sent;
      ClosePlanned(core.env, core.State(), ApproverActor(c), c.main, "must not close before verification");
      passed := Refuse("premature_close_rejected",
                       Call.Close(c.main, "must not close before verification"), ApproverActor(c), CannotTransition);
      if !passed { return; }
      ghost var n := sent;
      ApprovePlanned(core.env, core.State(), ApproverActor(c), c.main, "staging validation");
      passed := MoveMain("treatment_approved",
                         Call.ApproveTreatment(c.main, "approved", "staging validation"), ApproverActor(c), Approved,
                         core.findings[c.main].(status := Approved));
      Join(s, m, s, n, passed);
    }

    /** _approver_approve: the risk owner's approval is refused, the other one succeeds. */
    method Approve() returns (final: Option<Status>)
      requires ValidSetup(core.env, setup) && Ready(core.findings, setup, ApproverApprove)
      modifies this, core
      ensures Went(old(core.State()), old(sent), final.Some?) && sent <= old(sent) + MAX_REQUESTS
      ensures Ready(core.findings, setup, ApproverApprove)
      ensures final.Some? ==> final == Some(Approved) && PhaseDone(core.findings, setup, ApproverApprove)
    {
      hide SodRow, CleanText, Attempt;
      var c := setup;
      ghost var s, m := core.State(), sent;
      var passed := RefuseSelfApproval();
      if !passed { return None; }
      ghost var n := sent;
      var found := FindingState("pending_approval_handoff_verified", c.main, {PendingApproval, Approved},
                                row => Identified(row, CONTROL, c.analyst) && Treated(row, c), false);
      Join(s, m, s, n, found.Some?);
      if found.None? { return None; }
      hide MainRow;
      if found.value == Some(PendingApproval) {
        n := sent;
        passed := ApproveMain();
        Join(s, m, s, n, passed);
        if !passed { return None; }
      }
      final := Some(Approved);
    }

    method StartWork() returns (passed: bool)
      requires ValidSetup(core.env, setup) && MainIn(core.findings, setup, {Approved})
      modifies this, core
      ensures Went(old(core.State()), old(sent), passed) && sent == old(sent) + 1
      ensures Stepped(old(core.findings), core.findings, setup, InProgress, passed)
    {
      hide Plan, PlansRow, CleanText;
      var c := setup;
      StartPlanned(core.env, core.State(), AnalystActor(c), c.main, c.analyst);
      passed := MoveMain("action_started", Call.StartAction(c.main, c.analyst), AnalystActor(c), InProgress,
                         core.findings[c.main].(status := InProgress, implementer := Some(c.analyst)));
    }

    method HandIn() returns (passed: bool)
      requires ValidSetup(core.env, setup) && MainIn(core.findings, setup, {InProgress})
      modifies this, core
      ensures Went(old(core.State()), old(sent), passed) && sent == old(sent) + 1
      ensures Stepped(old(core.findings), core.findings, setup, PendingVerification, passed)
    {
      hide Plan, PlansRow, CleanText;
      var c := setup;
      EvidencePlanned(core.env, core.State(), c);
      passed := MoveMain("evidence_submitted", Evidence(c), AnalystActor(c), PendingVerification,
                         core.findings[c.main].(status := PendingVerification, submitter := Some(c.analyst)));
    }

    /** The implementer, who also handed in the evidence, may not check it. */
    method RefuseOwnCheck() returns (passed: bool)
      requires ValidSetup(core.env, setup) && MainIn(core.findings, setup, {PendingVerification})
      modifies this, core
      ensures Went(old(core.State()), old(sent), passed) && sent == old(sent) + 1
      ensures core.State() == old(core.State())
    {
      hide Plan, Refused, CleanText;
      var c := setup;
      VerifyPlanned(core.env, core.State(), AnalystActor(c), c.main, "must be independently verified");
      passed := Refuse("implementer_self_verification_rejected",
                       Call.Verify(c.main, true, "must be independently verified"), AnalystActor(c), NotPermitted);
    }

    /** _analyst_remediate: work starts, evidence is handed in, and the implementer's own check is refused. */
    method Remediate() returns (final: Option<Status>)
      requires ValidSetup(core.env, setup) && Ready(core.findings, setup, AnalystRemediate)
      modifies this, core
      ensures Went(old(core.State()), old(sent), final.Some?) && sent <= old(sent) + MAX_REQUESTS
      ensures Ready(core.findings, setup, AnalystRemediate)
      ensures final.Some? ==> final == Some(PendingVerification) && PhaseDone(core.findings, setup, AnalystRemediate)
    {
      hide SodRow, CleanText, Attempt;
      var c := setup;
      ghost var s, m := core.State(), sent;
      var found := FindingState("approved_handoff_verified", c.main, {Approved, InProgress, PendingVerification},
                                row => Identified(row, CONTROL, c.analyst) && Treated(row, c) && Worked(row, c), false);
      if found.None? { return None; }
      hide MainRow;
      var state, passed := found.value.value, true;
      ghost var t, n := core.State(), sent;
      if state == Approved {
        passed := StartWork();
        Join(s, m, t, n, passed);
        if !passed { return None; }
        state := InProgress;
        t, n := core.State(), sent;
      }
      if state == InProgress {
        passed := HandIn();
        Join(s, m, t, n, passed);
        if !passed { return None; }
        t, n := core.State(), sent;
      }
      passed := RefuseOwnCheck();
      Join(s, m, t, n, passed);
      if !passed { return None; }
      final := Some(PendingVerification);
    }

    method CheckIndependently() returns (passed: bool)
      requires ValidSetup(core.env, setup) && MainIn(core.findings, setup, {PendingVerification})
      modifies this, core
      ensures Went(old(core.State()), old(sent), passed) && sent == old(sent) + 1
      ensures Stepped(old(core.findings), core.findings, setup, Verified, passed)
    {
      hide Plan, PlansRow, Refused, CleanText, Attempt;
      var c := setup;
      VerifyPlanned(core.env, core.State(), ApproverActor(c), c.main, "validated in private Azure staging");
      passed := MoveMain("independent_verification_passed",
                         Call.Verify(c.main, true, "validated in private Azure staging"), ApproverActor(c), Verified,
                         core.findings[c.main].(status := Verified));
    }

    method CloseVerified() returns (passed: bool)
      requires ValidSetup(core.env, setup) && MainIn(core.findings, setup, {Verified})
      modifies this, core
      ensures Went(old(core.State()), old(sent), passed) && sent == old(sent) + 1
      ensures Stepped(old(core.findings), core.findings, setup, Closed, passed)
    {
      hide Plan, PlansRow, Refused, CleanText, Attempt;
      var c := setup;
      ClosePlanned(core.env, core.State(), ApproverActor(c), c.main, "role-isolated staging lifecycle completed");
      passed := MoveMain("finding_closed",
                         Call.Close(c.main, "role-isolated staging lifecycle completed"), ApproverActor(c), Closed,
                         core.findings[c.main].(status := Closed));
    }

    /** The independent check and the closure, as far as still needed. */
    method CheckAndClose(state: Status) returns (passed: bool)
      requires ValidSetup(core.env, setup) && MainIn(core.findings, setup, Statuses(ApproverClose))
      requires core.findings[setup.main].status == state
      modifies this, core
      ensures Went(old(core.State()), old(sent), passed) && sent <= old(sent) + 2
      ensures MainIn(core.findings, setup, Statuses(ApproverClose))
      ensures SameAt(old(core.findings), core.findings, setup.sod)
      ensures passed ==> MainIn(core.findings, setup, {Closed})
    {
      hide MainRow, CleanText, Attempt;
      ghost var s, m := core.State(), sent;
      Idle(core.env, setup, transport, s, m);
      ghost var t, n := s, m;
      if state == PendingVerification {
        passed := CheckIndependently();
        if !passed { return; }
        t, n := core.State(), sent;
      }
      if state != Closed {
        passed := CloseVerified();
        Join(s, m, t, n, passed);
        if !passed { return; }
      }
      passed := true;
    }

    /** _approver_close: the independent check, the closure, and a last look. */
    method CloseFinding() returns (final: Option<Status>)
      requires ValidSetup(core.env, setup) && Ready(core.findings, setup, ApproverClose)
      modifies this, core
      ensures Went(old(core.State()), old(sent), final.Some?) && sent <= old(sent) + MAX_REQUESTS
      ensures Ready(core.findings, setup, ApproverClose)
      ensures final.Some? ==> final == Some(Closed) && PhaseDone(core.findings, setup, ApproverClose)
    {
      hide CleanText, Attempt;
      var c := setup;
      ghost var s, m := core.State(), sent;
      var found := FindingState("pending_verification_handoff_verified", c.main,
                                {PendingVerification, Verified, Closed},
                                row => Identified(row, CONTROL, c.analyst) && Treated(row, c) && Worked(row, c), false);
      if found.None? { return None; }
      ghost var t, n := core.State(), sent;
      var passed := CheckAndClose(found.value.value);
      Join(s, m, t, n, passed);
      if !passed { return None; }
      t, n := core.State(), sent;
      var last := FindingState("closed_finding_readback", c.main, {Closed}, row => true, false);
      Join(s, m, t, n, last.Some?);
      if last.None? { return None; }
      final := Some(Closed);
    }

    /**
      * One attempt at a phase. It passes exactly when all its requests are served
      * and no insert is refused; otherwise it ends at the first that is not, and
      * can be made again.
      */
    method RunPhase(phase: Phase) returns (final: Option<Status>)
      requires ValidSetup(core.env, setup) && Ready(core.findings, setup, phase)
      modifies this, core
      ensures Went(old(core.State()), old(sent), final.Some?) && sent <= old(sent) + MAX_REQUESTS
      ensures Ready(core.findings, setup, phase)
      ensures final.Some? ==> final == Some(FinalStatus(phase)) && PhaseDone(core.findings, setup, phase)
    {
      match phase
      case AnalystPrepare => final := Prepare();
      case ApproverApprove => final := Approve();
      case AnalystRemediate => final := Remediate();
      case ApproverClose => final := CloseFinding();
    }

    /** Attempts at one phase until one passes: each one that fails has lost a request. */
    method Repeat(phase: Phase, attempts: nat) returns (final: Option<Status>)
      requires ValidSetup(core.env, setup) && Ready(core.findings, setup, phase)
      modifies this, core
      ensures Evolves(core.env, setup, transport, old(core.State()), old(sent), core.State(), sent) && old(sent) <= sent
      ensures Ready(core.findings, setup, phase)
      ensures final.Some? ==> final == Some(FinalStatus(phase)) && PhaseDone(core.findings, setup, phase)
      ensures final.None? && NoClash(core.env, setup, transport, old(core.State()), old(sent)) ==>
                Losses(transport, old(sent), sent) == attempts
    {
      hide PhaseDone, Ready, NoClash, Evolves;
      ghost var s, m := core.State(), sent;
      final := None;
      var tries := 0;
      Idle(core.env, setup, transport, s, m);
      while tries < attempts && final.None?
        invariant tries <= attempts && m <= sent && Ready(core.findings, setup, phase)
        invariant Evolves(core.env, setup, transport, s, m, core.State(), sent)
        invariant final.Some? ==> final == Some(FinalStatus(phase)) && PhaseDone(core.findings, setup, phase)
        invariant final.None? && NoClash(core.env, setup, transport, s, m) ==> Losses(transport, m, sent) == tries
      {
        ghost var t, n := core.State(), sent;
        final := RunPhase(phase);
        EvolvesOrdered(core.env, setup, transport, t, n, core.State(), sent);
        EvolvesTransitive(core.env, setup, transport, s, m, t, n, core.State(), sent);
        if NoClash(core.env, setup, transport, s, m) {
          NoClashLater(core.env, setup, transport, s, m, t, n);
          AttemptLosses(core.env, setup, transport, t, n, core.State(), sent, final.Some?);
          LossesAdd(transport, m, n, sent);
        }
        tries := tries + 1;
      }
    }

    /** The phases in their order, each repeated until it passes. */
    method RunPhases(phases: seq<Phase>, attempts: nat) returns (final: Option<Status>)
      requires ValidSetup(core.env, setup) && phases != [] && Ready(core.findings, setup, phases[0])
      requires forall i :: 0 <= i < |phases| - 1 ==> Follows(phases[i], phases[i + 1])
      modifies this, core
      ensures final.Some? ==>
                final == Some(FinalStatus(phases[|phases| - 1]))
                  && PhaseDone(core.findings, setup, phases[|phases| - 1])
      ensures old(sent) <= sent
      ensures NoClash(core.env, setup, transport, old(core.State()), old(sent)) ==>
                (Losses(transport, old(sent), sent) < attempts ==> final.Some?)
    {
      hide PhaseDone, Ready, NoClash, Evolves;
      ghost var s, m := core.State(), sent;
      Idle(core.env, setup, transport, s, m);
      final := None;
      var i := 0;
      while i < |phases|
        invariant 0 <= i <= |phases| && m <= sent
        invariant Evolves(core.env, setup, transport, s, m, core.State(), sent)
        invariant i == 0 ==> Ready(core.findings, setup, phases[0])
        invariant i > 0 ==> final == Some(FinalStatus(phases[i - 1])) && PhaseDone(core.findings, setup, phases[i - 1])
      {
        if i > 0 { NextReady(core.findings, setup, phases[i - 1], phases[i]); }
        ghost var t, n := core.State(), sent;
        final := Repeat(phases[i], attempts);
        EvolvesTransitive(core.env, setup, transport, s, m, t, n, core.State(), sent);
        LossesAdd(transport, m, n, sent);
        if final.None? {
          if NoClash(core.env, setup, transport, s, m) { NoClashLater(core.env, setup, transport, s, m, t, n); }
          return;
        }
        i := i + 1;
      }
    }

    /**
      * The whole validation: with more attempts per phase than requests get lost
      * in all, and no insert refused, the finding ends closed and the
      * self-approval finding still waits for approval. Without a loss one attempt
      * per phase is enough.
      */
    method ValidateLifecycle(attempts: nat) returns (final: Option<Status>)
      requires ValidSetup(core.env, setup) && setup.main !in core.findings && setup.sod !in core.findings
      modifies this, core
      ensures old(sent) <= sent
      ensures final.Some? ==>
                final == Some(Closed) && MainIn(core.findings, setup, {Closed})
                  && SodIn(core.findings, setup, {PendingApproval})
      ensures NoClash(core.env, setup, transport, old(core.State()), old(sent)) ==>
                (Losses(transport, old(sent), sent) < attempts ==> final.Some?)
    {
      hide NoClash;
      final := RunPhases([AnalystPrepare, ApproverApprove, AnalystRemediate, ApproverClose], attempts);
    }
  }

  predicate Follows(a: Phase, b: Phase) {
    match a
    case AnalystPrepare => b == ApproverApprove
    case ApproverApprove => b == AnalystRemediate
    case AnalystRemediate => b == ApproverClose
    case ApproverClose => false
  }

  predicate Worked(row: Finding, c: Setup) {
    && (row.status in {InProgress, PendingVerification, Verified, Closed} ==> row.implementer == Some(c.analyst))
    && (row.status in {PendingVerification, Verified, Closed} ==> row.submitter == Some(c.analyst))
  }

  lemma CleanConstants()
    ensures CleanText(CONTROL) && CleanText(SOD_CONTROL)
    ensures CleanText(MAIN_TITLE) && CleanText(SOD_TITLE) && CleanText(MAIN_REASON) && CleanText(SOD_REASON)
  {
    assert |MAIN_TITLE| == 48 && MAIN_TITLE[0] == 'R' && MAIN_TITLE[47] == 'n';
    assert |SOD_TITLE| == 45 && SOD_TITLE[0] == 'R' && SOD_TITLE[44] == 'n';
    assert |MAIN_REASON| == 38 && MAIN_REASON[0] == 'V' && MAIN_REASON[37] == 'e';
    assert |SOD_REASON| == 41 && SOD_REASON[0] == 'P' && SOD_REASON[40] == 'n';
  }

  /** A phase that passed makes the next one ready. */
  lemma NextReady(findings: map<string, Finding>, c: Setup, a: Phase, b: Phase)
    requires PhaseDone(findings, c, a) && Follows(a, b)
    ensures Ready(findings, c, b)
  {
  }

  /** The finding's state is one the phase resumes from. */
  predicate Acceptable(
    findings: map<string, Finding>, finding: string, allowed: set<Status>, expected: Finding -> bool, allowAbsent: bool)
  {
    if finding in findings then findings[finding].status in allowed && expected(findings[finding]) else allowAbsent
  }

  /** What the server did with a request it served is one step of the validator's own. */
  lemma ServedIs(
    env: Env, c: Setup, x: Transport, n: nat, s: Store, t: Store, call: Call, actor: Actor,
    r: Result<Finding, GovernanceError>)
    requires Own(c, call, actor) && Behaves(env, s, t, call, actor, x.ids(n), x.clock(n), r)
    ensures OwnStep(env, c, x, n, s, t)
  {
    hide Plan, AppendEvent;
    assert t == Served1(env, x, n, s, call, actor);
  }

  /** A served write that did not happen was refused by the event table. */
  lemma RefusedWrite(
    env: Env, c: Setup, x: Transport, s: Store, n: nat, call: Call, actor: Actor, finding: string, row: Finding)
    requires Own(c, call, actor) && PlansRowAt(env, s, call, actor, finding, row, x.clock(n))
    requires Do(env, s, call, actor, x.ids(n), x.clock(n)).Err?
    ensures RefusedNow(env, c, x, s, n) && Evolves(env, c, x, s, n, s, n)
  {
    hide Plan, Do;
    assert WriteRefused(env, s, call, actor, x.ids(n), x.clock(n));
  }
}
