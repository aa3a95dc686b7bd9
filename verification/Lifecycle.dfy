/**
  * The finding lifecycle read off its events alone: what the log says the row
  * must be, which event may follow, and what a closed finding's log contains.
  */
module Lifecycle {
  import opened Basics
  import opened GovernanceEvents

  datatype Status =
    | Open | RiskAssessed | PendingApproval | Approved | Rejected | Accepted
    | InProgress | PendingVerification | Verified | Closed

  /** The columns of a finding that its events determine. */
  datatype View = View(
    status: Status, severity: Level, control: string, asset: string,
    treatment: Option<Treatment>, reason: Option<string>, actionOwner: Option<string>,
    implementer: Option<string>, submitter: Option<string>)

  function Apply(v: View, e: Event): View {
    match e.change
    case Created(_, _, _) => v
    case Assessed(_, _) => v.(status := RiskAssessed)
    case Proposed(treatment, reason, actionOwner) =>
      v.(status := PendingApproval, treatment := Some(treatment), reason := Some(reason),
         actionOwner := Some(actionOwner))
    case Decided(approved, _) =>
      v.(status := if !approved then RiskAssessed else if v.treatment == Some(Accept) then Accepted else Approved)
    case Started(implementer) => v.(status := InProgress, implementer := Some(implementer))
    case Submitted(_, _, _, _, _) => v.(status := PendingVerification, submitter := Some(e.actor.id))
    case Checked(passed, _) => v.(status := if passed then Verified else InProgress)
    case Closing(_) => v.(status := Closed)
    case Reassessed(_, _, severity) => v.(severity := severity)
  }

  function First(e: Event): Option<View> {
    match e.change
    case Created(control, asset, severity) => Some(View(Open, severity, control, asset, None, None, None, None, None))
    case _ => None
  }

  /** The finding its events describe. */
  function Fold(events: seq<Event>): Option<View> {
    if events == [] then None
    else
      var before, e := Fold(events[..|events| - 1]), events[|events| - 1];
      if |events| == 1 then First(e) else if before.None? then None else Some(Apply(before.value, e))
  }

  predicate RolePermits(r: Role, c: Change) {
    match c
    case Created(_, _, _) => r in {Admin, Analyst}
    case Reassessed(_, _, _) => r in {Admin, Analyst}
    case Assessed(_, _) => r in {RiskOwner, Analyst, Admin}
    case Proposed(_, _, _) => r in {RiskOwner, Analyst, Admin}
    case Started(_) => r in {RiskOwner, Analyst, Admin}
    case Submitted(_, _, _, _, _) => r in {RiskOwner, Analyst, Admin}
    case Decided(_, _) => r in {Approver, Ciso, RiskCommittee}
    case Closing(_) => r in {Approver, Ciso, RiskCommittee}
    case Checked(_, _) => r in {Analyst, Approver, Ciso, RiskCommittee}
  }

  /** The event may follow a log that describes v. */
  predicate Permitted(v: View, e: Event) {
    && RolePermits(e.actor.role, e.change)
    && match e.change
       case Created(_, _, _) => false
       case Assessed(_, _) => v.status == Open || v.status == Rejected
       case Proposed(_, _, _) => v.status == RiskAssessed
       case Decided(_, _) => v.status == PendingApproval
       case Started(_) => v.status == Approved
       case Submitted(_, _, _, _, _) => v.status == InProgress
       case Checked(_, _) =>
         v.status == PendingVerification && Some(e.actor.id) != v.implementer && Some(e.actor.id) != v.submitter
       case Closing(_) => v.status == Verified || v.status == Accepted
       case Reassessed(control, asset, _) => control == v.control && asset == v.asset
  }

  predicate Opens(e: Event) {
    e.change.Created? && RolePermits(e.actor.role, e.change)
  }

  /** A log that started with a creation and only ever took permitted events. */
  ghost predicate Legal(events: seq<Event>)
    decreases |events|
  {
    if events == [] then false
    else if |events| == 1 then Opens(events[0])
    else
      var before := events[..|events| - 1];
      Legal(before) && Fold(before).Some? && Permitted(Fold(before).value, events[|events| - 1])
  }

  lemma LegalSnoc(events: seq<Event>, e: Event)
    requires Legal(events) && Fold(events).Some? && Permitted(Fold(events).value, e)
    ensures Legal(events + [e]) && Fold(events + [e]) == Some(Apply(Fold(events).value, e))
  {
    assert (events + [e])[..|events|] == events;
  }

  // ----- What a status says about the past -----

  predicate ApprovedAt(events: seq<Event>, a: nat, accept: bool) {
    && a < |events| && events[a].change.Decided? && events[a].change.approved
    && Fold(events[..a]).Some? && Fold(events[..a]).value.status == PendingApproval
    && (Fold(events[..a]).value.treatment == Some(Accept) <==> accept)
  }

  predicate StartedAt(events: seq<Event>, s: nat, implementer: Option<string>) {
    s < |events| && events[s].change.Started? && Some(events[s].change.implementer) == implementer
  }

  predicate SubmittedAt(events: seq<Event>, e: nat, submitter: Option<string>) {
    e < |events| && events[e].change.Submitted? && Some(events[e].actor.id) == submitter
  }

  predicate PassedAt(events: seq<Event>, v: nat, implementer: Option<string>, submitter: Option<string>) {
    && v < |events| && events[v].change.Checked? && events[v].change.passed
    && Some(events[v].actor.id) != implementer && Some(events[v].actor.id) != submitter
  }

  /** No event in the range restarts the work or hands it in again. */
  predicate NoNewWork(events: seq<Event>, from: nat, to: nat) {
    forall i :: from < i < to && i < |events| ==> !events[i].change.Started? && !events[i].change.Submitted?
  }

  predicate NotRestarted(events: seq<Event>, from: nat, to: nat) {
    forall i :: from < i < to && i < |events| ==> !events[i].change.Started?
  }

  /** The positions of the approval, the start, the last submission and the passed check. */
  datatype Trail = Trail(a: nat, s: nat, e: nat, v: nat)

  ghost predicate AcceptedTrail(events: seq<Event>, a: nat) {
    ApprovedAt(events, a, true)
  }

  ghost predicate WorkedTrail(events: seq<Event>, t: Trail, implementer: Option<string>, submitter: Option<string>) {
    && t.a < t.s < t.e < t.v
    && ApprovedAt(events, t.a, false) && StartedAt(events, t.s, implementer) && SubmittedAt(events, t.e, submitter)
    && PassedAt(events, t.v, implementer, submitter) && NotRestarted(events, t.s, |events|)
       && NoNewWork(events, t.e, |events|)
  }

  /** What the log must hold for the finding to have its present status. */
  ghost predicate Reached(events: seq<Event>, v: View) {
    match v.status
    case Accepted => exists a :: AcceptedTrail(events, a)
    case Approved => exists a :: ApprovedAt(events, a, false)
    case InProgress => exists a, s :: StartTrail(events, a, s, v.implementer)
    case PendingVerification => exists a, s, e :: SubmitTrail(events, a, s, e, v.implementer, v.submitter)
    case Verified => exists t :: WorkedTrail(events, t, v.implementer, v.submitter)
    case Closed =>
      (exists a :: AcceptedTrail(events, a)) || exists t :: WorkedTrail(events, t, v.implementer, v.submitter)
    case _ => v.status != Rejected
  }

  ghost predicate StartTrail(events: seq<Event>, a: nat, s: nat, implementer: Option<string>) {
    a < s && ApprovedAt(events, a, false) && StartedAt(events, s, implementer) && NotRestarted(events, s, |events|)
  }

  ghost predicate SubmitTrail(
    events: seq<Event>, a: nat, s: nat, e: nat, implementer: Option<string>, submitter: Option<string>) {
    StartTrail(events, a, s, implementer) && s < e && SubmittedAt(events, e, submitter)
      && NoNewWork(events, e, |events|)
  }

  lemma ApprovedGrows(events: seq<Event>, e: Event, a: nat, accept: bool)
    requires ApprovedAt(events, a, accept)
    ensures ApprovedAt(events + [e], a, accept)
  {
    assert (events + [e])[..a] == events[..a];
  }

  lemma StartGrows(events: seq<Event>, e: Event, a: nat, s: nat, implementer: Option<string>)
    requires StartTrail(events, a, s, implementer) && !e.change.Started?
    ensures StartTrail(events + [e], a, s, implementer) && s < |events|
  {
    ApprovedGrows(events, e, a, false);
  }

  lemma SubmitGrows(
    events: seq<Event>, e: Event, a: nat, s: nat, i: nat, implementer: Option<string>, submitter: Option<string>)
    requires SubmitTrail(events, a, s, i, implementer, submitter) && !e.change.Started? && !e.change.Submitted?
    ensures SubmitTrail(events + [e], a, s, i, implementer, submitter) && i < |events|
  {
    StartGrows(events, e, a, s, implementer);
  }

  lemma WorkedGrows(events: seq<Event>, e: Event, t: Trail, implementer: Option<string>, submitter: Option<string>)
    requires WorkedTrail(events, t, implementer, submitter) && !e.change.Started? && !e.change.Submitted?
    ensures WorkedTrail(events + [e], t, implementer, submitter)
  {
    ApprovedGrows(events, e, t.a, false);
  }

  /** A legal log holds the steps its present status stands for. */
  lemma {:induction false} LegalReached(events: seq<Event>)
    requires Legal(events)
    ensures Fold(events).Some? && Reached(events, Fold(events).value)
    decreases |events|
  {
    hide WorkedTrail, AcceptedTrail, SubmitTrail, StartTrail, ApprovedAt;
    if |events| > 1 {
      var before, e := events[..|events| - 1], events[|events| - 1];
      assert events == before + [e];
      LegalReached(before);
      if e.change.Reassessed? {
        ReachedKept(before, e);
      } else {
        ReachedStep(before, e);
      }
    } else {
      assert events[..0] == [];
    }
  }

  /** A reassessment keeps what the status stands for. */
  lemma ReachedKept(before: seq<Event>, e: Event)
    requires Fold(before).Some? && Reached(before, Fold(before).value) && e.change.Reassessed?
    ensures Reached(before + [e], Apply(Fold(before).value, e))
  {
    hide WorkedTrail, SubmitTrail, StartTrail, ApprovedAt;
    var v := Fold(before).value;
    match v.status {
      case Accepted =>
        var a :| AcceptedTrail(before, a);
        ApprovedGrows(before, e, a, true);
        assert AcceptedTrail(before + [e], a);
      case Approved =>
        var a :| ApprovedAt(before, a, false);
        ApprovedGrows(before, e, a, false);
      case InProgress =>
        var a, s :| StartTrail(before, a, s, v.implementer);
        StartGrows(before, e, a, s, v.implementer);
      case PendingVerification =>
        var a, s, i :| SubmitTrail(before, a, s, i, v.implementer, v.submitter);
        SubmitGrows(before, e, a, s, i, v.implementer, v.submitter);
      case Verified =>
        var t :| WorkedTrail(before, t, v.implementer, v.submitter);
        WorkedGrows(before, e, t, v.implementer, v.submitter);
      case Closed => ClosedKept(before, e, v);
      case _ =>
    }
  }

  lemma ClosedKept(before: seq<Event>, e: Event, v: View)
    requires (exists a :: AcceptedTrail(before, a)) || exists t :: WorkedTrail(before, t, v.implementer, v.submitter)
    requires !e.change.Started? && !e.change.Submitted?
    ensures || (exists a :: AcceptedTrail(before + [e], a))
            || exists t :: WorkedTrail(before + [e], t, v.implementer, v.submitter)
  {
    hide WorkedTrail, ApprovedAt;
    if a :| AcceptedTrail(before, a) {
      ApprovedGrows(before, e, a, true);
      assert AcceptedTrail(before + [e], a);
    } else {
      var t :| WorkedTrail(before, t, v.implementer, v.submitter);
      WorkedGrows(before, e, t, v.implementer, v.submitter);
    }
  }

  /** Every other permitted event adds the step its new status stands for. */
  lemma ReachedStep(before: seq<Event>, e: Event)
    requires Fold(before).Some? && Reached(before, Fold(before).value) && Permitted(Fold(before).value, e)
    requires !e.change.Reassessed?
    ensures Reached(before + [e], Apply(Fold(before).value, e))
  {
    hide WorkedTrail, SubmitTrail, StartTrail;
    var v, all, n := Fold(before).value, before + [e], |before|;
    assert all[..n] == before;
    match e.change {
      case Decided(approved, _) =>
        assert approved ==> ApprovedAt(all, n, v.treatment == Some(Accept));
        assert approved && v.treatment == Some(Accept) ==> AcceptedTrail(all, n);
      case Started(implementer) =>
        var a :| ApprovedAt(before, a, false);
        ApprovedGrows(before, e, a, false);
        StartStep(before, e, a);
      case Submitted(_, _, _, _, _) =>
        var a, s :| StartTrail(before, a, s, v.implementer);
        StartGrows(before, e, a, s, v.implementer);
        SubmitStep(before, e, a, s, v.implementer);
      case Checked(passed, _) =>
        var a, s, i :| SubmitTrail(before, a, s, i, v.implementer, v.submitter);
        SubmitGrows(before, e, a, s, i, v.implementer, v.submitter);
        CheckStep(before, e, a, s, i, v.implementer, v.submitter);
      case Closing(_) =>
        ClosedKept(before, e, v);
      case _ =>
    }
  }

  lemma StartStep(before: seq<Event>, e: Event, a: nat)
    requires ApprovedAt(before + [e], a, false) && a < |before| && e.change.Started?
    ensures StartTrail(before + [e], a, |before|, Some(e.change.implementer))
  {
  }

  lemma SubmitStep(before: seq<Event>, e: Event, a: nat, s: nat, implementer: Option<string>)
    requires StartTrail(before + [e], a, s, implementer) && s < |before| && e.change.Submitted?
    ensures SubmitTrail(before + [e], a, s, |before|, implementer, Some(e.actor.id))
  {
  }

  lemma CheckStep(
    before: seq<Event>, e: Event, a: nat, s: nat, i: nat, implementer: Option<string>, submitter: Option<string>)
    requires SubmitTrail(before + [e], a, s, i, implementer, submitter) && i < |before| && e.change.Checked?
    requires Some(e.actor.id) != implementer && Some(e.actor.id) != submitter
    ensures StartTrail(before + [e], a, s, implementer)
    ensures e.change.passed ==> WorkedTrail(before + [e], Trail(a, s, i, |before|), implementer, submitter)
  {
  }
}
