/** governance_core.py's GovernanceCore as an object over its tables. */
module GovernanceCalls {
  import opened Basics
  import opened ChainedLog
  import opened LeaseQueue
  import opened AuditArchive
  import opened OutboxDelivery
  import opened GovernanceEvents
  import opened Lifecycle
  import opened Governance

  /** The call did exactly what Do says: the new tables and the row, or the error and no change. */
  ghost predicate Behaves(
    env: Env, before: Store, after: Store, call: Call, actor: Actor, ids: Ids, now: real,
    r: Result<Finding, GovernanceError>)
  {
    var spec := Do(env, before, call, actor, ids, now);
    if spec.Ok? then r == Ok(spec.value.row) && after == spec.value.store else r == Err(spec.error) && after == before
  }

  class GovernanceCore {
    const env: Env
    var findings: map<string, Finding>
    var events: map<string, seq<Event>>
    var outbox: Table
    var exports: Table
    var evidence: map<string, seq<EvidenceRow>>

    function State(): Store
      reads this
    {
      Store(findings, events, outbox, exports, evidence)
    }

    constructor (env: Env)
      ensures this.env == env && State() == Governance.EMPTY
    {
      this.env := env;
      findings, events, outbox, exports, evidence := map[], map[], map[], map[], map[];
    }

    /** _event: the next sequence and the chained hash, then one row in each of three tables. */
    method InsertEvent(finding: string, change: Change, actor: Actor, ids: Ids, now: real) returns (inserted: bool)
      modifies this
      ensures var spec := AppendEvent(env, old(State()), finding, change, actor, ids, now);
              inserted == spec.Some? && State() == if spec.Some? then spec.value else old(State())
    {
      hide EventText, EventBody, Payload;
      var rows := Rows(State(), finding);
      var latest := Latest(rows);
      var previous, sequence := "", 1;
      if latest.Some? {
        previous, sequence := latest.value.eventHash, latest.value.sequence + 1;
      }
      var at := env.stamp(now);
      var hash := env.sha(EventText(previous, EventBody(finding, change, actor, at, previous)));
      if HashTaken(State(), hash) { return false; }
      var e := Event(ids.event, sequence, change, actor, at, previous, hash);
      events := events[finding := rows + [e]];
      outbox := outbox[ids.outbox := NewRow(OutboxMessageOf(finding, e, now))];
      exports := exports[ids.archive := NewRow(ExportMessageOf(finding, e, now))];
      inserted := true;
    }

    /** A finding's row and its event in one transaction; a refused event rolls the row back. */
    method Mutate(
      finding: string, allowed: set<Status>, next: Finding, change: Change, actor: Actor, ids: Ids, now: real)
      returns (r: Result<Finding, GovernanceError>)
      modifies this
      ensures finding !in old(findings) ==> r == Err(NotFound) && State() == old(State())
      ensures finding in old(findings) ==>
              var w := PlanMutate(old(findings)[finding], finding, allowed, next, change, now);
              if w.Err? then r == Err(w.error) && State() == old(State())
              else
                var after := AppendEvent(env, Written(old(State()), w.value), finding, change, actor, ids, now);
                if after.Some? then r == Ok(w.value.row) && State() == after.value
                else r == Err(IntegrityViolation) && State() == old(State())
    {
      hide AppendEvent;
      if finding !in findings { return Err(NotFound); }
      var row := findings[finding];
      if row.status !in allowed { return Err(CannotTransition); }
      var written := next.(updatedAt := now);
      findings := findings[finding := written];
      assert State() == Written(old(State()), Write(finding, written, change, None));
      var inserted := InsertEvent(finding, change, actor, ids, now);
      if !inserted {
        findings := findings[finding := row];
        assert findings == old(findings);
        return Err(IntegrityViolation);
      }
      r := Ok(written);
    }

    method CreateFinding(finding: string, control: string, asset: string, title: string, riskOwner: string,
                         severity: string,
                         actor: Actor, ids: Ids, now: real) returns (r: Result<Finding, GovernanceError>)
      modifies this
      ensures Behaves(env, old(State()), State(),
                      Call.CreateFinding(finding, control, asset, title, riskOwner, severity), actor, ids, now, r)
    {
      hide IdentityOf, AppendEvent;
      if actor.role !in {Admin, Analyst} { return Err(NotPermitted); }
      var d := IdentityOf(finding, control, asset, title, riskOwner, severity);
      if d.None? { return Err(InvalidValue); }
      var id := d.value;
      if id.finding in findings { return Err(AlreadyExists); }
      var row := NewFinding(id, now);
      ghost var was := findings;
      findings := findings[id.finding := row];
      var inserted := InsertEvent(id.finding, Created(id.control, id.asset, id.severity), actor, ids, now);
      if !inserted {
        findings := map f | f in findings && f != id.finding :: findings[f];
        assert findings == was;
        return Err(AlreadyExists);
      }
      r := Ok(row);
    }

    method AssessRisk(finding: string, actor: Actor, likelihood: string, impact: string, ids: Ids, now: real)
      returns (r: Result<Finding, GovernanceError>)
      modifies this
      ensures Behaves(env, old(State()), State(), Call.AssessRisk(finding, likelihood, impact), actor, ids, now, r)
    {
      hide LevelOf, AppendEvent;
      if actor.role !in {RiskOwner, Analyst, Admin} { return Err(NotPermitted); }
      var l, i := LevelOf(likelihood), LevelOf(impact);
      if l.None? || i.None? { return Err(InvalidValue); }
      if finding !in findings { return Err(NotFound); }
      var row := findings[finding];
      r := Mutate(finding, {Open, Rejected}, row.(status := RiskAssessed), Assessed(l.value, i.value), actor, ids, now);
    }

    method ProposeTreatment(finding: string, actor: Actor, treatment: string, reason: string, actionOwner: string,
                            dueDate: Option<string>, ids: Ids, now: real) returns (r: Result<Finding, GovernanceError>)
      modifies this
      ensures Behaves(env, old(State()), State(),
                      Call.ProposeTreatment(finding, treatment, reason, actionOwner, dueDate), actor, ids, now, r)
    {
      hide TreatmentOf, RequiredText, AppendEvent;
      if actor.role !in {RiskOwner, Analyst, Admin} { return Err(NotPermitted); }
      var t, text, owner := TreatmentOf(treatment), RequiredText(reason, MAX_TEXT_LENGTH), Identifier(actionOwner);
      if t.None? || text.None? || owner.None? { return Err(InvalidValue); }
      if dueDate.Some? && !env.isDate(dueDate.value) { return Err(InvalidValue); }
      if finding !in findings { return Err(NotFound); }
      var row := findings[finding].(
        status := PendingApproval, treatment := t, reason := text, actionOwner := owner, dueDate := dueDate);
      r := Mutate(finding, {RiskAssessed}, row, Proposed(t.value, text.value, owner.value), actor, ids, now);
    }

    method ApproveTreatment(finding: string, actor: Actor, decision: string, reason: string, ids: Ids, now: real)
      returns (r: Result<Finding, GovernanceError>)
      modifies this
      ensures Behaves(env, old(State()), State(), Call.ApproveTreatment(finding, decision, reason), actor, ids, now, r)
    {
      hide AppendEvent;
      if actor.role !in {Approver, Ciso, RiskCommittee} { return Err(NotPermitted); }
      if decision != "approved" && decision != "rejected" { return Err(InvalidValue); }
      if finding !in findings { return Err(NotFound); }
      var row := findings[finding];
      if actor.id == row.riskOwner { return Err(NotPermitted); }
      var status := RiskAssessed;
      if decision == "approved" {
        status := if row.treatment == Some(Accept) then Accepted else Approved;
      }
      r := Mutate(finding, {PendingApproval}, row.(status := status), Decided(decision == "approved", reason), actor,
                  ids, now);
    }

    method StartAction(finding: string, actor: Actor, implementer: string, ids: Ids, now: real)
      returns (r: Result<Finding, GovernanceError>)
      modifies this
      ensures Behaves(env, old(State()), State(), Call.StartAction(finding, implementer), actor, ids, now, r)
    {
      hide RequiredText, AppendEvent;
      if actor.role !in {RiskOwner, Analyst, Admin} { return Err(NotPermitted); }
      var i := Identifier(implementer);
      if i.None? { return Err(InvalidValue); }
      if finding !in findings { return Err(NotFound); }
      var row := findings[finding];
      r := Mutate(finding, {Approved}, row.(status := InProgress, implementer := i), Started(i.value), actor, ids, now);
    }

    /** Handing in the same evidence again while it waits for its check changes nothing. */
    method SubmitEvidence(finding: string, actor: Actor, source: string, content: string, evidenceId: string,
                          stored: Stored,
                          ids: Ids, now: real) returns (r: Result<Finding, GovernanceError>)
      modifies this
      ensures Behaves(env, old(State()), State(), Call.SubmitEvidence(finding, source, content, evidenceId, stored),
                      actor, ids, now, r)
    {
      hide RequiredText, AppendEvent;
      if actor.role !in {RiskOwner, Analyst, Admin} { return Err(NotPermitted); }
      var name := RequiredText(source, MAX_IDENTIFIER_LENGTH);
      if name.None? || content == "" || Utf8Size(content) > MAX_EVIDENCE_BYTES { return Err(InvalidValue); }
      var digest := env.sha(content);
      if finding !in findings { return Err(NotFound); }
      var row := findings[finding];
      var item := EvidenceRow(name.value, digest, actor.id);
      if row.status == PendingVerification && item in EvidenceOf(State(), finding) { return Ok(row); }
      if row.status != InProgress { return Err(CannotTransition); }
      if stored.sha256 != digest { return Err(InconsistentStore); }
      ghost var before := State();
      var rows, written := evidence, row.(status := PendingVerification, submitter := Some(actor.id), updatedAt := now);
      evidence := evidence[finding := EvidenceOf(State(), finding) + [item]];
      findings := findings[finding := written];
      var change := Submitted(evidenceId, name.value, stored.sha256, stored.objectKey, stored.size);
      assert State() == Written(before, Write(finding, written, change, Some(item)));
      var inserted := InsertEvent(finding, change, actor, ids, now);
      if !inserted {
        evidence, findings := rows, findings[finding := row];
        assert State() == before;
        return Err(IntegrityViolation);
      }
      r := Ok(written);
    }

    method Verify(finding: string, actor: Actor, passed: bool, notes: string, ids: Ids, now: real)
      returns (r: Result<Finding, GovernanceError>)
      modifies this
      ensures Behaves(env, old(State()), State(), Call.Verify(finding, passed, notes), actor, ids, now, r)
    {
      hide AppendEvent;
      if actor.role !in {Analyst, Approver, Ciso, RiskCommittee} { return Err(NotPermitted); }
      if finding !in findings { return Err(NotFound); }
      var row := findings[finding];
      if Some(actor.id) == row.implementer || Some(actor.id) == row.submitter { return Err(NotPermitted); }
      var status := if passed then Verified else InProgress;
      r := Mutate(finding, {PendingVerification}, row.(status := status), Checked(passed, notes), actor, ids, now);
    }

    method Close(finding: string, actor: Actor, reason: string, ids: Ids, now: real)
      returns (r: Result<Finding, GovernanceError>)
      modifies this
      ensures Behaves(env, old(State()), State(), Call.Close(finding, reason), actor, ids, now, r)
    {
      hide AppendEvent;
      if actor.role !in {Approver, Ciso, RiskCommittee} { return Err(NotPermitted); }
      if finding !in findings { return Err(NotFound); }
      var row := findings[finding];
      if row.status !in {Verified, Accepted} { return Err(CannotTransition); }
      r := Mutate(finding, {Verified, Accepted}, row.(status := Closed), Closing(reason), actor, ids, now);
    }

    /** Creates the finding once; afterwards records a reassessment of the same control and asset. */
    method UpsertFinding(finding: string, control: string, asset: string, title: string, riskOwner: string,
                         severity: string,
                         actor: Actor, ids: Ids, now: real) returns (r: Result<Finding, GovernanceError>)
      modifies this
      ensures Behaves(env, old(State()), State(),
                      Call.UpsertFinding(finding, control, asset, title, riskOwner, severity), actor, ids, now, r)
    {
      hide IdentityOf, AppendEvent;
      if actor.role !in {Admin, Analyst} { return Err(NotPermitted); }
      var d := IdentityOf(finding, control, asset, title, riskOwner, severity);
      if d.None? { return Err(InvalidValue); }
      r := CreateFinding(finding, control, asset, title, riskOwner, severity, actor, ids, now);
      if r.Ok? || r.error != AlreadyExists { return; }
      var id := d.value;
      if id.finding !in findings { return Err(Disappeared); }
      var row := findings[id.finding];
      if row.control != id.control || row.asset != id.asset { return Err(IdentityChanged); }
      ghost var before := State();
      var written := row.(title := id.title, riskOwner := id.riskOwner, severity := id.severity, updatedAt := now);
      findings := findings[id.finding := written];
      var change := Reassessed(id.control, id.asset, id.severity);
      assert State() == Written(before, Write(id.finding, written, change, None));
      var inserted := InsertEvent(id.finding, change, actor, ids, now);
      if !inserted {
        findings := findings[id.finding := row];
        assert State() == before;
        return Err(IntegrityViolation);
      }
      r := Ok(written);
    }

    /** verify_event_chain on the stored rows. */
    method VerifyChain(finding: string) returns (valid: bool)
      ensures valid <==> EventsChained(env.sha, finding, Rows(State(), finding))
    {
      valid := VerifyEventChain(env.sha, finding, Rows(State(), finding));
    }
  }
}
