/**
  * The whole path of an event: governance calls append to the two row tables
  * while any number of outbox and archive workers deliver from them. One run
  * interleaves all three.
  */
module EndToEnd {
  import opened Basics
  import opened CanonicalJson
  import opened ChainedLog
  import opened LeaseQueue
  import opened AuditArchive
  import opened OutboxDelivery
  import opened GovernanceEvents
  import Governance
  import GovernanceRuns
  import DeliveryRuns

  datatype Platform = Platform(store: Governance.Store, outbox: DeliveryRuns.System, exports: DeliveryRuns.System)

  const START := Platform(Governance.EMPTY, DeliveryRuns.START, DeliveryRuns.START)

  datatype Act =
    | Invoke(call: Governance.Call, actor: Actor, ids: Governance.Ids, now: real)
    | OutboxStep(step: DeliveryRuns.Step)
    | ExportStep(step: DeliveryRuns.Step)

  datatype World = World(env: Governance.Env, loads: Loads, numberIs: NumberIs)

  /** The outbox publishes the row's payload when from_item accepts it. */
  function OutboxRender(w: World): DeliveryRuns.Render {
    (id: string, m: Message) => if FromItem(w.env.sha, w.loads, w.numberIs, id, m).Ok? then Some(m.payload) else None
  }

  /** The archive stores the event's own canonical text when serialize_event accepts it. */
  function ExportRender(w: World): DeliveryRuns.Render {
    (id: string, m: Message) =>
      var v := w.loads(m.payload);
      if v.Some? && SerializeEvent(w.env.sha, v.value).Ok? then Some(SerializeEvent(w.env.sha, v.value).value.content)
      else None
  }

  function Request(act: Act): Governance.Request
    requires act.Invoke?
  {
    Governance.Invoke(act.call, act.actor, act.ids, act.now)
  }

  predicate Enabled(w: World, p: Platform, act: Act) {
    match act
    case Invoke(_, _, _, _) => Governance.Allowed(p.store, Request(act))
    case OutboxStep(step) => !step.Produce? && DeliveryRuns.Enabled(Outbox, OutboxRender(w), p.outbox, step)
    case ExportStep(step) => !step.Produce? && DeliveryRuns.Enabled(Audit, ExportRender(w), p.exports, step)
  }

  /** The call succeeded and appended an event. */
  predicate Appends(w: World, store: Governance.Store, act: Act)
    requires act.Invoke?
  {
    && Governance.Plan(w.env, store, act.call, act.actor, act.now).Ok?
    && Governance.Plan(w.env, store, act.call, act.actor, act.now).value.Write?
    && Governance.Do(w.env, store, act.call, act.actor, act.ids, act.now).Ok?
  }

  function NewEvent(w: World, store: Governance.Store, act: Act): Event
    requires act.Invoke? && Appends(w, store, act)
  {
    GovernanceRuns.EventOf(w.env, store, Governance.Plan(w.env, store, act.call, act.actor, act.now).value, act.actor,
                           act.ids, act.now)
  }

  function Target(w: World, store: Governance.Store, act: Act): string
    requires act.Invoke? && Appends(w, store, act)
  {
    Governance.Plan(w.env, store, act.call, act.actor, act.now).value.finding
  }

  /** A call's event enters both queues; a worker's update is seen by the store, whose tables these are. */
  function After(w: World, p: Platform, act: Act): Platform
    requires Enabled(w, p, act)
  {
    match act
    case Invoke(_, _, ids, now) =>
      if Appends(w, p.store, act) then
        var f, e := Target(w, p.store, act), NewEvent(w, p.store, act);
        Platform(Governance.Next(w.env, p.store, Request(act)),
                 DeliveryRuns.Produced(p.outbox, ids.outbox, OutboxMessageOf(f, e, now)),
                 DeliveryRuns.Produced(p.exports, ids.archive, ExportMessageOf(f, e, now)))
      else p.(store := Governance.Next(w.env, p.store, Request(act)))
    case OutboxStep(step) =>
      var s := DeliveryRuns.After(Outbox, OutboxRender(w), p.outbox, step);
      p.(store := p.store.(outbox := s.table), outbox := s)
    case ExportStep(step) =>
      var s := DeliveryRuns.After(Audit, ExportRender(w), p.exports, step);
      p.(store := p.store.(exports := s.table), exports := s)
  }

  function Run(w: World, acts: seq<Act>): Option<Platform>
    decreases |acts|
  {
    if acts == [] then Some(START)
    else
      var before := Run(w, acts[..|acts| - 1]);
      if before.Some? && Enabled(w, before.value, acts[|acts| - 1]) then Some(After(w, before.value, acts[|acts| - 1]))
      else None
  }

  /** The queue's production counts are the lengths of the event logs. */
  ghost predicate Counted(store: Governance.Store, s: DeliveryRuns.System) {
    forall f :: SameCount(store, s, f)
  }

  predicate SameCount(store: Governance.Store, s: DeliveryRuns.System, f: string) {
    |DeliveryRuns.EventsOf(s, f)| == |Governance.Rows(store, f)|
  }

  ghost predicate Inv(w: World, p: Platform) {
    && GovernanceRuns.Inv(w.env, p.store)
    && DeliveryRuns.Inv(OutboxRender(w), p.outbox) && DeliveryRuns.Inv(ExportRender(w), p.exports)
    && p.store.outbox == p.outbox.table && p.store.exports == p.exports.table
    && Counted(p.store, p.outbox) && Counted(p.store, p.exports)
  }

  lemma CallKeepsInv(w: World, p: Platform, act: Act)
    requires Inv(w, p) && act.Invoke? && Enabled(w, p, act)
    ensures Inv(w, After(w, p, act))
  {
    hide DeliveryRuns.Inv, GovernanceRuns.Inv, Governance.Plan, Governance.Do, GovernanceRuns.EventOf, OutboxRender;
    hide ExportRender;
    hide OutboxMessageOf, ExportMessageOf, Governance.FreshIds;
    GovernanceRuns.NextKeepsInv(w.env, p.store, Request(act));
    FreshRows(w, p, act);
    if Appends(w, p.store, act) {
      var f, e := Target(w, p.store, act), NewEvent(w, p.store, act);
      EventNumbered(w, p, act);
      GovernanceRuns.DoWrites(w.env, p.store, act.call, act.actor, act.ids, act.now);
      assert SameCount(p.store, p.outbox, f) && SameCount(p.store, p.exports, f);
      DeliveryRuns.ProduceKeepsInv(OutboxRender(w), p.outbox, act.ids.outbox, OutboxMessageOf(f, e, act.now));
      DeliveryRuns.ProduceKeepsInv(ExportRender(w), p.exports, act.ids.archive, ExportMessageOf(f, e, act.now));
      CountGrows(w, p, act, p.outbox, act.ids.outbox, OutboxMessageOf(f, e, act.now));
      CountGrows(w, p, act, p.exports, act.ids.archive, ExportMessageOf(f, e, act.now));
    } else {
      NothingAppended(w, p.store, act);
    }
  }

  lemma FreshRows(w: World, p: Platform, act: Act)
    requires act.Invoke? && Enabled(w, p, act)
    ensures act.ids.outbox !in p.store.outbox && act.ids.archive !in p.store.exports
  {
  }

  lemma EventNumbered(w: World, p: Platform, act: Act)
    requires GovernanceRuns.Inv(w.env, p.store) && act.Invoke? && Appends(w, p.store, act)
    ensures var f, e := Target(w, p.store, act), NewEvent(w, p.store, act);
            && OutboxMessageOf(f, e, act.now).sequence == |Governance.Rows(p.store, f)| + 1
            && ExportMessageOf(f, e, act.now).sequence == |Governance.Rows(p.store, f)| + 1
            && OutboxMessageOf(f, e, act.now).finding == f && ExportMessageOf(f, e, act.now).finding == f
  {
    hide Governance.Plan, Governance.Do, Payload, GovernanceRuns.FindingOk, GovernanceRuns.QueueOk;
    var plan := Governance.Plan(w.env, p.store, act.call, act.actor, act.now).value;
    GovernanceRuns.RowsOk(w.env, p.store, plan.finding);
    GovernanceRuns.NextEventIs(w.env, p.store, plan.finding, plan.change, act.actor, act.ids, act.now);
  }

  lemma CountGrows(w: World, p: Platform, act: Act, s: DeliveryRuns.System, id: string, m: Message)
    requires act.Invoke? && Appends(w, p.store, act) && Counted(p.store, s) && m.finding == Target(w, p.store, act)
    ensures Counted(Governance.Next(w.env, p.store, Request(act)), DeliveryRuns.Produced(s, id, m))
  {
    hide Governance.Plan, Governance.Do, GovernanceRuns.EventOf, OutboxMessageOf, ExportMessageOf;
    GovernanceRuns.DoWrites(w.env, p.store, act.call, act.actor, act.ids, act.now);
    var n := Governance.Next(w.env, p.store, Request(act));
    forall g ensures SameCount(n, DeliveryRuns.Produced(s, id, m), g) { assert SameCount(p.store, s, g); }
  }

  lemma NothingAppended(w: World, store: Governance.Store, act: Act)
    requires act.Invoke? && !Appends(w, store, act)
    ensures Governance.Next(w.env, store, Request(act)) == store
  {
    hide Governance.Plan, Governance.AppendEvent;
  }

  /** A worker's step changes settlement columns only. */
  lemma StepKeepsMessages(kind: Kind, render: DeliveryRuns.Render, s: DeliveryRuns.System, step: DeliveryRuns.Step)
    requires !step.Produce? && DeliveryRuns.Enabled(kind, render, s, step)
    ensures Governance.SameMessages(s.table, DeliveryRuns.After(kind, render, s, step).table)
    ensures DeliveryRuns.After(kind, render, s, step).produced == s.produced
  {
    match step
    case Ack(v, receipt, now) => DeliveryRuns.AckReleases(kind, s.table, s.workers[v].item, receipt, now);
    case Fail(v, permanent, maxAttempts, delay, error, now) =>
      DeliveryRuns.FailReleases(kind, s.table, s.workers[v].item, permanent, maxAttempts, delay, error, now);
    case RequeueDead(id, confirmation, now) => DeliveryRuns.RequeueReleases(kind, s.table, id, confirmation, now);
    case _ =>
  }

  lemma SameTableMessages(t: Table)
    ensures Governance.SameMessages(t, t)
  {
  }

  lemma CountedSame(store: Governance.Store, s: DeliveryRuns.System, n: Governance.Store, r: DeliveryRuns.System)
    requires Counted(store, s) && store.events == n.events && s.produced == r.produced
    ensures Counted(n, r)
  {
    forall f ensures SameCount(n, r, f) { assert SameCount(store, s, f); }
  }

  lemma OutboxKeepsInv(w: World, p: Platform, act: Act)
    requires Inv(w, p) && act.OutboxStep? && Enabled(w, p, act)
    ensures Inv(w, After(w, p, act))
  {
    hide DeliveryRuns.Inv, GovernanceRuns.Inv, DeliveryRuns.After, Governance.SameMessages, OutboxRender;
    hide ExportRender, Counted;
    var s := DeliveryRuns.After(Outbox, OutboxRender(w), p.outbox, act.step);
    DeliveryRuns.StepKeepsInv(Outbox, OutboxRender(w), p.outbox, act.step);
    StepKeepsMessages(Outbox, OutboxRender(w), p.outbox, act.step);
    SameTableMessages(p.exports.table);
    GovernanceRuns.NextKeepsInv(w.env, p.store, Governance.Deliver(s.table, p.store.exports));
    CountedSame(p.store, p.outbox, After(w, p, act).store, s);
    CountedSame(p.store, p.exports, After(w, p, act).store, p.exports);
  }

  lemma ExportKeepsInv(w: World, p: Platform, act: Act)
    requires Inv(w, p) && act.ExportStep? && Enabled(w, p, act)
    ensures Inv(w, After(w, p, act))
  {
    hide DeliveryRuns.Inv, GovernanceRuns.Inv, DeliveryRuns.After, Governance.SameMessages, OutboxRender;
    hide ExportRender, Counted;
    var s := DeliveryRuns.After(Audit, ExportRender(w), p.exports, act.step);
    DeliveryRuns.StepKeepsInv(Audit, ExportRender(w), p.exports, act.step);
    StepKeepsMessages(Audit, ExportRender(w), p.exports, act.step);
    SameTableMessages(p.outbox.table);
    GovernanceRuns.NextKeepsInv(w.env, p.store, Governance.Deliver(p.store.outbox, s.table));
    CountedSame(p.store, p.exports, After(w, p, act).store, s);
    CountedSame(p.store, p.outbox, After(w, p, act).store, p.outbox);
  }

  lemma {:induction false} RunKeepsInv(w: World, acts: seq<Act>)
    requires Run(w, acts).Some?
    ensures Inv(w, Run(w, acts).value)
    decreases |acts|
  {
    hide Inv, Enabled, After;
    if acts == [] {
      StartInv(w);
    } else {
      var before, act := acts[..|acts| - 1], acts[|acts| - 1];
      RunKeepsInv(w, before);
      var p := Run(w, before).value;
      match act
      case Invoke(_, _, _, _) => CallKeepsInv(w, p, act);
      case OutboxStep(_) => OutboxKeepsInv(w, p, act);
      case ExportStep(_) => ExportKeepsInv(w, p, act);
    }
  }

  lemma StartInv(w: World)
    ensures Inv(w, START)
  {
    GovernanceRuns.EmptyInv(w.env);
    DeliveryRuns.StartInv(OutboxRender(w));
    DeliveryRuns.StartInv(ExportRender(w));
  }

  /** A publication carries the event of its finding at its sequence, whole. */
  ghost predicate CarriesLoggedEvent(store: Governance.Store, p: DeliveryRuns.Publication) {
    var f, n := p.message.finding, p.message.sequence;
    && 1 <= n <= |Governance.Rows(store, f)|
    && p.message.eventId == Governance.Rows(store, f)[n - 1].eventId
    && p.message.payload == Payload(f, Governance.Rows(store, f)[n - 1])
  }

  /**
    * In every run of calls and workers, each finding's events reach the broker,
    * and the archive, for the first time in the order 1, 2, 3, ..., none before
    * it was logged, and everything sent is a logged event's own payload.
    */
  lemma EventsReachBothSinksInOrder(w: World, acts: seq<Act>, f: string)
    requires Run(w, acts).Some?
    ensures var p := Run(w, acts).value;
            forall s :: s == p.outbox || s == p.exports ==>
              var seen := DeliveryRuns.FirstSeen(s.log, f);
              seen == DeliveryRuns.OneTo(|seen|) && |seen| <= |Governance.Rows(p.store, f)|
              && forall q :: q in s.log ==> CarriesLoggedEvent(p.store, q)
    ensures forall q :: q in Run(w, acts).value.outbox.log ==> q.body == q.message.payload
  {
    hide GovernanceRuns.FindingsOk, Payload;
    RunKeepsInv(w, acts);
    var p := Run(w, acts).value;
    assert Inv(w, p);
    hide Run, GovernanceRuns.Inv, CarriesLoggedEvent, DeliveryRuns.FirstSeen, DeliveryRuns.OneTo;
    StoreQueues(w, p);
    SinkInOrder(w, p.store, OutboxRender(w), p.outbox, TOPIC, f);
    SinkInOrder(w, p.store, ExportRender(w), p.exports, "", f);
    forall q | q in p.outbox.log ensures q.body == q.message.payload {
      assert DeliveryRuns.Genuine(OutboxRender(w), p.outbox, q);
    }
  }

  lemma StoreQueues(w: World, p: Platform)
    requires Inv(w, p)
    ensures GovernanceRuns.QueueOk(p.store.events, p.outbox.table, TOPIC)
    ensures GovernanceRuns.QueueOk(p.store.events, p.exports.table, "")
  {
    hide GovernanceRuns.QueueOk, GovernanceRuns.FindingsOk, DeliveryRuns.Inv;
  }

  lemma SinkInOrder(
    w: World, store: Governance.Store, render: DeliveryRuns.Render, s: DeliveryRuns.System, topic: string, f: string)
    requires DeliveryRuns.Inv(render, s) && Counted(store, s) && GovernanceRuns.QueueOk(store.events, s.table, topic)
    ensures var seen := DeliveryRuns.FirstSeen(s.log, f);
            seen == DeliveryRuns.OneTo(|seen|) && |seen| <= |Governance.Rows(store, f)|
    ensures forall q :: q in s.log ==> CarriesLoggedEvent(store, q)
  {
    hide Payload;
    assert DeliveryRuns.FindingInOrder(s, f) && SameCount(store, s, f);
    forall q | q in s.log ensures CarriesLoggedEvent(store, q) {
      assert DeliveryRuns.Genuine(render, s, q);
      assert GovernanceRuns.RowOfEvent(store.events, s.table, topic, q.id);
    }
  }
}
