/**
  * What every reachable governance state keeps: rows are folds of their
  * events, events are numbered and chained, every event has its two queue
  * rows, and a closed finding went through due process.
  */
module GovernanceRuns {
  import opened Basics
  import opened CanonicalJson
  import opened ChainedLog
  import opened LeaseQueue
  import opened AuditArchive
  import opened OutboxDelivery
  import opened GovernanceEvents
  import opened Lifecycle
  import opened Governance

  /** The columns of a row that the event log determines. */
  function ViewOf(row: Finding): View {
    View(row.status, row.severity, row.control, row.asset, row.treatment, row.reason, row.actionOwner, row.implementer,
         row.submitter)
  }

  predicate SequenceAt(events: seq<Event>, i: nat)
    requires i < |events|
  {
    events[i].sequence == i + 1
  }

  predicate InSequence(events: seq<Event>) {
    forall i :: 0 <= i < |events| ==> SequenceAt(events, i)
  }

  predicate DistinctHashes(events: seq<Event>) {
    forall i, j :: 0 <= i < j < |events| ==> events[i].eventHash != events[j].eventHash
  }

  ghost predicate Authentic(env: Env, events: seq<Event>) {
    forall i :: 0 <= i < |events| ==> AuthenticEvent(env, events[i])
  }

  ghost predicate AuthenticEvent(env: Env, e: Event) {
    IsHexId(e.eventId) && ValidActor(e.actor) && exists now :: e.occurredAt == env.stamp(now)
  }

  /** One finding's row and log. */
  ghost predicate FindingOk(env: Env, row: Finding, finding: string, events: seq<Event>) {
    && Legal(events) && Fold(events) == Some(ViewOf(row))
    && InSequence(events) && EventsChained(env.sha, finding, events) && DistinctHashes(events) && Authentic(env, events)
  }

  ghost predicate FindingsOk(env: Env, store: Store) {
    && store.findings.Keys == store.events.Keys
    && forall f :: f in store.findings ==> FindingOk(env, store.findings[f], f, store.events[f])
  }

  predicate SameId(events: map<string, seq<Event>>, f: string, i: nat, g: string, j: nat) {
    && f in events && i < |events[f]| && g in events && j < |events[g]|
    && events[f][i].eventId == events[g][j].eventId
  }

  /** No two events carry one id. */
  ghost predicate UniqueEventIds(events: map<string, seq<Event>>) {
    forall f, i, g, j :: SameId(events, f, i, g, j) ==> f == g && i == j
  }

  lemma IdsGrow(store: Store, f: string, e: Event)
    requires UniqueEventIds(store.events) && EventIdFresh(store, e.eventId)
    ensures UniqueEventIds(store.events[f := Rows(store, f) + [e]])
  {
    var more := store.events[f := Rows(store, f) + [e]];
    forall g, i, h, j | SameId(more, g, i, h, j) ensures g == h && i == j {
      if !(g == f && i == |Rows(store, f)|) && !(h == f && j == |Rows(store, f)|) {
        assert SameId(store.events, g, i, h, j);
      }
    }
  }

  // ----- Queue rows -----

  /** A row of a queue table carries one of the logged events, whole. */
  predicate RowOfEvent(events: map<string, seq<Event>>, t: Table, topic: string, id: string)
    requires id in t
  {
    var m := t[id].message;
    && IsHexId(id) && m.finding in events && 1 <= m.sequence <= |events[m.finding]| && m.topic == topic
    && m.eventId == events[m.finding][m.sequence - 1].eventId
    && m.payload == Payload(m.finding, events[m.finding][m.sequence - 1])
  }

  predicate CarriesEvent(t: Table, f: string, n: nat, id: string) {
    id in t && t[id].message.finding == f && t[id].message.sequence == n
  }

  ghost predicate HasRow(t: Table, f: string, n: nat) {
    exists id :: CarriesEvent(t, f, n, id)
  }

  predicate SameSlot(t: Table, a: string, b: string) {
    a in t && b in t && t[a].message.finding == t[b].message.finding && t[a].message.sequence == t[b].message.sequence
  }

  ghost predicate AtMostOneRow(t: Table) {
    forall a, b :: SameSlot(t, a, b) ==> a == b
  }

  /** Rows and events correspond one to one. */
  ghost predicate QueueOk(events: map<string, seq<Event>>, t: Table, topic: string) {
    && (forall id :: id in t ==> RowOfEvent(events, t, topic, id))
    && (forall f, n :: f in events && 1 <= n <= |events[f]| ==> HasRow(t, f, n))
    && AtMostOneRow(t)
  }

  ghost predicate Inv(env: Env, store: Store) {
    && FindingsOk(env, store) && UniqueEventIds(store.events)
    && QueueOk(store.events, store.outbox, TOPIC) && QueueOk(store.events, store.exports, "")
  }

  // ----- One call -----

  lemma {:induction false} LatestIsLast(events: seq<Event>)
    requires InSequence(events) && events != []
    ensures Latest(events) == Some(events[|events| - 1])
  {
    var l := Latest(events).value;
    var i :| 0 <= i < |events| && events[i] == l;
    assert SequenceAt(events, i) && SequenceAt(events, |events| - 1);
    assert events[|events| - 1] in events;
  }

  /** An effect on an existing finding is a permitted event, and the new row is the old one with that event applied. */
  lemma PlanPermitted(env: Env, store: Store, call: Call, actor: Actor, now: real, e: Event)
    requires Plan(env, store, call, actor, now).Ok? && Plan(env, store, call, actor, now).value.Write?
    requires var w := Plan(env, store, call, actor, now).value; e.actor == actor && e.change == w.change
    ensures var w := Plan(env, store, call, actor, now).value;
            if w.finding in store.findings then
              var v := ViewOf(store.findings[w.finding]);
              Permitted(v, e) && ViewOf(w.row) == Apply(v, e)
            else Opens(e) && First(e) == Some(ViewOf(w.row))
    ensures var w := Plan(env, store, call, actor, now).value;
            w.change.Decided? ==> w.finding in store.findings && actor.id != store.findings[w.finding].riskOwner
  {
    hide IdentityOf, RequiredText, LevelOf, TreatmentOf, EvidenceOf;
  }

  /** A new log entry keeps the row a fold of its log, numbered and chained. */
  lemma LogGrows(env: Env, finding: string, row: Finding, next: Finding, events: seq<Event>, e: Event)
    requires FindingOk(env, row, finding, events)
    requires Permitted(ViewOf(row), e) && ViewOf(next) == Apply(ViewOf(row), e)
    requires e.sequence == |events| + 1 && EventLinks(env.sha, finding, PreviousHash(events), e)
    requires AuthenticEvent(env, e) && !HashIn(events, e.eventHash)
    ensures FindingOk(env, next, finding, events + [e])
  {
    hide Permitted, Apply, EventLinks;
    LegalSnoc(events, e);
    ChainedSnoc(env.sha, finding, events, e);
    forall i | 0 <= i < |events| + 1 ensures SequenceAt(events + [e], i) && AuthenticEvent(env, (events + [e])[i]) {
      if i < |events| { assert SequenceAt(events, i) && AuthenticEvent(env, events[i]); }
    }
  }

  lemma LogStarts(env: Env, finding: string, row: Finding, e: Event)
    requires Opens(e) && First(e) == Some(ViewOf(row))
    requires e.sequence == 1 && EventLinks(env.sha, finding, "", e) && AuthenticEvent(env, e)
    ensures FindingOk(env, row, finding, [e])
  {
    hide EventText, EventBody, BodyOf, EventLinks, AuthenticEvent, Apply, ViewOf, Opens, First;
    ChainedSnoc(env.sha, finding, [], e);
    assert [] + [e] == [e];
    assert Legal([e]) && Fold([e]) == First(e);
  }

  lemma CarriesMore(t: Table, id: string, m: Message, f: string, n: nat)
    requires id !in t && HasRow(t, f, n)
    ensures HasRow(t[id := NewRow(m)], f, n)
  {
    var old_id :| CarriesEvent(t, f, n, old_id);
    assert CarriesEvent(t[id := NewRow(m)], f, n, old_id);
  }

  /** One event and one row more, on both sides of the correspondence. */
  lemma QueueGrows(
    events: map<string, seq<Event>>, t: Table, topic: string, finding: string, e: Event, id: string, m: Message)
    requires QueueOk(events, t, topic) && id !in t && IsHexId(id)
    requires var es := if finding in events then events[finding] else [];
             e.sequence == |es| + 1
               && m == Message(e.eventId, finding, e.sequence, topic, Payload(finding, e), m.createdAt)
    ensures var es := if finding in events then events[finding] else [];
            QueueOk(events[finding := es + [e]], t[id := NewRow(m)], topic)
  {
    hide Payload, HasRow;
    var es := if finding in events then events[finding] else [];
    var more, u := events[finding := es + [e]], t[id := NewRow(m)];
    forall x | x in u ensures RowOfEvent(more, u, topic, x) {
      if x != id { assert RowOfEvent(events, t, topic, x); }
    }
    forall f, n | f in more && 1 <= n <= |more[f]| ensures HasRow(u, f, n) {
      if f == finding && n == |es| + 1 {
        NewRowCarries(t, id, m);
      } else {
        assert f in events && 1 <= n <= |events[f]|;
        CarriesMore(t, id, m, f, n);
      }
    }
    forall a, b | SameSlot(u, a, b) ensures a == b
    {
      assert a != id ==> RowOfEvent(events, t, topic, a);
      assert b != id ==> RowOfEvent(events, t, topic, b);
      assert a != id && b != id ==> SameSlot(t, a, b);
    }
  }

  lemma NewRowCarries(t: Table, id: string, m: Message)
    ensures HasRow(t[id := NewRow(m)], m.finding, m.sequence)
  {
    assert CarriesEvent(t[id := NewRow(m)], m.finding, m.sequence, id);
  }

  lemma QueueSameMessages(events: map<string, seq<Event>>, t: Table, u: Table, topic: string)
    requires QueueOk(events, t, topic) && SameMessages(t, u)
    ensures QueueOk(events, u, topic)
  {
    hide Payload;
    forall id | id in u ensures RowOfEvent(events, u, topic, id) { assert RowOfEvent(events, t, topic, id); }
    forall f, n | f in events && 1 <= n <= |events[f]| ensures HasRow(u, f, n) {
      assert HasRow(t, f, n);
      var id :| CarriesEvent(t, f, n, id);
      assert CarriesEvent(u, f, n, id);
    }
    forall a, b | SameSlot(u, a, b) ensures a == b { assert SameSlot(t, a, b); }
  }

  /** The event a call appends. */
  function EventOf(env: Env, store: Store, w: Effect, actor: Actor, ids: Ids, now: real): Event
    requires w.Write?
  {
    NextEvent(env, store, w.finding, w.change, actor, ids, now)
  }

  lemma NextEventIs(env: Env, store: Store, finding: string, change: Change, actor: Actor, ids: Ids, now: real)
    requires InSequence(Rows(store, finding))
    ensures var e := NextEvent(env, store, finding, change, actor, ids, now); var es := Rows(store, finding);
            e.sequence == |es| + 1 && EventLinks(env.sha, finding, PreviousHash(es), e)
            && e.eventId == ids.event && e.actor == actor && e.change == change && e.occurredAt == env.stamp(now)
  {
    hide EventText, EventBody;
    var es := Rows(store, finding);
    if es != [] {
      LatestIsLast(es);
      assert SequenceAt(es, |es| - 1);
    }
  }

  lemma RowsOk(env: Env, store: Store, f: string)
    requires Inv(env, store)
    ensures f in store.findings <==> f in store.events
    ensures f in store.findings ==> FindingOk(env, store.findings[f], f, Rows(store, f))
    ensures InSequence(Rows(store, f))
    ensures f !in store.findings ==> Rows(store, f) == []
  {
    hide QueueOk;
    assert f in store.findings <==> f in store.findings.Keys;
  }

  lemma NotTaken(store: Store, f: string, h: string)
    requires !HashTaken(store, h)
    ensures !HashIn(Rows(store, f), h)
  {
  }

  /** A successful call's effect on the four tables. */
  lemma DoWrites(env: Env, store: Store, call: Call, actor: Actor, ids: Ids, now: real)
    requires Plan(env, store, call, actor, now).Ok? && Plan(env, store, call, actor, now).value.Write?
    requires Do(env, store, call, actor, ids, now).Ok?
    ensures var w := Plan(env, store, call, actor, now).value;
            var r := Do(env, store, call, actor, ids, now).value.store;
            var e := EventOf(env, store, w, actor, ids, now); var f := w.finding;
            && r.findings == store.findings[f := w.row] && r.events == store.events[f := Rows(store, f) + [e]]
            && r.outbox == store.outbox[ids.outbox := NewRow(OutboxMessageOf(f, e, now))]
            && r.exports == store.exports[ids.archive := NewRow(ExportMessageOf(f, e, now))]
            && !HashIn(Rows(store, f), e.eventHash)
  {
    hide Plan, EventText, EventBody, Latest, HashTaken, Payload;
    var w := Plan(env, store, call, actor, now).value;
    var e := EventOf(env, store, w, actor, ids, now);
    assert Rows(Written(store, w), w.finding) == Rows(store, w.finding);
    assert EventOf(env, Written(store, w), w, actor, ids, now) == e;
    NotTaken(Written(store, w), w.finding, e.eventHash);
  }

  lemma WriteKeepsLog(env: Env, store: Store, call: Call, actor: Actor, ids: Ids, now: real)
    requires Inv(env, store) && Allowed(store, Invoke(call, actor, ids, now))
    requires Plan(env, store, call, actor, now).Ok? && Plan(env, store, call, actor, now).value.Write?
    requires Do(env, store, call, actor, ids, now).Ok?
    ensures var w := Plan(env, store, call, actor, now).value;
            FindingOk(env, w.row, w.finding, Rows(store, w.finding) + [EventOf(env, store, w, actor, ids, now)])
  {
    hide Plan, Legal, Fold, QueueOk, NextEvent, HashIn, FindingOk, Do, Inv, Permitted, First, EventLinks, InSequence;
    hide HashTaken;
    var w := Plan(env, store, call, actor, now).value;
    var f := w.finding;
    RowsOk(env, store, f);
    var e := EventOf(env, store, w, actor, ids, now);
    NextEventIs(env, store, f, w.change, actor, ids, now);
    PlanPermitted(env, store, call, actor, now, e);
    DoWrites(env, store, call, actor, ids, now);
    if f in store.findings {
      FoldOfRow(env, store.findings[f], f, Rows(store, f));
      LogGrows(env, f, store.findings[f], w.row, Rows(store, f), e);
    } else {
      LogStarts(env, f, w.row, e);
      assert [] + [e] == [e];
    }
  }

  lemma WriteKeepsFindings(env: Env, store: Store, call: Call, actor: Actor, ids: Ids, now: real)
    requires Inv(env, store) && Allowed(store, Invoke(call, actor, ids, now))
    requires Plan(env, store, call, actor, now).Ok? && Plan(env, store, call, actor, now).value.Write?
    requires Do(env, store, call, actor, ids, now).Ok?
    ensures FindingsOk(env, Do(env, store, call, actor, ids, now).value.store)
    ensures UniqueEventIds(Do(env, store, call, actor, ids, now).value.store.events)
  {
    hide Plan, QueueOk, NextEvent, HashIn, FindingOk, Do, EventOf, OutboxMessageOf, ExportMessageOf, UniqueEventIds;
    hide EventIdFresh;
    var w := Plan(env, store, call, actor, now).value;
    WriteKeepsLog(env, store, call, actor, ids, now);
    DoWrites(env, store, call, actor, ids, now);
    RowsOk(env, store, w.finding);
    NewEventId(env, store, w, actor, ids, now);
    IdsGrow(store, w.finding, EventOf(env, store, w, actor, ids, now));
  }

  lemma NewEventId(env: Env, store: Store, w: Effect, actor: Actor, ids: Ids, now: real)
    requires w.Write?
    ensures EventOf(env, store, w, actor, ids, now).eventId == ids.event
  {
  }

  lemma FoldOfRow(env: Env, row: Finding, f: string, events: seq<Event>)
    requires FindingOk(env, row, f, events)
    ensures Fold(events) == Some(ViewOf(row)) && Legal(events) && events != []
  {
  }

  lemma WriteKeepsQueues(env: Env, store: Store, call: Call, actor: Actor, ids: Ids, now: real)
    requires Inv(env, store) && Allowed(store, Invoke(call, actor, ids, now))
    requires Plan(env, store, call, actor, now).Ok? && Plan(env, store, call, actor, now).value.Write?
    requires Do(env, store, call, actor, ids, now).Ok?
    ensures var r := Do(env, store, call, actor, ids, now).value.store;
            QueueOk(r.events, r.outbox, TOPIC) && QueueOk(r.events, r.exports, "")
  {
    hide Plan, QueueOk, NextEvent, HashIn, FindingOk, Payload, Do;
    var w := Plan(env, store, call, actor, now).value;
    var f := w.finding;
    RowsOk(env, store, f);
    var e := EventOf(env, store, w, actor, ids, now);
    NextEventIs(env, store, f, w.change, actor, ids, now);
    DoWrites(env, store, call, actor, ids, now);
    QueueGrows(store.events, store.outbox, TOPIC, f, e, ids.outbox, OutboxMessageOf(f, e, now));
    QueueGrows(store.events, store.exports, "", f, e, ids.archive, ExportMessageOf(f, e, now));
  }

  lemma NextKeepsInv(env: Env, store: Store, r: Request)
    requires Inv(env, store) && Allowed(store, r)
    ensures Inv(env, Next(env, store, r))
  {
    hide Plan, AppendEvent, FindingOk;
    match r
    case Deliver(outbox, exports) =>
      QueueSameMessages(store.events, store.outbox, outbox, TOPIC);
      QueueSameMessages(store.events, store.exports, exports, "");
    case Invoke(call, actor, ids, now) =>
      var plan := Plan(env, store, call, actor, now);
      if Do(env, store, call, actor, ids, now).Ok? && plan.value.Write? {
        WriteKeepsFindings(env, store, call, actor, ids, now);
        WriteKeepsQueues(env, store, call, actor, ids, now);
      }
  }

  // ----- Main results -----

  /**
    * Event-sourcing refinement, chain and queue correspondence in every
    * reachable state, whatever calls and deliveries led there.
    */
  lemma {:induction false} ReachableInv(env: Env, requests: seq<Request>)
    requires Run(env, requests).Some?
    ensures Inv(env, Run(env, requests).value)
    decreases |requests|
  {
    hide Inv, Next, Allowed;
    if requests == [] {
      EmptyInv(env);
    } else {
      var before := requests[..|requests| - 1];
      ReachableInv(env, before);
      NextKeepsInv(env, Run(env, before).value, requests[|requests| - 1]);
    }
  }

  lemma EmptyInv(env: Env)
    ensures Inv(env, Governance.EMPTY)
  {
  }

  /**
    * In every reachable state a finding's row is the fold of its events, the
    * events are numbered 1..n, their chain verifies, and the log took only
    * permitted steps.
    */
  lemma RowIsFold(env: Env, requests: seq<Request>, f: string)
    requires Run(env, requests).Some? && f in Run(env, requests).value.findings
    ensures var store := Run(env, requests).value; var events := Rows(store, f);
            && Fold(events) == Some(ViewOf(store.findings[f])) && Legal(events)
            && (forall i :: 0 <= i < |events| ==> SequenceAt(events, i))
            && EventsChained(env.sha, f, events) && store.findings[f].status != Rejected
  {
    hide Legal, Fold, QueueOk;
    ReachableInv(env, requests);
    RowsOk(env, Run(env, requests).value, f);
    LegalReached(Rows(Run(env, requests).value, f));
  }

  ghost predicate OnlyRow(t: Table, f: string, n: nat, id: string) {
    CarriesEvent(t, f, n, id) && forall other :: CarriesEvent(t, f, n, other) ==> other == id
  }

  lemma Only(t: Table, f: string, n: nat, id: string)
    requires AtMostOneRow(t) && CarriesEvent(t, f, n, id)
    ensures OnlyRow(t, f, n, id)
  {
    forall other | CarriesEvent(t, f, n, other) ensures other == id { assert SameSlot(t, other, id); }
  }

  /** Each event has exactly one outbox row and exactly one export row, and both hold its payload. */
  lemma OneRowPerEvent(env: Env, requests: seq<Request>, f: string, i: nat) returns (o: string, x: string)
    requires Run(env, requests).Some? && i < |Rows(Run(env, requests).value, f)|
    ensures var store := Run(env, requests).value; var e := Rows(store, f)[i];
            && OnlyRow(store.outbox, f, i + 1, o) && OnlyRow(store.exports, f, i + 1, x)
            && store.outbox[o].message == OutboxMessageOf(f, e, store.outbox[o].message.createdAt)
            && store.exports[x].message == ExportMessageOf(f, e, store.exports[x].message.createdAt)
            && IsHexId(o) && IsHexId(x)
  {
    hide Payload, FindingOk;
    ReachableInv(env, requests);
    var store := Run(env, requests).value;
    RowsOk(env, store, f);
    SequenceOf(env, store, f, i);
    assert HasRow(store.outbox, f, i + 1) && HasRow(store.exports, f, i + 1);
    o :| CarriesEvent(store.outbox, f, i + 1, o);
    x :| CarriesEvent(store.exports, f, i + 1, x);
    Only(store.outbox, f, i + 1, o);
    Only(store.exports, f, i + 1, x);
    assert RowOfEvent(store.events, store.outbox, TOPIC, o) && RowOfEvent(store.events, store.exports, "", x);
  }

  lemma SequenceOf(env: Env, store: Store, f: string, i: nat)
    requires Inv(env, store) && i < |Rows(store, f)|
    ensures Rows(store, f)[i].sequence == i + 1 && AuthenticEvent(env, Rows(store, f)[i])
    ensures EventLinks(env.sha, f, PreviousHash(Rows(store, f)[..i]), Rows(store, f)[i])
  {
    hide QueueOk, Legal, Fold, EventLinks;
    RowsOk(env, store, f);
    assert SequenceAt(Rows(store, f), i) && LinkedAt(env.sha, f, Rows(store, f), i);
  }

  /** The clock's printed readings are JSON numbers that are read back as printed. */
  ghost predicate StampsRead(env: Env, loads: Loads) {
    (forall t :: Held(loads, Num(env.stamp(t)))) && forall n: nat :: loads(Decimal(n)) == Some(Num(Decimal(n)))
  }

  predicate ExportSerializes(env: Env, loads: Loads, payload: string) {
    var v := loads(payload);
    v.Some? && SerializeEvent(env.sha, v.value).Ok?
  }

  /** Within their limits, every event's two rows pass from_item and serialize_event. */
  lemma BothQueuesAccept(env: Env, loads: Loads, numberIs: NumberIs, requests: seq<Request>, f: string, i: nat)
    requires Reads(loads, true) && StampsRead(env, loads) && (forall n: nat :: numberIs(Decimal(n), n))
             && Hexadecimal(env.sha)
    requires Run(env, requests).Some? && i < |Rows(Run(env, requests).value, f)|
    requires WithinLimits(f, Rows(Run(env, requests).value, f)[i])
    ensures var store := Run(env, requests).value;
            exists o, x ::
              OnlyRow(store.outbox, f, i + 1, o) && OnlyRow(store.exports, f, i + 1, x)
              && FromItem(env.sha, loads, numberIs, o, store.outbox[o].message).Ok?
              && ExportSerializes(env, loads, store.exports[x].message.payload)
  {
    hide Payload, FindingOk, Reads, SerializeEvent, FromItem, WithinLimits, EventText, Held, Inv, QueueOk;
    var store := Run(env, requests).value;
    var e := Rows(store, f)[i];
    var o, x := OneRowPerEvent(env, requests, f, i);
    ReachableInv(env, requests);
    SequenceOf(env, store, f, i);
    PreviousIsHash(env, store, f, i);
    OutboxAccepts(loads, numberIs, f, e, o, store.outbox[o].message.createdAt);
    FromItemAccepts(env.sha, loads, numberIs, o, store.outbox[o].message);
    ExportAccepts(env.sha, loads, f, e);
  }

  lemma PreviousIsHash(env: Env, store: Store, f: string, i: nat)
    requires Inv(env, store) && i < |Rows(store, f)| && Hexadecimal(env.sha)
    ensures var p := PreviousHash(Rows(store, f)[..i]); p == "" || IsHex64(p)
  {
    hide Inv, EventText, IsHex64, Rows;
    if i > 0 {
      var rows := Rows(store, f);
      SequenceOf(env, store, f, i - 1);
      assert rows[..i][i - 1] == rows[i - 1];
      assert IsHex64(env.sha(EventText(PreviousHash(rows[..i - 1]), BodyOf(f, rows[i - 1]))));
    }
  }

  // ----- Due process -----

  /** The k-th request appended the i-th event of f, by someone who did not own the risk at that moment. */
  ghost predicate DecidedByOther(env: Env, requests: seq<Request>, f: string, i: nat, k: nat, e: Event) {
    && k < |requests| && Run(env, requests[..k]).Some?
    && var s := Run(env, requests[..k]).value;
       && f in s.findings && |Rows(s, f)| == i && requests[k].Invoke? && requests[k].actor == e.actor
       && e.actor.id != s.findings[f].riskOwner
  }

  ghost predicate ByOther(env: Env, requests: seq<Request>, f: string, i: nat, e: Event) {
    exists k: nat :: DecidedByOther(env, requests, f, i, k, e)
  }

  lemma ByOtherGrows(env: Env, requests: seq<Request>, r: Request, f: string, i: nat, e: Event)
    requires ByOther(env, requests, f, i, e)
    ensures ByOther(env, requests + [r], f, i, e)
  {
    var k: nat :| DecidedByOther(env, requests, f, i, k, e);
    assert (requests + [r])[..k] == requests[..k];
    assert DecidedByOther(env, requests + [r], f, i, k, e);
  }

  /** A request either leaves a finding's log alone or appends one event to it. */
  lemma OneEventMore(env: Env, store: Store, r: Request, f: string)
    requires Inv(env, store) && Allowed(store, r)
    ensures var n := Next(env, store, r);
            Rows(n, f) == Rows(store, f)
            || (r.Invoke? && |Rows(n, f)| == |Rows(store, f)| + 1 && Rows(n, f)[..|Rows(store, f)|] == Rows(store, f)
                && var e := Rows(n, f)[|Rows(store, f)|];
                   e.actor == r.actor
                   && (e.change.Decided? ==> f in store.findings && e.actor.id != store.findings[f].riskOwner))
  {
    hide Plan, FindingOk, QueueOk, NextEvent, Do, OutboxMessageOf, ExportMessageOf, HashIn;
    if r.Invoke? && Do(env, store, r.call, r.actor, r.ids, r.now).Ok? {
      var plan := Plan(env, store, r.call, r.actor, r.now);
      DoPlan(env, store, r.call, r.actor, r.ids, r.now);
      if plan.value.Write? {
        var w := plan.value;
        DoWrites(env, store, r.call, r.actor, r.ids, r.now);
        RowsOk(env, store, w.finding);
        NextEventIs(env, store, w.finding, w.change, r.actor, r.ids, r.now);
        PlanPermitted(env, store, r.call, r.actor, r.now, EventOf(env, store, w, r.actor, r.ids, r.now));
      }
    }
  }

  lemma DoPlan(env: Env, store: Store, call: Call, actor: Actor, ids: Ids, now: real)
    requires Do(env, store, call, actor, ids, now).Ok?
    ensures Plan(env, store, call, actor, now).Ok?
    ensures Plan(env, store, call, actor, now).value.Keep? ==>
              Do(env, store, call, actor, ids, now).value.store == store
  {
  }

  /** In every run, every approval or rejection was decided by someone other than the risk owner of that moment. */
  lemma {:induction false} DecisionsIndependent(env: Env, requests: seq<Request>, f: string, i: nat)
    requires Run(env, requests).Some? && i < |Rows(Run(env, requests).value, f)|
    requires Rows(Run(env, requests).value, f)[i].change.Decided?
    ensures ByOther(env, requests, f, i, Rows(Run(env, requests).value, f)[i])
    decreases |requests|
  {
    hide Next, Allowed, Inv;
    if requests != [] {
      var before, r := requests[..|requests| - 1], requests[|requests| - 1];
      assert requests == before + [r];
      var s, n := Run(env, before).value, Run(env, requests).value;
      ReachableInv(env, before);
      OneEventMore(env, s, r, f);
      var e := Rows(n, f)[i];
      if i < |Rows(s, f)| {
        assert e == Rows(s, f)[i];
        DecisionsIndependent(env, before, f, i);
        ByOtherGrows(env, before, r, f, i, e);
      } else {
        assert DecidedByOther(env, requests, f, i, |before|, e);
      }
    }
  }

  /**
    * A closed finding either had an approved acceptance of the risk, or was
    * approved, started, evidenced and checked, in this order, the check passed
    * by someone who neither implemented nor submitted; and the approver did
    * not own the risk when approving.
    */
  lemma ClosedMeansDueProcess(env: Env, requests: seq<Request>, f: string)
    requires Run(env, requests).Some? && f in Run(env, requests).value.findings
    requires Run(env, requests).value.findings[f].status == Closed
    ensures DueProcess(env, requests, f)
  {
    hide AcceptedTrail, WorkedTrail, ApprovedAt;
    RowIsFold(env, requests, f);
    var store := Run(env, requests).value;
    var events, row := Rows(store, f), store.findings[f];
    LegalReached(events);
    if a :| AcceptedTrail(events, a) {
      AcceptedDecided(events, a);
      DecisionsIndependent(env, requests, f, a);
      assert AcceptedByOther(env, requests, f, a);
    } else {
      var t :| WorkedTrail(events, t, row.implementer, row.submitter);
      WorkedDecided(events, t, row.implementer, row.submitter);
      DecisionsIndependent(env, requests, f, t.a);
      assert WorkedByOthers(env, requests, f, t);
    }
  }

  lemma AcceptedDecided(events: seq<Event>, a: nat)
    requires AcceptedTrail(events, a)
    ensures a < |events| && events[a].change.Decided?
  {
  }

  lemma WorkedDecided(events: seq<Event>, t: Trail, implementer: Option<string>, submitter: Option<string>)
    requires WorkedTrail(events, t, implementer, submitter)
    ensures t.a < |events| && events[t.a].change.Decided?
  {
  }

  ghost predicate AcceptedByOther(env: Env, requests: seq<Request>, f: string, a: nat)
    requires Run(env, requests).Some?
  {
    var events := Rows(Run(env, requests).value, f);
    AcceptedTrail(events, a) && a < |events| && ByOther(env, requests, f, a, events[a])
  }

  ghost predicate WorkedByOthers(env: Env, requests: seq<Request>, f: string, t: Trail)
    requires Run(env, requests).Some? && f in Run(env, requests).value.findings
  {
    var store := Run(env, requests).value;
    var events, row := Rows(store, f), store.findings[f];
    WorkedTrail(events, t, row.implementer, row.submitter) && t.a < |events|
      && ByOther(env, requests, f, t.a, events[t.a])
  }

  ghost predicate DueProcess(env: Env, requests: seq<Request>, f: string)
    requires Run(env, requests).Some? && f in Run(env, requests).value.findings
  {
    (exists a :: AcceptedByOther(env, requests, f, a)) || exists t :: WorkedByOthers(env, requests, f, t)
  }

  // ----- When an insert is refused -----

  /** The hashed text of a logged event and that of the event a call would append collide. */
  ghost predicate CollidesWith(env: Env, store: Store, f: string, i: nat, g: string, e: Event) {
    && f in store.events && i < |store.events[f]|
    && var d := store.events[f][i];
       Collision(env.sha, EventText(d.previousHash, BodyOf(f, d)), EventText(e.previousHash, BodyOf(g, e)))
  }

  /**
    * In a reachable state the event table refuses an insert only when SHA-256
    * collides: the new event's text differs from every logged one.
    */
  lemma RefusalIsCollision(env: Env, store: Store, call: Call, actor: Actor, ids: Ids, now: real)
    requires Inv(env, store) && Hexadecimal(env.sha) && forall t :: IsNumberText(env.stamp(t))
    requires Plan(env, store, call, actor, now).Ok? && Plan(env, store, call, actor, now).value.Write?
    requires Do(env, store, call, actor, ids, now).Err?
    ensures var w := Plan(env, store, call, actor, now).value;
            exists f, i :: CollidesWith(env, store, f, i, w.finding, EventOf(env, store, w, actor, ids, now))
  {
    hide Plan, QueueOk, EventText, EventBody, FindingOk, Latest;
    var w := Plan(env, store, call, actor, now).value;
    var e := EventOf(env, store, w, actor, ids, now);
    RowsOk(env, store, w.finding);
    NextEventIs(env, store, w.finding, w.change, actor, ids, now);
    assert Rows(Written(store, w), w.finding) == Rows(store, w.finding);
    assert HashTaken(Written(store, w), e.eventHash);
    var f :| f in store.events && HashIn(store.events[f], e.eventHash);
    var i :| 0 <= i < |store.events[f]| && store.events[f][i].eventHash == e.eventHash;
    NewTextDiffers(env, store, f, i, w.finding, e);
    SequenceOf(env, store, f, i);
    assert CollidesWith(env, store, f, i, w.finding, e);
  }

  /** A logged event and the next one differ in their finding or in the hash they name. */
  lemma NewTextDiffers(env: Env, store: Store, f: string, i: nat, g: string, e: Event)
    requires Inv(env, store) && Hexadecimal(env.sha) && forall t :: IsNumberText(env.stamp(t))
    requires f in store.events && i < |store.events[f]|
    requires e.previousHash == PreviousHash(Rows(store, g)) && (exists now :: e.occurredAt == env.stamp(now))
    ensures var d := store.events[f][i];
            EventText(d.previousHash, BodyOf(f, d)) != EventText(e.previousHash, BodyOf(g, e))
  {
    hide QueueOk, EventText, EventBody, WellFormed, Same;
    var d := store.events[f][i];
    var es := Rows(store, g);
    SequenceOf(env, store, f, i);
    PreviousIsHash(env, store, f, i);
    RowsOk(env, store, g);
    PreviousHashShape(env.sha, g, es);
    if EventText(d.previousHash, BodyOf(f, d)) == EventText(e.previousHash, BodyOf(g, e)) {
      EventBodyWellFormed(f, d);
      EventBodyWellFormed(g, e);
      EventTextParts(d.previousHash, e.previousHash, BodyOf(f, d), BodyOf(g, e));
      BodyNamesFinding(f, d, g, e);
      NoLaterLink(env, store.findings[g], g, es, i);
    }
  }

  lemma BodyNamesFinding(f: string, d: Event, g: string, e: Event)
    requires WellFormed(Obj(BodyOf(f, d))) && WellFormed(Obj(BodyOf(g, e))) && SameTexts(f, d, g, e)
    ensures f == g
  {
    hide WellFormed, Same, Details, TypeName, RoleName;
    SameString(BodyOf(f, d), BodyOf(g, e), "finding_id", f);
  }

  ghost predicate SameTexts(f: string, d: Event, g: string, e: Event) {
    Same(Obj(BodyOf(f, d)), Obj(BodyOf(g, e)))
  }

  /** No event of a log names the log's last hash. */
  lemma NoLaterLink(env: Env, row: Finding, f: string, es: seq<Event>, i: nat)
    requires FindingOk(env, row, f, es) && i < |es| && Hexadecimal(env.sha)
    ensures PreviousHash(es[..i]) != PreviousHash(es)
  {
    PreviousHashShape(env.sha, f, es);
    if i > 0 {
      assert es[..i][i - 1] == es[i - 1];
    }
  }
}
