/**
  * Every run of a leased queue: producers append numbered rows, any number of
  * workers claim, publish, settle, forget (a crash or a lost response) and act
  * on old snapshots at any later time, and dead rows are requeued. Clock
  * readings are arbitrary; only the freshness of tokens and row ids is assumed.
  */
module DeliveryRuns {
  import opened Basics
  import opened LeaseQueue

  datatype Publication = Publication(id: string, message: Message, body: string)

  /** A worker between claim and settling, with the snapshot it works on. */
  datatype Local = Local(item: Item, published: bool)

  datatype System = System(
    table: Table,
    produced: map<string, seq<string>>,  // per finding, the row ids in event order
    log: seq<Publication>,               // what reached the broker or the archive, in order
    workers: map<nat, Local>,
    used: set<string>)                   // lock tokens drawn so far

  /** What is published for a row; None when the row is rejected as malformed. */
  type Render = (string, Message) -> Option<string>

  datatype Step =
    | Produce(id: string, eventId: string, finding: string, topic: string, payload: string, at: real)
    | Claim(w: nat, id: string, worker: string, token: string, lease: int, now: real)
    | Publish(w: nat)
    | Ack(w: nat, receipt: Receipt, now: real)
    | Fail(w: nat, permanent: bool, maxAttempts: int, delay: int, error: string, now: real)
    | Forget(w: nat)
    | RequeueDead(id: string, confirmation: string, now: real)

  const START := System(map[], map[], [], map[], {})

  function EventsOf(s: System, finding: string): seq<string> {
    if finding in s.produced then s.produced[finding] else []
  }

  predicate Enabled(kind: Kind, render: Render, s: System, step: Step) {
    match step
    case Produce(id, _, _, _, _, _) => id !in s.table
    case Claim(w, id, worker, token, lease, now) =>
      w !in s.workers && !Blank(worker) && lease > 0 && token !in s.used && Claimable(s.table, id, now)
    case Publish(w) => w in s.workers && render(s.workers[w].item.id, s.workers[w].item.row.message).Some?
    case Ack(w, receipt, _) => w in s.workers && s.workers[w].published && (receipt.Broker? <==> kind == Outbox)
    case Fail(w, _, _, _, _, _) => w in s.workers
    case Forget(w) => w in s.workers
    case RequeueDead(_, _, _) => true
  }

  /** A call that raises leaves the table as it was. */
  function Kept<T>(t: Table, r: Result<(Table, T), QueueError>): Table {
    if r.Ok? then r.value.0 else t
  }

  function Acked(kind: Kind, t: Table, item: Item, receipt: Receipt, now: real): Table
    requires receipt.Broker? <==> kind == Outbox
  {
    if kind == Outbox then Kept(t, AckOutbox(t, item, receipt.messageId, now)) else AckAudit(t, item, receipt, now).0
  }

  function Failed(
    kind: Kind, t: Table, item: Item, permanent: bool, maxAttempts: int, delay: int, error: string, now: real): Table {
    if kind == Outbox then Kept(t, FailOutbox(t, item, permanent, maxAttempts, delay, error, now))
    else Kept(t, FailAudit(t, item, maxAttempts, delay, now))
  }

  /** The event's row joins the table as its finding's next number. */
  function Produced(s: System, id: string, m: Message): System {
    s.(table := s.table[id := NewRow(m)], produced := s.produced[m.finding := EventsOf(s, m.finding) + [id]])
  }

  function After(kind: Kind, render: Render, s: System, step: Step): System
    requires Enabled(kind, render, s, step)
  {
    match step
    case Produce(id, eventId, finding, topic, payload, at) =>
      Produced(s, id, Message(eventId, finding, |EventsOf(s, finding)| + 1, topic, payload, at))
    case Claim(w, id, worker, token, lease, now) =>
      var t := Claimed(s.table, id, worker, token, now + lease as real);
      s.(table := t, workers := s.workers[w := Local(Item(id, t[id]), false)], used := s.used + {token})
    case Publish(w) =>
      var item := s.workers[w].item;
      s.(log := s.log + [Publication(item.id, item.row.message, render(item.id, item.row.message).value)],
         workers := s.workers[w := Local(item, true)])
    case Ack(w, receipt, now) => s.(table := Acked(kind, s.table, s.workers[w].item, receipt, now))
    case Fail(w, permanent, maxAttempts, delay, error, now) =>
      s.(table := Failed(kind, s.table, s.workers[w].item, permanent, maxAttempts, delay, error, now))
    case Forget(w) => s.(workers := s.workers - {w})
    case RequeueDead(id, confirmation, now) => s.(table := Kept(s.table, Requeue(kind, s.table, id, confirmation, now)))
  }

  /** The state a run ends in; None when some step was not enabled. */
  function Run(kind: Kind, render: Render, s: System, steps: seq<Step>): Option<System>
    decreases |steps|
  {
    if steps == [] then Some(s)
    else if Enabled(kind, render, s, steps[0]) then Run(kind, render, After(kind, render, s, steps[0]), steps[1..])
    else None
  }

  // ----- What every state keeps -----

  predicate NumberedFinding(s: System, f: string)
    requires f in s.produced
  {
    forall i :: 0 <= i < |s.produced[f]| ==> NumberedAt(s, f, i)
  }

  predicate NumberedAt(s: System, f: string, i: nat)
    requires f in s.produced && i < |s.produced[f]|
  {
    var id := s.produced[f][i];
    id in s.table && s.table[id].message.finding == f && s.table[id].message.sequence == i + 1
  }

  predicate Listed(s: System, id: string)
    requires id in s.table
  {
    var m := s.table[id].message;
    m.finding in s.produced && 1 <= m.sequence <= |s.produced[m.finding]| && s.produced[m.finding][m.sequence - 1] == id
  }

  /** Each finding's rows are numbered 1, 2, 3, ... without a gap or a repeat. */
  ghost predicate Numbered(s: System) {
    (forall f :: f in s.produced ==> NumberedFinding(s, f)) && (forall id :: id in s.table ==> Listed(s, id))
  }

  /** Locked rows have all earlier rows delivered, and a token nobody else has. */
  predicate LockedRow(s: System, id: string)
    requires id in s.table
  {
    s.table[id].lock.Some? ==> EarlierDelivered(s.table, s.table[id].message) && s.table[id].lock.value.token in s.used
  }

  ghost predicate Locked(s: System) {
    && (forall id :: id in s.table ==> LockedRow(s, id))
    && (forall a, b :: a in s.table && b in s.table && a != b && s.table[a].lock.Some? && s.table[b].lock.Some? ==>
          s.table[a].lock.value.token != s.table[b].lock.value.token)
  }

  /** A snapshot is of an existing row, and of its present state while its token still matches. */
  ghost predicate Snapshot(s: System, item: Item) {
    && item.id in s.table && item.row.message == s.table[item.id].message
    && item.row.lock.Some? && item.row.lock.value.token in s.used
    && EarlierDelivered(s.table, item.row.message)
    && (forall id :: TokenMatches(s.table, id, item) ==>
          id == item.id && s.table[id] == item.row)
  }

  ghost predicate Snapshots(s: System) {
    forall w :: w in s.workers ==> Snapshot(s, s.workers[w].item)
  }

  predicate InLog(render: Render, log: seq<Publication>, id: string, m: Message) {
    render(id, m).Some? && Publication(id, m, render(id, m).value) in log
  }

  /** A worker that published, and a delivered row, are both in the log with the exact body. */
  ghost predicate Recorded(render: Render, s: System) {
    && (forall w :: w in s.workers && s.workers[w].published ==>
          InLog(render, s.log, s.workers[w].item.id, s.workers[w].item.row.message))
    && (forall id :: id in s.table && s.table[id].delivered.Some? ==> InLog(render, s.log, id, s.table[id].message))
  }

  predicate Genuine(render: Render, s: System, p: Publication) {
    p.id in s.table && p.message == s.table[p.id].message && render(p.id, p.message) == Some(p.body)
    && EarlierDelivered(s.table, p.message)
  }

  /** The log holds rows of the table only, each with all its predecessors delivered. */
  ghost predicate LogGenuine(render: Render, s: System) {
    forall p :: p in s.log ==> Genuine(render, s, p)
  }

  ghost predicate Inv(render: Render, s: System) {
    Numbered(s) && Sane(s.table) && Locked(s) && Snapshots(s) && Recorded(render, s) && LogGenuine(render, s)
    && InOrder(s)
  }

  // ----- First publications -----

  /** The event sequences of a finding in the order they were first published. */
  function FirstSeen(log: seq<Publication>, finding: string): seq<nat> {
    if log == [] then []
    else
      var before := FirstSeen(log[..|log| - 1], finding);
      var p := log[|log| - 1];
      if p.message.finding == finding && p.message.sequence !in before then before + [p.message.sequence] else before
  }

  function OneTo(n: nat): (r: seq<nat>)
    ensures |r| == n
    ensures forall i :: 0 <= i < n ==> r[i] == i + 1
  {
    if n == 0 then [] else OneTo(n - 1) + [n]
  }

  lemma {:induction false} OneToHas(n: nat, k: nat)
    ensures k in OneTo(n) <==> 1 <= k <= n
  {
    if n > 0 { OneToHas(n - 1, k); }
  }

  predicate FindingInOrder(s: System, f: string) {
    var seen := FirstSeen(s.log, f);
    |seen| <= |EventsOf(s, f)| && seen == OneTo(|seen|)
  }

  ghost predicate InOrder(s: System) {
    forall f :: FindingInOrder(s, f)
  }

  lemma {:induction false} SeenIsPublished(log: seq<Publication>, f: string, n: nat)
    ensures n in FirstSeen(log, f) <==> exists p :: p in log && p.message.finding == f && p.message.sequence == n
  {
    if log != [] {
      var last := log[|log| - 1];
      SeenIsPublished(log[..|log| - 1], f, n);
      assert forall p :: p in log <==> p in log[..|log| - 1] || p == last;
      var before := FirstSeen(log[..|log| - 1], f);
      assert n in FirstSeen(log, f) <==> n in before || (last.message.finding == f && last.message.sequence == n);
    }
  }

  /** Publishing a row whose predecessors are all published keeps the order. */
  lemma PublishKeepsOrder(s: System, p: Publication, f: string)
    requires FindingInOrder(s, f) && p.message.sequence >= 1
    requires p.message.finding == f ==> p.message.sequence <= |EventsOf(s, f)|
    requires p.message.finding == f ==> forall k :: 1 <= k < p.message.sequence ==> k in FirstSeen(s.log, f)
    ensures FindingInOrder(s.(log := s.log + [p]), f)
  {
    var log := s.log + [p];
    assert log[..|log| - 1] == s.log;
    var seen := FirstSeen(s.log, f);
    var n := p.message.sequence;
    if p.message.finding == f && n !in seen {
      OneToHas(|seen|, n);
      OneToHas(|seen|, |seen| + 1);
      assert seen + [n] == OneTo(n);
    }
  }

  // ----- Each step keeps the invariant -----

  /** At most one row changes: an unfinished one, which loses its lock. */
  predicate Released(t: Table, u: Table, id: string) {
    u == t
    || (id in t && t[id].delivered.None? && id in u && u == t[id := u[id]]
        && u[id].message == t[id].message && u[id].lock.None? && RowSane(u[id]))
  }

  lemma AckReleases(kind: Kind, t: Table, item: Item, receipt: Receipt, now: real)
    requires receipt.Broker? <==> kind == Outbox
    ensures Released(t, Acked(kind, t, item, receipt, now), item.id)
    ensures Acked(kind, t, item, receipt, now) != t ==> Holds(t, item)
  {
  }

  lemma FailReleases(
    kind: Kind, t: Table, item: Item, permanent: bool, maxAttempts: int, delay: int, error: string, now: real)
    ensures Released(t, Failed(kind, t, item, permanent, maxAttempts, delay, error, now), item.id)
    ensures var u := Failed(kind, t, item, permanent, maxAttempts, delay, error, now);
            u != t ==> Holds(t, item) && u[item.id].delivered.None?
  {
  }

  lemma RequeueReleases(kind: Kind, t: Table, id: string, confirmation: string, now: real)
    ensures Released(t, Kept(t, Requeue(kind, t, id, confirmation, now)), id)
    ensures var u := Kept(t, Requeue(kind, t, id, confirmation, now)); u != t ==> u[id].delivered.None?
  {
  }

  lemma EarlierKept(t: Table, u: Table, id: string, m: Message)
    requires Released(t, u, id) && EarlierDelivered(t, m)
    ensures EarlierDelivered(u, m)
  {
  }

  lemma ReleaseKeepsNumbering(s: System, u: Table, id: string)
    requires Numbered(s) && Released(s.table, u, id)
    ensures Numbered(s.(table := u))
  {
    var r := s.(table := u);
    forall f, i: nat | f in r.produced && i < |r.produced[f]| ensures NumberedAt(r, f, i) {
      assert NumberedFinding(s, f) && NumberedAt(s, f, i);
    }
    forall e | e in u ensures Listed(r, e) { assert Listed(s, e); }
  }

  lemma ReleaseKeepsInv(render: Render, s: System, u: Table, id: string)
    requires Inv(render, s) && Released(s.table, u, id)
    requires id in u && u[id].delivered.Some? ==> InLog(render, s.log, id, u[id].message)
    ensures Inv(render, s.(table := u))
  {
    hide InLog, FirstSeen, OneTo, Numbered;
    var r := s.(table := u);
    ReleaseKeepsNumbering(s, u, id);
    forall e | e in u ensures LockedRow(r, e) {
      assert LockedRow(s, e);
      if u[e].lock.Some? { EarlierKept(s.table, u, id, u[e].message); }
    }
    forall w | w in r.workers ensures Snapshot(r, r.workers[w].item) {
      assert Snapshot(s, s.workers[w].item);
      EarlierKept(s.table, u, id, s.workers[w].item.row.message);
    }
    forall p | p in r.log ensures Genuine(render, r, p) {
      assert Genuine(render, s, p);
      EarlierKept(s.table, u, id, p.message);
    }
    forall f ensures FindingInOrder(r, f) { assert FindingInOrder(s, f); }
  }

  /** The new row comes after every row of its finding. */
  lemma ProduceKeepsNumbering(s: System, id: string, m: Message)
    requires Numbered(s) && id !in s.table && m.sequence == |EventsOf(s, m.finding)| + 1
    ensures Numbered(Produced(s, id, m))
    ensures forall e :: e in s.table && EarlierDelivered(s.table, s.table[e].message) ==>
              EarlierDelivered(Produced(s, id, m).table, s.table[e].message)
  {
    var r := Produced(s, id, m);
    forall g, i: nat | g in r.produced && i < |r.produced[g]| ensures NumberedAt(r, g, i) {
      assert g in s.produced ==> NumberedFinding(s, g);
      if !(g == m.finding && i == |EventsOf(s, g)|) { assert NumberedAt(s, g, i); }
    }
    forall e | e in r.table ensures Listed(r, e) { assert e != id ==> Listed(s, e); }
    forall e | e in s.table && EarlierDelivered(s.table, s.table[e].message)
      ensures EarlierDelivered(r.table, s.table[e].message)
    {
      assert Listed(s, e);
    }
  }

  lemma ProduceKeepsInv(render: Render, s: System, id: string, m: Message)
    requires Inv(render, s) && id !in s.table && m.sequence == |EventsOf(s, m.finding)| + 1
    ensures Inv(render, Produced(s, id, m))
  {
    hide InLog, EarlierDelivered, Numbered, FirstSeen, OneTo;
    var r := Produced(s, id, m);
    ProduceKeepsNumbering(s, id, m);
    forall e | e in r.table ensures LockedRow(r, e) { assert e != id ==> LockedRow(s, e); }
    forall w | w in r.workers ensures Snapshot(r, r.workers[w].item) { assert Snapshot(s, s.workers[w].item); }
    forall p | p in r.log ensures Genuine(render, r, p) { assert Genuine(render, s, p); }
    forall g ensures FindingInOrder(r, g) { assert FindingInOrder(s, g); }
  }

  lemma ClaimKeepsRows(s: System, id: string, worker: string, token: string, until: real)
    requires Numbered(s) && Sane(s.table) && Locked(s) && id in s.table && token !in s.used
    requires s.table[id].delivered.None? && s.table[id].deadAt.None? && EarlierDelivered(s.table, s.table[id].message)
    ensures var r := s.(table := Claimed(s.table, id, worker, token, until), used := s.used + {token});
            Numbered(r) && Sane(r.table) && Locked(r)
    ensures forall m :: EarlierDelivered(s.table, m) ==> EarlierDelivered(Claimed(s.table, id, worker, token, until), m)
  {
    var r := s.(table := Claimed(s.table, id, worker, token, until), used := s.used + {token});
    forall f, i: nat | f in r.produced && i < |r.produced[f]| ensures NumberedAt(r, f, i) {
      assert NumberedFinding(s, f) && NumberedAt(s, f, i);
    }
    forall e | e in r.table ensures Listed(r, e) { assert Listed(s, e); }
    forall m: Message | EarlierDelivered(s.table, m) ensures EarlierDelivered(r.table, m) {}
    forall e | e in r.table ensures LockedRow(r, e) { assert LockedRow(s, e); }
    forall a, b | a in r.table && b in r.table && a != b && r.table[a].lock.Some? && r.table[b].lock.Some?
      ensures r.table[a].lock.value.token != r.table[b].lock.value.token
    {
      assert LockedRow(s, a) && LockedRow(s, b);
    }
  }

  lemma ClaimKeepsSnapshot(s: System, id: string, worker: string, token: string, until: real, item: Item)
    requires Locked(s) && id in s.table && token !in s.used && Snapshot(s, item)
    ensures Snapshot(s.(table := Claimed(s.table, id, worker, token, until), used := s.used + {token}), item)
  {
  }

  lemma ClaimTakesSnapshot(s: System, id: string, worker: string, token: string, until: real)
    requires Locked(s) && id in s.table && token !in s.used && EarlierDelivered(s.table, s.table[id].message)
    ensures var t := Claimed(s.table, id, worker, token, until);
            Snapshot(s.(table := t, used := s.used + {token}), Item(id, t[id]))
  {
    forall e | e in s.table && s.table[e].lock.Some? ensures s.table[e].lock.value.token != token {
      assert LockedRow(s, e);
    }
  }

  lemma ClaimKeepsInv(kind: Kind, render: Render, s: System, step: Step)
    requires Inv(render, s) && step.Claim? && Enabled(kind, render, s, step)
    ensures Inv(render, After(kind, render, s, step))
  {
    hide InLog, EarlierDelivered, Numbered, Locked, FirstSeen, OneTo;
    var r := After(kind, render, s, step);
    var until := step.now + step.lease as real;
    ClaimKeepsRows(s, step.id, step.worker, step.token, until);
    ClaimTakesSnapshot(s, step.id, step.worker, step.token, until);
    var t := s.(table := r.table, used := r.used);
    NumberedFrame(t, r);
    forall w | w in r.workers ensures Snapshot(r, r.workers[w].item) {
      if w != step.w { ClaimKeepsSnapshot(s, step.id, step.worker, step.token, until, s.workers[w].item); }
      assert Snapshot(t, r.workers[w].item);
    }
    forall p | p in r.log ensures Genuine(render, r, p) { assert Genuine(render, s, p); }
    forall f ensures FindingInOrder(r, f) { assert FindingInOrder(s, f); }
  }

  lemma NumberedFrame(s: System, r: System)
    requires s.table == r.table && s.produced == r.produced && s.used == r.used
    ensures Numbered(s) ==> Numbered(r)
    ensures Locked(s) ==> Locked(r)
  {
    if Numbered(s) {
      forall f, i: nat | f in r.produced && i < |r.produced[f]| ensures NumberedAt(r, f, i) {
        assert NumberedFinding(s, f) && NumberedAt(s, f, i);
      }
      forall e | e in r.table ensures Listed(r, e) { assert Listed(s, e); }
    }
    if Locked(s) {
      forall e | e in r.table ensures LockedRow(r, e) { assert LockedRow(s, e); }
    }
  }

  /** What is delivered has been published, so the next row's predecessors have been seen. */
  lemma PredecessorSeen(render: Render, s: System, m: Message, k: nat)
    requires Inv(render, s) && EarlierDelivered(s.table, m) && 1 <= k < m.sequence <= |EventsOf(s, m.finding)|
    ensures k in FirstSeen(s.log, m.finding)
  {
    var f := m.finding;
    assert NumberedFinding(s, f) && NumberedAt(s, f, k - 1);
    var e := s.produced[f][k - 1];
    assert InLog(render, s.log, e, s.table[e].message);
    SeenIsPublished(s.log, f, k);
  }

  lemma PublishKeepsInv(kind: Kind, render: Render, s: System, step: Step)
    requires Inv(render, s) && step.Publish? && Enabled(kind, render, s, step)
    ensures Inv(render, After(kind, render, s, step))
  {
    hide Inv;
    var item := s.workers[step.w].item;
    PublicationKeepsInv(
      render, s, step.w, Publication(item.id, item.row.message, render(item.id, item.row.message).value));
  }

  lemma PublicationKeepsInv(render: Render, s: System, w: nat, p: Publication)
    requires Inv(render, s) && w in s.workers && p.id == s.workers[w].item.id
    requires p.message == s.workers[w].item.row.message && render(p.id, p.message) == Some(p.body)
    ensures Inv(render, s.(log := s.log + [p], workers := s.workers[w := Local(s.workers[w].item, true)]))
  {
    hide FirstSeen, OneTo, InLog;
    var r := s.(log := s.log + [p], workers := s.workers[w := Local(s.workers[w].item, true)]);
    assert Snapshot(s, s.workers[w].item) && Listed(s, p.id);
    NumberedFrame(s, r);
    hide Numbered, Locked;
    forall f ensures FindingInOrder(r, f) {
      PublishInOrder(render, s, p, f);
      assert FindingInOrder(s.(log := s.log + [p]), f);
    }
    hide FindingInOrder;
    LogGrows(render, s.log, p);
    forall x | x in r.workers ensures Snapshot(r, r.workers[x].item) { assert Snapshot(s, s.workers[x].item); }
    forall q | q in r.log ensures Genuine(render, r, q) { if q in s.log { assert Genuine(render, s, q); } }
  }

  lemma LogGrows(render: Render, log: seq<Publication>, p: Publication)
    requires render(p.id, p.message) == Some(p.body)
    ensures InLog(render, log + [p], p.id, p.message)
    ensures forall e, m :: InLog(render, log, e, m) ==> InLog(render, log + [p], e, m)
  {
    assert (log + [p])[|log|] == p;
  }

  lemma PublishInOrder(render: Render, s: System, p: Publication, f: string)
    requires Inv(render, s) && EarlierDelivered(s.table, p.message)
    requires 1 <= p.message.sequence <= |EventsOf(s, p.message.finding)|
    ensures FindingInOrder(s.(log := s.log + [p]), f)
  {
    hide FirstSeen, OneTo;
    assert FindingInOrder(s, f);
    hide FindingInOrder, Inv;
    if p.message.finding == f {
      forall k: nat | 1 <= k < p.message.sequence ensures k in FirstSeen(s.log, f) {
        PredecessorSeen(render, s, p.message, k);
      }
    }
    PublishKeepsOrder(s, p, f);
  }

  lemma StepKeepsInv(kind: Kind, render: Render, s: System, step: Step)
    requires Inv(render, s) && Enabled(kind, render, s, step)
    ensures Inv(render, After(kind, render, s, step))
  {
    hide Inv, InLog;
    match step
    case Produce(id, eventId, finding, topic, payload, at) =>
      ProduceKeepsInv(render, s, id, Message(eventId, finding, |EventsOf(s, finding)| + 1, topic, payload, at));
    case Claim(_, _, _, _, _, _) => ClaimKeepsInv(kind, render, s, step);
    case Publish(_) => PublishKeepsInv(kind, render, s, step);
    case Ack(w, receipt, now) =>
      var item := s.workers[w].item;
      AckReleases(kind, s.table, item, receipt, now);
      WorkerRecorded(render, s, w);
      RowRecorded(render, s, item.id);
      ReleaseKeepsInv(render, s, Acked(kind, s.table, item, receipt, now), item.id);
    case Fail(w, permanent, maxAttempts, delay, error, now) =>
      var item := s.workers[w].item;
      FailReleases(kind, s.table, item, permanent, maxAttempts, delay, error, now);
      RowRecorded(render, s, item.id);
      ReleaseKeepsInv(render, s, Failed(kind, s.table, item, permanent, maxAttempts, delay, error, now), item.id);
    case Forget(w) => ForgetKeepsInv(render, s, w);
    case RequeueDead(id, confirmation, now) =>
      RequeueReleases(kind, s.table, id, confirmation, now);
      RowRecorded(render, s, id);
      ReleaseKeepsInv(render, s, Kept(s.table, Requeue(kind, s.table, id, confirmation, now)), id);
  }

  lemma WorkerRecorded(render: Render, s: System, w: nat)
    requires Inv(render, s) && w in s.workers && s.workers[w].published
    ensures var item := s.workers[w].item;
            item.id in s.table && InLog(render, s.log, item.id, s.table[item.id].message)
  {
    hide InLog;
    assert Snapshot(s, s.workers[w].item);
  }

  lemma RowRecorded(render: Render, s: System, id: string)
    requires Inv(render, s)
    ensures id in s.table && s.table[id].delivered.Some? ==> InLog(render, s.log, id, s.table[id].message)
  {
    hide InLog;
  }

  lemma ForgetKeepsInv(render: Render, s: System, w: nat)
    requires Inv(render, s)
    ensures Inv(render, s.(workers := s.workers - {w}))
  {
    hide InLog, FirstSeen, OneTo, Numbered, Locked;
    var r := s.(workers := s.workers - {w});
    NumberedFrame(s, r);
    forall v | v in r.workers ensures Snapshot(r, r.workers[v].item) { assert Snapshot(s, s.workers[v].item); }
    forall p | p in r.log ensures Genuine(render, r, p) { assert Genuine(render, s, p); }
    forall f ensures FindingInOrder(r, f) { assert FindingInOrder(s, f); }
  }

  lemma {:induction false} RunKeepsInv(kind: Kind, render: Render, s: System, steps: seq<Step>)
    requires Inv(render, s) && Run(kind, render, s, steps).Some?
    ensures Inv(render, Run(kind, render, s, steps).value)
    decreases |steps|
  {
    hide Inv;
    if steps != [] {
      StepKeepsInv(kind, render, s, steps[0]);
      RunKeepsInv(kind, render, After(kind, render, s, steps[0]), steps[1..]);
    }
  }

  lemma StartInv(render: Render)
    ensures Inv(render, START)
  {
  }

  // ----- Main results: safety over whole runs -----

  /** s is the end of some run from the empty system. */
  ghost predicate Reachable(kind: Kind, render: Render, s: System) {
    exists steps :: Run(kind, render, START, steps) == Some(s)
  }

  lemma ReachableInv(kind: Kind, render: Render, s: System)
    requires Reachable(kind, render, s)
    ensures Inv(render, s)
  {
    hide Inv;
    var steps :| Run(kind, render, START, steps) == Some(s);
    StartInv(render);
    RunKeepsInv(kind, render, START, steps);
  }

  /**
    * First publications of a finding happen in the order 1, 2, 3, ..., every
    * publication carries the exact body of a produced row, and a row marked
    * delivered has been published.
    */
  lemma PublishedInOrder(kind: Kind, render: Render, s: System, finding: string)
    requires Reachable(kind, render, s)
    ensures |FirstSeen(s.log, finding)| <= |EventsOf(s, finding)|
    ensures FirstSeen(s.log, finding) == OneTo(|FirstSeen(s.log, finding)|)
    ensures forall p :: p in s.log ==>
              p.id in s.table && p.message == s.table[p.id].message && render(p.id, p.message) == Some(p.body)
    ensures forall id :: id in s.table && s.table[id].delivered.Some? ==> InLog(render, s.log, id, s.table[id].message)
  {
    ReachableInv(kind, render, s);
    assert FindingInOrder(s, finding);
    forall p | p in s.log
      ensures p.id in s.table && p.message == s.table[p.id].message && render(p.id, p.message) == Some(p.body)
    {
      assert Genuine(render, s, p);
    }
  }

  /** Repeated publications of one row carry one body: no identity collision at the broker. */
  lemma SameIdSameBody(kind: Kind, render: Render, s: System, p: Publication, q: Publication)
    requires Reachable(kind, render, s) && p in s.log && q in s.log && p.id == q.id
    ensures p == q
  {
    ReachableInv(kind, render, s);
    assert Genuine(render, s, p) && Genuine(render, s, q);
  }

  predicate BothLocked(t: Table, a: string, b: string) {
    a in t && b in t && t[a].lock.Some? && t[b].lock.Some?
  }

  predicate TokenMatches(t: Table, id: string, item: Item) {
    id in t && t[id].lock.Some? && item.row.lock.Some? && t[id].lock.value.token == item.row.lock.value.token
  }

  /**
    * At most one unfinished row per finding carries a lock, no row is both
    * delivered and dead, and a snapshot whose token is still in the table is
    * the present row, attempts, payload and all.
    */
  lemma Fenced(kind: Kind, render: Render, s: System)
    requires Reachable(kind, render, s)
    ensures Sane(s.table)
    ensures forall a, b :: BothLocked(s.table, a, b) && s.table[a].message.finding == s.table[b].message.finding ==>
              a == b
    ensures forall w, id :: w in s.workers && TokenMatches(s.table, id, s.workers[w].item) ==>
              s.workers[w].item == Item(id, s.table[id])
  {
    ReachableInv(kind, render, s);
    forall a, b | BothLocked(s.table, a, b) && s.table[a].message.finding == s.table[b].message.finding
      ensures a == b
    {
      assert LockedRow(s, a) && LockedRow(s, b) && Listed(s, a) && Listed(s, b);
    }
    forall w, id | w in s.workers && TokenMatches(s.table, id, s.workers[w].item)
      ensures s.workers[w].item == Item(id, s.table[id])
    {
      assert Snapshot(s, s.workers[w].item);
    }
  }

  /** The token has been drawn and no row carries it any more. */
  predicate Superseded(s: System, token: string) {
    token in s.used
    && forall id :: id in s.table && s.table[id].lock.Some? ==> s.table[id].lock.value.token != token
  }

  lemma StepKeepsSuperseded(kind: Kind, render: Render, s: System, step: Step, token: string)
    requires Enabled(kind, render, s, step) && Superseded(s, token)
    ensures Superseded(After(kind, render, s, step), token)
  {
    match step
    case Ack(w, receipt, now) => AckReleases(kind, s.table, s.workers[w].item, receipt, now);
    case Fail(w, permanent, maxAttempts, delay, error, now) =>
      FailReleases(kind, s.table, s.workers[w].item, permanent, maxAttempts, delay, error, now);
    case RequeueDead(id, confirmation, now) => RequeueReleases(kind, s.table, id, confirmation, now);
    case _ =>
  }

  lemma {:induction false} RunKeepsSuperseded(kind: Kind, render: Render, s: System, steps: seq<Step>, token: string)
    requires Superseded(s, token) && Run(kind, render, s, steps).Some?
    ensures Superseded(Run(kind, render, s, steps).value, token)
    decreases |steps|
  {
    hide Superseded;
    if steps != [] {
      StepKeepsSuperseded(kind, render, s, steps[0], token);
      RunKeepsSuperseded(kind, render, After(kind, render, s, steps[0]), steps[1..], token);
    }
  }

  /**
    * Once a worker's token has left the table, no call it makes with that
    * snapshot, in any continuation of the run, changes any row.
    */
  lemma StaleCallsChangeNothing(
    kind: Kind, render: Render, s: System, steps: seq<Step>, w: nat, receipt: Receipt, permanent: bool,
    maxAttempts: int, delay: int, error: string, now: real)
    requires Reachable(kind, render, s) && w in s.workers
    requires !TokenMatches(s.table, s.workers[w].item.id, s.workers[w].item)
    requires Run(kind, render, s, steps).Some? && (receipt.Broker? <==> kind == Outbox)
    ensures var t := Run(kind, render, s, steps).value.table; var item := s.workers[w].item;
            Acked(kind, t, item, receipt, now) == t
            && Failed(kind, t, item, permanent, maxAttempts, delay, error, now) == t
  {
    ReachableInv(kind, render, s);
    var item := s.workers[w].item;
    assert Snapshot(s, item);
    RunKeepsSuperseded(kind, render, s, steps, item.row.lock.value.token);
    var t := Run(kind, render, s, steps).value.table;
    AckReleases(kind, t, item, receipt, now);
    FailReleases(kind, t, item, permanent, maxAttempts, delay, error, now);
    assert !Holds(t, item);
  }

  predicate RowGrows(s: System, r: System, id: string)
    requires id in s.table
  {
    id in r.table && r.table[id].message == s.table[id].message
    && (s.table[id].delivered.Some? ==> r.table[id] == s.table[id])
  }

  lemma StepGrows(kind: Kind, render: Render, s: System, step: Step)
    requires Enabled(kind, render, s, step)
    ensures forall id :: id in s.table ==> RowGrows(s, After(kind, render, s, step), id)
  {
    match step
    case Ack(w, receipt, now) => AckReleases(kind, s.table, s.workers[w].item, receipt, now);
    case Fail(w, permanent, maxAttempts, delay, error, now) =>
      FailReleases(kind, s.table, s.workers[w].item, permanent, maxAttempts, delay, error, now);
    case RequeueDead(id, confirmation, now) => RequeueReleases(kind, s.table, id, confirmation, now);
    case _ =>
  }

  /** No row is ever lost or rewritten, and a delivered row never changes again. */
  lemma {:induction false} NothingLost(kind: Kind, render: Render, s: System, steps: seq<Step>)
    requires Run(kind, render, s, steps).Some?
    ensures forall id :: id in s.table ==> RowGrows(s, Run(kind, render, s, steps).value, id)
    decreases |steps|
  {
    if steps != [] {
      var r := After(kind, render, s, steps[0]);
      StepGrows(kind, render, s, steps[0]);
      NothingLost(kind, render, r, steps[1..]);
      forall id | id in s.table ensures RowGrows(s, Run(kind, render, s, steps).value, id) {
        assert RowGrows(s, r, id) && RowGrows(r, Run(kind, render, r, steps[1..]).value, id);
      }
    }
  }

  predicate Later(a: Message, b: Message) {
    a.finding == b.finding && a.sequence > b.sequence
  }

  /** No row after m is locked, in a worker's hands, or published. */
  predicate Blocked(s: System, m: Message) {
    && (forall id :: id in s.table && Later(s.table[id].message, m) ==>
          s.table[id].lock.None? && s.table[id].delivered.None?)
    && (forall w :: w in s.workers ==> !Later(s.workers[w].item.row.message, m))
    && (forall p :: p in s.log ==> !Later(p.message, m))
  }

  lemma DeliveredAfterEarlier(render: Render, s: System, e: string)
    requires Inv(render, s) && e in s.table
    ensures s.table[e].delivered.Some? ==> EarlierDelivered(s.table, s.table[e].message)
  {
    if s.table[e].delivered.Some? {
      RowRecorded(render, s, e);
      assert Genuine(render, s, Publication(e, s.table[e].message, render(e, s.table[e].message).value));
    }
  }

  lemma UndeliveredBlocks(render: Render, s: System, id: string)
    requires Inv(render, s) && id in s.table && s.table[id].delivered.None?
    ensures Blocked(s, s.table[id].message)
  {
    var m := s.table[id].message;
    forall p | p in s.log ensures !Later(p.message, m) { assert Genuine(render, s, p); }
    forall e | e in s.table && Later(s.table[e].message, m)
      ensures s.table[e].lock.None? && s.table[e].delivered.None?
    {
      assert LockedRow(s, e);
      DeliveredAfterEarlier(render, s, e);
    }
    forall w | w in s.workers ensures !Later(s.workers[w].item.row.message, m) {
      assert Snapshot(s, s.workers[w].item);
    }
  }

  predicate Requeues(step: Step, id: string) {
    step.RequeueDead? && step.id == id
  }

  lemma StepKeepsDead(kind: Kind, render: Render, s: System, step: Step, id: string)
    requires Enabled(kind, render, s, step) && id in s.table && s.table[id].deadAt.Some? && s.table[id].delivered.None?
    requires !Requeues(step, id)
    ensures id in After(kind, render, s, step).table && After(kind, render, s, step).table[id] == s.table[id]
  {
    match step
    case Ack(w, receipt, now) => AckReleases(kind, s.table, s.workers[w].item, receipt, now);
    case Fail(w, permanent, maxAttempts, delay, error, now) =>
      FailReleases(kind, s.table, s.workers[w].item, permanent, maxAttempts, delay, error, now);
    case RequeueDead(e, confirmation, now) => RequeueReleases(kind, s.table, e, confirmation, now);
    case _ =>
  }

  lemma {:induction false} DeadStays(kind: Kind, render: Render, s: System, steps: seq<Step>, id: string)
    requires Inv(render, s) && id in s.table && s.table[id].deadAt.Some?
    requires Run(kind, render, s, steps).Some? && forall i :: 0 <= i < |steps| ==> !Requeues(steps[i], id)
    ensures var r := Run(kind, render, s, steps).value; Inv(render, r) && id in r.table && r.table[id] == s.table[id]
    decreases |steps|
  {
    assert s.table[id].delivered.None?;
    hide Inv;
    if steps != [] {
      assert !Requeues(steps[0], id);
      StepKeepsDead(kind, render, s, steps[0], id);
      StepKeepsInv(kind, render, s, steps[0]);
      DeadStays(kind, render, After(kind, render, s, steps[0]), steps[1..], id);
    }
  }

  /**
    * While nobody requeues it, a dead row stays dead, and no later row of its
    * finding is claimed, delivered or published, whatever else happens.
    */
  lemma DeadBlocksLaterRows(kind: Kind, render: Render, s: System, steps: seq<Step>, id: string)
    requires Reachable(kind, render, s) && id in s.table && s.table[id].deadAt.Some?
    requires Run(kind, render, s, steps).Some? && forall i :: 0 <= i < |steps| ==> !Requeues(steps[i], id)
    ensures var r := Run(kind, render, s, steps).value;
            id in r.table && r.table[id] == s.table[id] && Blocked(r, s.table[id].message)
  {
    ReachableInv(kind, render, s);
    DeadStays(kind, render, s, steps, id);
    UndeliveredBlocks(render, Run(kind, render, s, steps).value, id);
  }

  /** The least undelivered event of a finding. */
  predicate Frontier(s: System, id: string) {
    id in s.table && s.table[id].delivered.None? && EarlierDelivered(s.table, s.table[id].message)
  }

  /**
    * Delivery never gets stuck except on a dead row: an unfinished finding has
    * exactly one frontier row, everything before it is published, and unless it
    * is dead it can be claimed as soon as its delay and any old lease are over.
    */
  lemma FrontierProgress(kind: Kind, render: Render, s: System, finding: string) returns (id: string)
    requires Reachable(kind, render, s)
    requires exists e :: e in s.table && s.table[e].message.finding == finding && s.table[e].delivered.None?
    ensures Frontier(s, id) && s.table[id].message.finding == finding
    ensures forall e :: Frontier(s, e) && s.table[e].message.finding == finding ==> e == id
    ensures |FirstSeen(s.log, finding)| + 1 >= s.table[id].message.sequence
    ensures forall now :: Claimable(s.table, id, now) <==>
              s.table[id].deadAt.None? && s.table[id].availableAt <= now
              && (s.table[id].lock.Some? ==> s.table[id].lock.value.until <= now)
  {
    ReachableInv(kind, render, s);
    var e :| e in s.table && s.table[e].message.finding == finding && s.table[e].delivered.None?;
    id := FrontierBelow(render, s, e);
    forall d | Frontier(s, d) && s.table[d].message.finding == finding ensures d == id {
      assert Listed(s, d) && Listed(s, id);
    }
    var n := s.table[id].message.sequence;
    assert Listed(s, id);
    if n > 1 {
      PredecessorSeen(render, s, s.table[id].message, n - 1);
      assert FindingInOrder(s, finding);
      OneToHas(|FirstSeen(s.log, finding)|, n - 1);
    }
  }

  lemma {:induction false} FrontierBelow(render: Render, s: System, e: string) returns (id: string)
    requires Inv(render, s) && e in s.table && s.table[e].delivered.None?
    ensures Frontier(s, id) && s.table[id].message.finding == s.table[e].message.finding
    decreases s.table[e].message.sequence
  {
    hide Inv;
    if EarlierDelivered(s.table, s.table[e].message) { return e; }
    var d :| d in s.table && s.table[d].message.finding == s.table[e].message.finding
             && s.table[d].message.sequence < s.table[e].message.sequence && s.table[d].delivered.None?;
    id := FrontierBelow(render, s, d);
  }
}
