/**
  * What the archive holds at the end of any run of governance calls and
  * workers: every event it was given, under that event's own key, whole.
  */
module ArchivedEvents {
  import opened Basics
  import opened CanonicalJson
  import opened ChainedLog
  import opened LeaseQueue
  import opened AuditArchive
  import opened OutboxDelivery
  import opened GovernanceEvents
  import Governance
  import GovernanceRuns
  import DeliveryRuns
  import opened EndToEnd

  function Stored(w: World, payload: string): Option<Serialized> {
    var v := w.loads(payload);
    if v.Some? && SerializeEvent(w.env.sha, v.value).Ok? then Some(SerializeEvent(w.env.sha, v.value).value) else None
  }

  /** The create-only store after the given publications, as persist_event fills it. */
  function Archive(w: World, log: seq<DeliveryRuns.Publication>): map<string, string> {
    if log == [] then map[]
    else
      var before, s := Archive(w, log[..|log| - 1]), Stored(w, log[|log| - 1].message.payload);
      if s.None? || s.value.key in before then before else before[s.value.key := s.value.content]
  }

  predicate KeyOf(w: World, q: DeliveryRuns.Publication, key: string) {
    Stored(w, q.message.payload).Some? && Stored(w, q.message.payload).value.key == key
  }

  /** Publications under one key carry one body. */
  ghost predicate KeysAgree(w: World, log: seq<DeliveryRuns.Publication>) {
    && (forall q :: q in log ==>
          Stored(w, q.message.payload).Some? && Stored(w, q.message.payload).value.content == q.body)
    && (forall p, q, key :: p in log && q in log && KeyOf(w, p, key) && KeyOf(w, q, key) ==> p.body == q.body)
  }

  lemma {:induction false} ArchiveComplete(w: World, log: seq<DeliveryRuns.Publication>)
    requires KeysAgree(w, log)
    ensures forall q, key :: q in log && KeyOf(w, q, key) ==> key in Archive(w, log) && Archive(w, log)[key] == q.body
    ensures forall key :: key in Archive(w, log) ==>
              exists q :: q in log && KeyOf(w, q, key) && Archive(w, log)[key] == q.body
  {
    hide Stored;
    if log != [] {
      var less, last := log[..|log| - 1], log[|log| - 1];
      assert log == less + [last];
      ArchiveComplete(w, less);
      forall q, key | q in log && KeyOf(w, q, key) ensures key in Archive(w, log) && Archive(w, log)[key] == q.body {
        if key in Archive(w, less) {
          var p :| p in less && KeyOf(w, p, key) && Archive(w, less)[key] == p.body;
          assert p in log;
        }
      }
      forall key | key in Archive(w, log)
        ensures exists q :: q in log && KeyOf(w, q, key) && Archive(w, log)[key] == q.body
      {
        if key in Archive(w, less) {
          var q :| q in less && KeyOf(w, q, key) && Archive(w, less)[key] == q.body;
          assert q in log;
        } else {
          assert last in log && KeyOf(w, last, key);
        }
      }
    }
  }

  /** The key of an accepted event's payload names the event's id. */
  lemma KeyNamesEvent(w: World, f: string, e: Event)
    requires Reads(w.loads, true) && NumbersRead(w.loads, e) && Stored(w, Payload(f, e)).Some?
    ensures IsHexId(e.eventId) && IsHex64(e.eventHash)
    ensures Stored(w, Payload(f, e)).value.key == ObjectKey(w.env.sha, f, e.sequence, e.eventId, e.eventHash)
  {
    hide Reads, Held, PayloadFields, ObjectKey, IsHexId, IsHex64, IntegerOf, Canonical, ChainHashOk, HasKeys;
    hide Utf8Size, NumbersRead;
    ReadsPayload(w.loads, f, e);
    ReadBackFields(w.loads, f, e);
    DecimalInteger(e.sequence);
  }

  /** Two archived events under one key are one event. */
  lemma SameKeySameId(w: World, f: string, e: Event, g: string, d: Event, key: string)
    requires Reads(w.loads, true) && NumbersRead(w.loads, e) && NumbersRead(w.loads, d) && Hexadecimal(w.env.sha)
    requires Stored(w, Payload(f, e)).Some? && Stored(w, Payload(f, e)).value.key == key
    requires Stored(w, Payload(g, d)).Some? && Stored(w, Payload(g, d)).value.key == key
    ensures e.eventId == d.eventId
  {
    hide Reads, Stored, NumbersRead, Payload, ObjectKey;
    KeyNamesEvent(w, f, e);
    KeyNamesEvent(w, g, d);
    assert IsHex64(w.env.sha(f)) && IsHex64(w.env.sha(g));
    ObjectKeyInjective(w.env.sha, f, g, e.sequence, d.sequence, e.eventId, d.eventId, e.eventHash, d.eventHash);
  }

  /** A publication's event, and that its numbers are read back. */
  lemma PublishedEvent(w: World, p: Platform, q: DeliveryRuns.Publication) returns (e: Event)
    requires Inv(w, p) && GovernanceRuns.StampsRead(w.env, w.loads) && q in p.exports.log
    ensures var f, n := q.message.finding, q.message.sequence;
            && 1 <= n <= |Governance.Rows(p.store, f)| && f in p.store.events && e == p.store.events[f][n - 1]
            && q.message.payload == Payload(f, e) && NumbersRead(w.loads, e)
            && q.id in p.exports.table && q.message == p.exports.table[q.id].message
            && Stored(w, q.message.payload).Some? && Stored(w, q.message.payload).value.content == q.body
  {
    hide Payload, DeliveryRuns.Numbered, DeliveryRuns.Snapshots, DeliveryRuns.Recorded, DeliveryRuns.InOrder;
    hide DeliveryRuns.Locked, Counted;
    hide GovernanceRuns.FindingOk, SerializeEvent;
    assert DeliveryRuns.Genuine(ExportRender(w), p.exports, q);
    assert GovernanceRuns.RowOfEvent(p.store.events, p.exports.table, "", q.id);
    var f, n := q.message.finding, q.message.sequence;
    e := p.store.events[f][n - 1];
    GovernanceRuns.SequenceOf(w.env, p.store, f, n - 1);
  }

  /**
    * In every run of calls and workers, the archive holds each archived event's
    * exact text under that event's own key, so no archiving call ever meets
    * other content under its key.
    */
  lemma ArchiveHoldsEveryEvent(w: World, acts: seq<Act>)
    requires Reads(w.loads, true) && Hexadecimal(w.env.sha) && GovernanceRuns.StampsRead(w.env, w.loads)
    requires Run(w, acts).Some?
    ensures var log := Run(w, acts).value.exports.log;
            forall q :: q in log ==>
              var s := Stored(w, q.message.payload);
              s.Some? && s.value.key in Archive(w, log) && Archive(w, log)[s.value.key] == q.body
  {
    hide Reads, Inv, Stored, Payload, GovernanceRuns.StampsRead, NumbersRead, Hexadecimal;
    RunKeepsInv(w, acts);
    var p := Run(w, acts).value;
    var log := p.exports.log;
    forall q | q in log
      ensures Stored(w, q.message.payload).Some? && Stored(w, q.message.payload).value.content == q.body
    {
      var e := PublishedEvent(w, p, q);
    }
    forall a, b, key | a in log && b in log && KeyOf(w, a, key) && KeyOf(w, b, key) ensures a.body == b.body {
      var e := PublishedEvent(w, p, a);
      var d := PublishedEvent(w, p, b);
      SameKeySameId(w, a.message.finding, e, b.message.finding, d, key);
      OneEventOneBody(w, p, a, b);
    }
    ArchiveComplete(w, log);
    forall q | q in log ensures KeyOf(w, q, Stored(w, q.message.payload).value.key) {}
  }

  lemma OneEventOneBody(w: World, p: Platform, a: DeliveryRuns.Publication, b: DeliveryRuns.Publication)
    requires Inv(w, p) && a in p.exports.log && b in p.exports.log
    requires a.message.finding in p.store.events && 1 <= a.message.sequence <= |p.store.events[a.message.finding]|
    requires b.message.finding in p.store.events && 1 <= b.message.sequence <= |p.store.events[b.message.finding]|
    requires p.store.events[a.message.finding][a.message.sequence - 1].eventId
             == p.store.events[b.message.finding][b.message.sequence - 1].eventId
    ensures a.body == b.body
  {
    hide Payload, DeliveryRuns.Numbered, DeliveryRuns.Snapshots, DeliveryRuns.Recorded, DeliveryRuns.InOrder;
    hide DeliveryRuns.Locked, Counted;
    hide GovernanceRuns.FindingOk;
    assert GovernanceRuns.SameId(p.store.events, a.message.finding, a.message.sequence - 1, b.message.finding,
                                 b.message.sequence - 1);
    assert DeliveryRuns.Genuine(ExportRender(w), p.exports, a) && DeliveryRuns.Genuine(ExportRender(w), p.exports, b);
    assert GovernanceRuns.SameSlot(p.exports.table, a.id, b.id);
  }

  /** What the results assume of the digest, the clock's text and json.loads can all be met at once. */
  lemma AssumptionsMet() returns (w: World)
    ensures Reads(w.loads, true) && Hexadecimal(w.env.sha) && GovernanceRuns.StampsRead(w.env, w.loads)
    ensures forall n: nat :: w.numberIs(Decimal(n), n)
  {
    hide Reads, StrictLoads;
    var loads: Loads := t => StrictLoads(t, true);
    w := World(Governance.Env(t => Zeros(64), t => "0", t => true), loads, (x: string, n: nat) => x == Decimal(n));
    StrictLoadsReads(true);
    forall t ensures IsHex64(w.env.sha(t)) {}
    NumeralRead("0");
    forall n: nat ensures w.loads(Decimal(n)) == Some(Num(Decimal(n))) { NumeralRead(Decimal(n)); }
  }

  lemma NumeralRead(x: string)
    requires IsNumberText(x)
    ensures WellFormed(Num(x)) && StrictLoads(x, true) == Some(Num(x))
  {
    NumberText(x);
    StrictLoadsInverts(Num(x), true);
    assert x + "" == x;
  }
}
