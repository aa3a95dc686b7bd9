/**
  * governance_core.py's _backfill_audit_exports: events that have no export row
  * yet get one, under an id computed from the event id; INSERT OR IGNORE skips
  * a row whose id, event or place in its finding is already taken.
  */
module ExportBackfill {
  import opened Basics
  import opened LeaseQueue
  import opened GovernanceEvents
  import opened GovernanceRuns

  /** One row of the joined query: the finding and its event. */
  datatype Logged = Logged(finding: string, event: Event)

  function ExportId(sha: Digest, eventId: string): string {
    Clip(sha("audit-export:" + eventId), 32)
  }

  /** The same event, or the same place in the same finding. */
  predicate Claims(a: Message, b: Message) {
    a.eventId == b.eventId || (a.finding == b.finding && a.sequence == b.sequence)
  }

  /** The uniqueness constraints of audit_exports. */
  predicate Conflicts(t: Table, id: string, m: Message) {
    id in t || exists x :: x in t && Claims(t[x].message, m)
  }

  function Exported(l: Logged, at: string -> real): Message {
    ExportMessageOf(l.finding, l.event, at(l.event.occurredAt))
  }

  /** Exactly the events of the finding logs are listed, each once, with unique event ids. */
  ghost predicate Lists(rows: seq<Logged>, events: map<string, seq<Event>>) {
    && (forall i :: 0 <= i < |rows| ==> LoggedIn(events, rows[i]))
    && (forall f, n: nat :: f in events && n < |events[f]| ==> Logged(f, events[f][n]) in rows)
    && (forall i, j :: 0 <= i < j < |rows| ==> rows[i].event.eventId != rows[j].event.eventId)
    && forall f :: f in events ==> InSequence(events[f])
  }

  predicate LoggedIn(events: map<string, seq<Event>>, l: Logged) {
    l.finding in events && 1 <= l.event.sequence <= |events[l.finding]|
      && events[l.finding][l.event.sequence - 1] == l.event
  }

  /** The export rows there are belong to logged events, one each. */
  ghost predicate Partial(events: map<string, seq<Event>>, t: Table) {
    (forall id :: id in t ==> RowOfEvent(events, t, "", id)) && AtMostOneRow(t)
  }

  predicate IdFree(sha: Digest, eventId: string, t: Table) {
    ExportId(sha, eventId) in t ==> t[ExportId(sha, eventId)].message.eventId == eventId
  }

  /** The computed ids clash neither with rows of other events nor with each other. */
  ghost predicate IdsFree(sha: Digest, rows: seq<Logged>, t: Table) {
    && (forall i :: 0 <= i < |rows| ==> IdFree(sha, rows[i].event.eventId, t))
    && forall i, j :: 0 <= i < j < |rows| ==>
         ExportId(sha, rows[i].event.eventId) != ExportId(sha, rows[j].event.eventId)
  }

  ghost predicate Covered(t: Table, l: Logged) {
    exists id :: CarriesEvent(t, l.finding, l.event.sequence, id)
  }

  /** No existing row is touched. */
  predicate Extends(t: Table, u: Table) {
    forall id :: id in t ==> id in u && u[id] == t[id]
  }

  /**
    * Afterwards rows and events correspond one to one again; rows there were
    * are untouched, and a complete table is left alone.
    */
  method BackfillExports(
    sha: Digest, rows: seq<Logged>, at: string -> real, ghost events: map<string, seq<Event>>, t: Table)
    returns (u: Table)
    requires Hexadecimal(sha) && Lists(rows, events) && Partial(events, t) && IdsFree(sha, rows, t)
    ensures Extends(t, u) && QueueOk(events, u, "")
    ensures QueueOk(events, t, "") ==> u == t
  {
    hide Payload, ExportId, Partial, IdsFree, Lists, QueueOk, Covered, Exported;
    u := t;
    assert rows[0..] == rows;
    for i := 0 to |rows|
      invariant Extends(t, u) && Partial(events, u) && IdsFree(sha, rows[i..], u)
      invariant forall k :: 0 <= k < i ==> Covered(u, rows[k])
      invariant QueueOk(events, t, "") ==> u == t
    {
      var id, m := ExportId(sha, rows[i].event.eventId), Exported(rows[i], at);
      OneInsert(sha, rows, events, u, at, i);
      CoveredStays(u, if Conflicts(u, id, m) then u else u[id := NewRow(m)], rows, i);
      if QueueOk(events, t, "") { CompleteConflicts(rows, events, u, at, i, id, m); }
      if !Conflicts(u, id, m) {
        u := u[id := NewRow(m)];
      }
    }
    AllCovered(rows, events, u);
  }

  lemma AllCovered(rows: seq<Logged>, events: map<string, seq<Event>>, u: Table)
    requires Lists(rows, events) && Partial(events, u) && forall k :: 0 <= k < |rows| ==> Covered(u, rows[k])
    ensures QueueOk(events, u, "")
  {
    hide RowOfEvent, Lists, HasRow, Covered;
    forall f, n | f in events && 1 <= n <= |events[f]| ensures HasRow(u, f, n) { EventCovered(rows, events, u, f, n); }
  }

  lemma EventCovered(rows: seq<Logged>, events: map<string, seq<Event>>, u: Table, f: string, n: nat)
    requires Lists(rows, events) && (forall k :: 0 <= k < |rows| ==> Covered(u, rows[k]))
    requires f in events && 1 <= n <= |events[f]|
    ensures HasRow(u, f, n)
  {
    assert Logged(f, events[f][n - 1]) in rows;
    var k :| 0 <= k < |rows| && rows[k] == Logged(f, events[f][n - 1]);
    assert SequenceAt(events[f], n - 1) && Covered(u, rows[k]);
  }

  lemma CoveredStays(t: Table, u: Table, rows: seq<Logged>, i: nat)
    requires Extends(t, u) && i <= |rows| && forall k :: 0 <= k < i ==> Covered(t, rows[k])
    ensures forall k :: 0 <= k < i ==> Covered(u, rows[k])
  {
    forall k | 0 <= k < i ensures Covered(u, rows[k]) {
      var id :| CarriesEvent(t, rows[k].finding, rows[k].event.sequence, id);
      assert CarriesEvent(u, rows[k].finding, rows[k].event.sequence, id);
    }
  }

  lemma CompleteConflicts(
    rows: seq<Logged>, events: map<string, seq<Event>>, t: Table, at: string -> real, i: nat, id: string, m: Message)
    requires QueueOk(events, t, "") && Lists(rows, events) && i < |rows| && m == Exported(rows[i], at)
    ensures Conflicts(t, id, m)
  {
    hide Payload;
    var l := rows[i];
    assert LoggedIn(events, l) && HasRow(t, l.finding, l.event.sequence);
    var x :| CarriesEvent(t, l.finding, l.event.sequence, x);
  }

  /** A skipped event already has its row; an inserted one gets it, under a hexadecimal id. */
  lemma OneInsert(sha: Digest, rows: seq<Logged>, events: map<string, seq<Event>>, u: Table, at: string -> real, i: nat)
    requires Hexadecimal(sha) && Lists(rows, events) && Partial(events, u) && i < |rows| && IdsFree(sha, rows[i..], u)
    ensures var id, m := ExportId(sha, rows[i].event.eventId), Exported(rows[i], at);
            var v := if Conflicts(u, id, m) then u else u[id := NewRow(m)];
            Partial(events, v) && Covered(v, rows[i]) && IdsFree(sha, rows[i + 1..], v)
  {
    hide Payload, Clip, Partial, Lists, IsHexId, Covered;
    var l, id, m := rows[i], ExportId(sha, rows[i].event.eventId), Exported(rows[i], at);
    assert LoggedIn(events, l) by { ListedIn(rows, events, i); }
    assert rows[i..][0] == l;
    if Conflicts(u, id, m) {
      ConflictCovers(rows, events, u, i, id, m);
      IdsStay(sha, rows, u, u, NewRow(m), i);
    } else {
      ExportIdHex(sha, l.event.eventId);
      NewRowKeepsPartial(events, u, l, id, at);
      IdsStay(sha, rows, u, u[id := NewRow(m)], NewRow(m), i);
    }
  }

  /** An inserted row is the row of its event, and the only one. */
  lemma NewRowKeepsPartial(events: map<string, seq<Event>>, u: Table, l: Logged, id: string, at: string -> real)
    requires Partial(events, u) && LoggedIn(events, l) && IsHexId(id) && !Conflicts(u, id, Exported(l, at))
    ensures var v := u[id := NewRow(Exported(l, at))]; Partial(events, v) && Covered(v, l)
  {
    hide Payload, Clip, IsHexId;
    var v := u[id := NewRow(Exported(l, at))];
    forall x | x in v ensures RowOfEvent(events, v, "", x) { assert x != id ==> RowOfEvent(events, u, "", x); }
    forall a, b | SameSlot(v, a, b) ensures a == b { assert a != id && b != id ==> SameSlot(u, a, b); }
    assert CarriesEvent(v, l.finding, l.event.sequence, id);
  }

  lemma ListedIn(rows: seq<Logged>, events: map<string, seq<Event>>, i: nat)
    requires Lists(rows, events) && i < |rows|
    ensures LoggedIn(events, rows[i])
  {
  }

  lemma ExportIdHex(sha: Digest, eventId: string)
    requires Hexadecimal(sha)
    ensures IsHexId(ExportId(sha, eventId))
  {
    assert IsHex64(sha("audit-export:" + eventId));
  }

  lemma IdsStay(sha: Digest, rows: seq<Logged>, u: Table, v: Table, row: Row, i: nat)
    requires i < |rows| && IdsFree(sha, rows[i..], u)
    requires v == u || v == u[ExportId(sha, rows[i].event.eventId) := row]
    ensures IdsFree(sha, rows[i + 1..], v)
  {
    hide ExportId;
    var less := rows[i + 1..];
    forall k | 0 <= k < |less| ensures less[k] == rows[i..][k + 1] {}
    assert rows[i..][0] == rows[i];
  }

  /** A conflict means the event's own row is there. */
  lemma ConflictCovers(rows: seq<Logged>, events: map<string, seq<Event>>, u: Table, i: nat, id: string, m: Message)
    requires Lists(rows, events) && Partial(events, u) && i < |rows| && Conflicts(u, id, m)
    requires m.eventId == rows[i].event.eventId && m.finding == rows[i].finding && m.sequence == rows[i].event.sequence
    requires id in u ==> u[id].message.eventId == m.eventId
    ensures Covered(u, rows[i])
  {
    hide Payload;
    var x :| x in u && Claims(u[x].message, m);
    assert RowOfEvent(events, u, "", x);
    var o := u[x].message;
    assert Claims(o, m);
    assert o.eventId == m.eventId || (o.finding == m.finding && o.sequence == m.sequence);
    assert Logged(o.finding, events[o.finding][o.sequence - 1]) in rows;
    var k :| 0 <= k < |rows| && rows[k] == Logged(o.finding, events[o.finding][o.sequence - 1]);
    assert LoggedIn(events, rows[k]) && LoggedIn(events, rows[i]);
    assert SequenceAt(events[o.finding], o.sequence - 1);
    if o.eventId == m.eventId {
      assert rows[k].event.eventId == o.eventId;
      assert k == i;
      assert rows[k].event.sequence == o.sequence;
      assert CarriesEvent(u, rows[i].finding, rows[i].event.sequence, x);
    } else {
      assert o.finding == m.finding && o.sequence == m.sequence;
      assert CarriesEvent(u, rows[i].finding, rows[i].event.sequence, x);
    }
  }
}
