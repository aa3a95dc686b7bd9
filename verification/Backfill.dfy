/**
  * governance_core.py's repair of old tables: event rows without sequence
  * numbers, in any order, are numbered by following the hash chain.
  */
module Backfill {
  import opened Basics
  import opened ChainedLog
  import opened AuditArchive
  import opened GovernanceEvents
  import opened GovernanceRuns

  /** by_previous: a later row with the same previous_hash replaces an earlier one. */
  function ByPrevious(rows: seq<Event>): (next: map<string, Event>)
    ensures forall k :: k in next ==> next[k] in rows && next[k].previousHash == k
    ensures forall e :: e in rows ==> e.previousHash in next
  {
    if rows == [] then map[]
    else
      var last := rows[|rows| - 1];
      assert rows == rows[..|rows| - 1] + [last];
      ByPrevious(rows[..|rows| - 1])[last.previousHash := last]
  }

  /** The schema's constraints (event_id is the key, event_hash is unique), and no empty hash. */
  ghost predicate Keyed(rows: seq<Event>) {
    && DistinctHashes(rows) && (forall i :: 0 <= i < |rows| ==> rows[i].eventHash != "")
    && forall i, j :: 0 <= i < j < |rows| ==> rows[i].eventId != rows[j].eventId
  }

  /** The hash the path's i-th row names. */
  function Named(path: seq<Event>, i: nat): string
    requires i <= |path|
  {
    if i == 0 then "" else path[i - 1].eventHash
  }

  ghost predicate StepAt(next: map<string, Event>, path: seq<Event>, i: nat)
    requires i < |path|
  {
    Named(path, i) in next && next[Named(path, i)] == path[i]
  }

  /** The path starts at the row naming no predecessor and follows the chain. */
  ghost predicate Follows(next: map<string, Event>, path: seq<Event>) {
    forall i :: 0 <= i < |path| ==> StepAt(next, path, i)
  }

  ghost predicate Complete(next: map<string, Event>, path: seq<Event>) {
    Follows(next, path) && Named(path, |path|) !in next
  }

  ghost predicate Distinct(path: seq<Event>) {
    forall i, j :: 0 <= i < j < |path| ==> path[i] != path[j]
  }

  lemma SameHashSameRow(rows: seq<Event>, a: Event, b: Event)
    requires Keyed(rows) && a in rows && b in rows && a.eventHash == b.eventHash
    ensures a == b
  {
    var i :| 0 <= i < |rows| && rows[i] == a;
    var j :| 0 <= j < |rows| && rows[j] == b;
    assert i == j;
  }

  lemma StepFacts(rows: seq<Event>, path: seq<Event>, i: nat)
    requires Keyed(rows) && Follows(ByPrevious(rows), path) && i < |path|
    ensures path[i] in rows && path[i].previousHash == Named(path, i) && path[i].eventHash != ""
  {
    assert StepAt(ByPrevious(rows), path, i);
  }

  /** Following unique hashes never visits a row twice. */
  lemma {:induction false} NoRevisit(rows: seq<Event>, path: seq<Event>, i: nat, j: nat)
    requires Keyed(rows) && Follows(ByPrevious(rows), path) && i < j < |path|
    ensures path[i] != path[j]
    decreases i
  {
    hide Keyed, Follows, ByPrevious;
    StepFacts(rows, path, i);
    StepFacts(rows, path, j);
    StepFacts(rows, path, j - 1);
    if path[i] == path[j] {
      assert Named(path, i) == Named(path, j);
      if i > 0 {
        StepFacts(rows, path, i - 1);
        NoRevisit(rows, path, i - 1, j - 1);
        SameHashSameRow(rows, path[i - 1], path[j - 1]);
      }
    }
  }

  ghost function Elems(s: seq<Event>): set<Event> { set e | e in s }

  lemma {:induction false} DistinctSize(s: seq<Event>)
    requires Distinct(s)
    ensures |Elems(s)| == |s|
  {
    if s != [] {
      DistinctSize(s[1..]);
      assert Elems(s) == {s[0]} + Elems(s[1..]);
      assert s[0] !in s[1..];
    }
  }

  lemma {:induction false} ElemsSize(s: seq<Event>)
    ensures |Elems(s)| <= |s|
  {
    if s != [] {
      ElemsSize(s[1..]);
      assert Elems(s) == {s[0]} + Elems(s[1..]);
    }
  }

  /** So a path is never longer than the table. */
  lemma PathBounded(rows: seq<Event>, path: seq<Event>)
    requires Keyed(rows) && Follows(ByPrevious(rows), path)
    ensures Distinct(path) && |path| <= |rows|
    ensures forall e :: e in path ==> e in rows
  {
    forall i, j | 0 <= i < j < |path| ensures path[i] != path[j] { NoRevisit(rows, path, i, j); }
    forall e | e in path ensures e in rows {
      var i :| 0 <= i < |path| && path[i] == e;
      assert StepAt(ByPrevious(rows), path, i);
    }
    DistinctSize(path);
    ElemsSize(rows);
    SubsetSize(Elems(path), Elems(rows));
  }

  predicate Passed(path: seq<Event>, id: string) {
    exists p :: p in path && p.eventId == id
  }

  /** The rows the walk did not reach, in table order. */
  function Unreached(rows: seq<Event>, path: seq<Event>): (rest: seq<Event>)
    ensures forall e :: e in rest <==> e in rows && !Passed(path, e.eventId)
    ensures (forall e :: e in rows ==> Passed(path, e.eventId)) ==> rest == []
  {
    if rows == [] then []
    else
      var last := rows[|rows| - 1];
      assert rows == rows[..|rows| - 1] + [last];
      var rest := Unreached(rows[..|rows| - 1], path);
      if Passed(path, last.eventId) then rest else rest + [last]
  }

  /** UPDATE ... SET event_sequence WHERE event_id. */
  function SetSequence(rows: seq<Event>, id: string, n: nat): (r: seq<Event>)
    ensures |r| == |rows|
    ensures forall k :: 0 <= k < |rows| ==> r[k] == if rows[k].eventId == id then rows[k].(sequence := n) else rows[k]
  {
    seq(|rows|, k requires 0 <= k < |rows| => if rows[k].eventId == id then rows[k].(sequence := n) else rows[k])
  }

  predicate AllNumbered(rows: seq<Event>) {
    forall k :: 0 <= k < |rows| ==> rows[k].sequence > 0
  }

  /** Each row carries its place in the order, and nothing else changed. */
  ghost predicate PlacedAt(rows: seq<Event>, order: seq<Event>, r: seq<Event>, k: nat)
    requires k < |rows| == |r|
  {
    r[k] == rows[k].(sequence := r[k].sequence) && 1 <= r[k].sequence <= |order| && order[r[k].sequence - 1] == rows[k]
  }

  ghost predicate Placed(rows: seq<Event>, order: seq<Event>, r: seq<Event>) {
    |r| == |rows| && forall k :: 0 <= k < |rows| ==> PlacedAt(rows, order, r, k)
  }

  /** The rows of one finding, renumbered: the chain from its first row, then whatever the chain does not reach. */
  method BackfillSequences(rows: seq<Event>) returns (r: seq<Event>, ghost path: seq<Event>)
    requires Keyed(rows)
    ensures rows != [] && AllNumbered(rows) ==> r == rows
    ensures !AllNumbered(rows) ==>
              Complete(ByPrevious(rows), path) && Placed(rows, path + Unreached(rows, path), r) && AllNumbered(r)
  {
    hide Keyed, ByPrevious, Unreached, DistinctHashes, PlacedAt;
    path := [];
    if rows != [] && AllNumbered(rows) {
      return rows, [];
    }
    var next := ByPrevious(rows);
    var ordered: seq<Event> := [];
    var current: Option<Event> := if "" in next then Some(next[""]) else None;
    while current.Some?
      invariant Follows(next, ordered)
      invariant current == if Named(ordered, |ordered|) in next then Some(next[Named(ordered, |ordered|)]) else None
      invariant |ordered| <= |rows|
      decreases |rows| - |ordered|
    {
      FollowsSnoc(next, ordered, current.value);
      ordered := ordered + [current.value];
      PathBounded(rows, ordered);
      current := if current.value.eventHash in next then Some(next[current.value.eventHash]) else None;
    }
    path := ordered;
    PathBounded(rows, path);
    ordered := ordered + Unreached(rows, ordered);
    OrderCovers(rows, path);
    r := rows;
    for sequence := 0 to |ordered|
      invariant PlacedUpTo(rows, ordered, r, sequence)
    {
      SetKeepsPlaces(rows, ordered, r, sequence);
      r := SetSequence(r, ordered[sequence].eventId, sequence + 1);
    }
    AllPlaced(rows, ordered, r);
  }

  predicate Reached(ordered: seq<Event>, n: nat, id: string)
    requires n <= |ordered|
  {
    exists q :: 0 <= q < n && ordered[q].eventId == id
  }

  /** After n updates, the rows named so far carry their places. */
  ghost predicate PlacedUpTo(rows: seq<Event>, ordered: seq<Event>, r: seq<Event>, n: nat) {
    && |r| == |rows| && n <= |ordered|
    && (forall k :: 0 <= k < |rows| ==> r[k] == rows[k].(sequence := r[k].sequence))
    && forall k :: 0 <= k < |rows| && Reached(ordered, n, rows[k].eventId) ==> PlacedAt(rows, ordered, r, k)
  }

  lemma AllPlaced(rows: seq<Event>, ordered: seq<Event>, r: seq<Event>)
    requires PlacedUpTo(rows, ordered, r, |ordered|) && forall e :: e in rows ==> e in ordered
    ensures Placed(rows, ordered, r) && AllNumbered(r)
  {
    forall k | 0 <= k < |rows| ensures PlacedAt(rows, ordered, r, k) {
      assert rows[k] in ordered;
      var q :| 0 <= q < |ordered| && ordered[q] == rows[k];
      assert Reached(ordered, |ordered|, rows[k].eventId);
    }
    forall k | 0 <= k < |r| ensures r[k].sequence > 0 { assert PlacedAt(rows, ordered, r, k); }
  }

  lemma FollowsSnoc(next: map<string, Event>, path: seq<Event>, e: Event)
    requires Follows(next, path) && Named(path, |path|) in next && next[Named(path, |path|)] == e
    ensures Follows(next, path + [e])
  {
    forall i | 0 <= i < |path| + 1 ensures StepAt(next, path + [e], i) {
      assert Named(path + [e], i) == Named(path, i);
      if i < |path| { assert StepAt(next, path, i); }
    }
  }

  /** Every row is in the order, and each event id names one place. */
  lemma OrderCovers(rows: seq<Event>, path: seq<Event>)
    requires Keyed(rows) && forall e :: e in path ==> e in rows
    ensures forall e :: e in path + Unreached(rows, path) <==> e in rows
  {
    forall e | e in rows ensures e in path + Unreached(rows, path) {
      if p :| p in path && p.eventId == e.eventId {
        SameIdSameRow(rows, p, e);
      }
    }
  }

  lemma SameIdSameRow(rows: seq<Event>, a: Event, b: Event)
    requires Keyed(rows) && a in rows && b in rows && a.eventId == b.eventId
    ensures a == b
  {
    var i :| 0 <= i < |rows| && rows[i] == a;
    var j :| 0 <= j < |rows| && rows[j] == b;
    assert i == j;
  }

  lemma SetKeepsPlaces(rows: seq<Event>, ordered: seq<Event>, was: seq<Event>, n: nat)
    requires Keyed(rows) && n < |ordered| && (forall e :: e in ordered ==> e in rows)
    requires PlacedUpTo(rows, ordered, was, n)
    ensures PlacedUpTo(rows, ordered, SetSequence(was, ordered[n].eventId, n + 1), n + 1)
  {
    hide Keyed;
    var r := SetSequence(was, ordered[n].eventId, n + 1);
    forall k | 0 <= k < |rows| && Reached(ordered, n + 1, rows[k].eventId) ensures PlacedAt(rows, ordered, r, k) {
      if ordered[n].eventId == rows[k].eventId {
        SameIdSameRow(rows, ordered[n], rows[k]);
      } else {
        assert Reached(ordered, n, rows[k].eventId);
        assert PlacedAt(rows, ordered, was, k);
      }
    }
  }

  // ----- A shuffled chain is put back in order -----

  /** The rows of a valid chain, in any order, with any sequence numbers. */
  ghost predicate ShuffleOf(rows: seq<Event>, chain: seq<Event>) {
    multiset(rows) == multiset(chain)
  }

  lemma ShuffleKeyed(rows: seq<Event>, chain: seq<Event>)
    requires Keyed(rows) && ShuffleOf(rows, chain)
    ensures |rows| == |chain| && (forall e :: e in rows <==> e in chain) && Distinct(chain)
    ensures forall i, j :: 0 <= i < j < |chain| ==> chain[i].eventHash != chain[j].eventHash
    ensures forall i :: 0 <= i < |chain| ==> chain[i].eventHash != ""
  {
    assert |multiset(rows)| == |rows| && |multiset(chain)| == |chain|;
    forall e ensures e in rows <==> e in chain {
      assert e in rows <==> e in multiset(rows);
      assert e in chain <==> e in multiset(chain);
    }
    assert forall i, j :: 0 <= i < j < |rows| ==> rows[i] != rows[j];
    forall i, j | 0 <= i < j < |chain| ensures chain[i] != chain[j] {
      DistinctMultiplicity(rows, chain[i]);
      if chain[i] == chain[j] { TwiceIn(chain, i, j); }
    }
    forall i, j | 0 <= i < j < |chain| ensures chain[i].eventHash != chain[j].eventHash {
      assert chain[i] in rows && chain[j] in rows;
      var a :| 0 <= a < |rows| && rows[a] == chain[i];
      var b :| 0 <= b < |rows| && rows[b] == chain[j];
      assert a != b;
    }
    forall i | 0 <= i < |chain| ensures chain[i].eventHash != "" {
      assert chain[i] in rows;
    }
  }

  lemma {:induction false} DistinctMultiplicity(s: seq<Event>, e: Event)
    requires Distinct(s)
    ensures multiset(s)[e] <= 1
  {
    if s != [] {
      assert s == [s[0]] + s[1..];
      DistinctMultiplicity(s[1..], e);
      assert s[0] == e ==> e !in s[1..];
    }
  }

  lemma TwiceIn(s: seq<Event>, i: nat, j: nat)
    requires i < j < |s| && s[i] == s[j]
    ensures multiset(s)[s[i]] >= 2
  {
    assert s == s[..j] + s[j..];
    assert s[i] in s[..j] && s[j] in s[j..];
  }

  lemma ChainNames(sha: Digest, f: string, chain: seq<Event>, i: nat)
    requires EventsChained(sha, f, chain) && i < |chain|
    ensures chain[i].previousHash == Named(chain, i)
  {
    assert LinkedAt(sha, f, chain, i);
  }

  /** In a shuffled chain the row naming a hash is the one after it. */
  lemma NamedRow(sha: Digest, f: string, rows: seq<Event>, chain: seq<Event>, i: nat)
    requires Keyed(rows) && ShuffleOf(rows, chain) && EventsChained(sha, f, chain) && i <= |chain|
    ensures var next := ByPrevious(rows);
            if i < |chain| then Named(chain, i) in next && next[Named(chain, i)] == chain[i]
            else Named(chain, i) !in next
  {
    ShuffleKeyed(rows, chain);
    hide EventsChained, Keyed, ShuffleOf, ByPrevious, Distinct;
    var next := ByPrevious(rows);
    if i < |chain| {
      ChainNames(sha, f, chain, i);
      assert chain[i] in rows;
    }
    if Named(chain, i) in next {
      var e := next[Named(chain, i)];
      assert e in chain;
      var j :| 0 <= j < |chain| && chain[j] == e;
      ChainNames(sha, f, chain, j);
      SameName(chain, i, j);
    }
  }

  /** The rows of a chain name different hashes. */
  lemma SameName(chain: seq<Event>, i: nat, j: nat)
    requires i <= |chain| && j <= |chain| && Named(chain, i) == Named(chain, j)
    requires forall i, j :: 0 <= i < j < |chain| ==> chain[i].eventHash != chain[j].eventHash
    requires forall i :: 0 <= i < |chain| ==> chain[i].eventHash != ""
    ensures i == j
  {
  }

  /** The walk over a shuffled chain is the chain. */
  lemma {:induction false} WalkIsChain(
    sha: Digest, f: string, rows: seq<Event>, chain: seq<Event>, path: seq<Event>, n: nat)
    requires Keyed(rows) && ShuffleOf(rows, chain) && EventsChained(sha, f, chain)
    requires Follows(ByPrevious(rows), path) && n <= |path|
    ensures n <= |chain| && forall i :: 0 <= i < n ==> path[i] == chain[i]
  {
    hide Keyed, ShuffleOf, EventsChained, ByPrevious;
    if n > 0 {
      WalkIsChain(sha, f, rows, chain, path, n - 1);
      assert Named(path, n - 1) == Named(chain, n - 1);
      NamedRow(sha, f, rows, chain, n - 1);
      assert StepAt(ByPrevious(rows), path, n - 1);
    }
  }

  lemma WholeWalk(sha: Digest, f: string, rows: seq<Event>, chain: seq<Event>, path: seq<Event>)
    requires Keyed(rows) && ShuffleOf(rows, chain) && EventsChained(sha, f, chain) && Complete(ByPrevious(rows), path)
    ensures path == chain && Unreached(rows, path) == []
  {
    hide EventsChained, ByPrevious;
    WalkIsChain(sha, f, rows, chain, path, |path|);
    assert Named(path, |path|) == Named(chain, |path|);
    NamedRow(sha, f, rows, chain, |path|);
    assert path == chain;
    ShuffleKeyed(rows, chain);
    forall e | e in rows ensures Passed(path, e.eventId) { assert e in path; }
  }

  /** The chain with its true positions written in. */
  function Renumbered(chain: seq<Event>): (r: seq<Event>)
    ensures |r| == |chain| && forall i :: 0 <= i < |chain| ==> r[i] == chain[i].(sequence := i + 1)
  {
    seq(|chain|, i requires 0 <= i < |chain| => chain[i].(sequence := i + 1))
  }

  /** The updated row is the chain's event at the place the row now names. */
  ghost predicate TruePlace(chain: seq<Event>, row: Event) {
    1 <= row.sequence <= |chain| && row == Renumbered(chain)[row.sequence - 1]
  }

  /**
    * What BackfillSequences leaves of a valid chain's rows, in whatever order
    * they came: each row names its event's true position, so sorted by sequence
    * the rows are the chain, which verifies; and the result is one the next
    * pass leaves alone.
    */
  lemma ShuffledChainRestored(
    sha: Digest, f: string, rows: seq<Event>, chain: seq<Event>, path: seq<Event>, r: seq<Event>)
    requires Keyed(rows) && ShuffleOf(rows, chain) && EventsChained(sha, f, chain)
    requires Complete(ByPrevious(rows), path) && Placed(rows, path + Unreached(rows, path), r)
    ensures |r| == |rows| && InSequence(Renumbered(chain)) && EventsChained(sha, f, Renumbered(chain))
    ensures forall k :: 0 <= k < |rows| ==> TruePlace(chain, r[k]) && r[k].eventId == rows[k].eventId
    ensures Keyed(r) && AllNumbered(r)
  {
    hide EventsChained, Complete, ShuffleOf, Renumbered, ByPrevious, Unreached, Keyed;
    WholeWalk(sha, f, rows, chain, path);
    assert path + Unreached(rows, path) == chain;
    RenumberedChained(sha, f, chain);
    PlacedKeyed(rows, chain, r);
  }

  lemma PlacedKeyed(rows: seq<Event>, chain: seq<Event>, r: seq<Event>)
    requires Keyed(rows) && Placed(rows, chain, r)
    ensures Keyed(r) && forall k :: 0 <= k < |rows| ==> TruePlace(chain, r[k]) && r[k].eventId == rows[k].eventId
  {
    forall k | 0 <= k < |rows|
      ensures TruePlace(chain, r[k]) && r[k].eventId == rows[k].eventId && r[k].eventHash == rows[k].eventHash
    {
      assert PlacedAt(rows, chain, r, k);
    }
  }

  lemma RenumberedChained(sha: Digest, f: string, chain: seq<Event>)
    requires EventsChained(sha, f, chain)
    ensures EventsChained(sha, f, Renumbered(chain)) && InSequence(Renumbered(chain))
  {
    hide EventText, EventBody;
    var r := Renumbered(chain);
    forall i | 0 <= i < |chain| ensures LinkedAt(sha, f, r, i) {
      assert LinkedAt(sha, f, chain, i);
      assert i > 0 ==> r[..i][i - 1] == r[i - 1] && chain[..i][i - 1] == chain[i - 1];
    }
  }
}
