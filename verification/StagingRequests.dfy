/**
  * The staging validator's surroundings: the numbered requests it sends, which
  * may be lost before they are served or after they committed, and how its two
  * findings evolve under them.
  */
module StagingRequests {
  import opened Basics
  import opened GovernanceEvents
  import opened Governance
  import GovernanceRuns

  datatype Network = Served | RequestLost | ResponseLost

  /** What happens to the n-th request, the uuid4 values drawn for it, and the server's clock. */
  datatype Transport = Transport(network: nat -> Network, ids: nat -> Ids, clock: nat -> real)

  /** The run's two findings and two managed identities. */
  datatype Setup = Setup(
    main: string, sod: string, analyst: string, approver: string,
    content: string, evidenceId: string, stored: Stored)

  function AnalystActor(c: Setup): Actor { Actor(c.analyst, Analyst, "oidc") }

  function ApproverActor(c: Setup): Actor { Actor(c.approver, Approver, "oidc") }

  /** A call by one of the two identities on one of the two findings. */
  predicate Own(c: Setup, call: Call, actor: Actor) {
    (call.finding == c.main || call.finding == c.sod) && (actor == AnalystActor(c) || actor == ApproverActor(c))
  }

  /** The event table refuses the insert of a call that passed its checks. */
  predicate WriteRefused(env: Env, s: Store, call: Call, actor: Actor, ids: Ids, now: real) {
    var p := Plan(env, s, call, actor, now);
    p.Ok? && p.value.Write? && Do(env, s, call, actor, ids, now).Err?
  }

  /** ... of some call on the validator's findings, made as the n-th request. */
  ghost predicate RefusedNow(env: Env, c: Setup, x: Transport, s: Store, n: nat) {
    exists call, actor :: Own(c, call, actor) && WriteRefused(env, s, call, actor, x.ids(n), x.clock(n))
  }

  function Served1(env: Env, x: Transport, n: nat, s: Store, call: Call, actor: Actor): Store {
    Next(env, s, Request.Invoke(call, actor, x.ids(n), x.clock(n)))
  }

  /** The n-th request did nothing, or was one call on the validator's findings. */
  ghost predicate OwnStep(env: Env, c: Setup, x: Transport, n: nat, s: Store, t: Store) {
    t == s || exists call, actor :: Own(c, call, actor) && t == Served1(env, x, n, s, call, actor)
  }

  /** Requests m to n - 1 lead from s to t. */
  ghost predicate Evolves(env: Env, c: Setup, x: Transport, s: Store, m: nat, t: Store, n: nat)
    decreases n, 0
  {
    if m >= n then m == n && s == t else LastStep(env, c, x, s, m, t, n - 1)
  }

  ghost predicate LastStep(env: Env, c: Setup, x: Transport, s: Store, m: nat, t: Store, k: nat)
    decreases k, 1
  {
    exists u :: Evolves(env, c, x, s, m, u, k) && OwnStep(env, c, x, k, u, t)
  }

  /** No insert is refused in any state the validator's own calls lead to from s. */
  ghost predicate NoClash(env: Env, c: Setup, x: Transport, s: Store, m: nat) {
    forall t, n :: Evolves(env, c, x, s, m, t, n) ==> !RefusedNow(env, c, x, t, n)
  }

  predicate AllServed(x: Transport, m: nat, n: nat) {
    forall k: nat :: m <= k < n ==> x.network(k) == Served
  }

  /** How many of the requests m to n - 1 were lost, on the way there or back. */
  function Losses(x: Transport, m: nat, n: nat): nat
    requires m <= n
    decreases n
  {
    if m == n then 0 else Losses(x, m, n - 1) + (if x.network(n - 1) == Served then 0 else 1)
  }

  /**
    * What happened while requests m to n - 1 led from s to t: all of them were
    * served, or the last one, and only it, was lost or refused by the event table.
    */
  ghost predicate Attempt(env: Env, c: Setup, x: Transport, s: Store, m: nat, t: Store, n: nat, passed: bool) {
    && Evolves(env, c, x, s, m, t, n)
    && if passed then AllServed(x, m, n)
       else
         && m < n && AllServed(x, m, n - 1)
         && (x.network(n - 1) != Served || (Evolves(env, c, x, s, m, t, n - 1) && RefusedNow(env, c, x, t, n - 1)))
  }

  lemma {:induction false} EvolvesTransitive(
    env: Env, c: Setup, x: Transport, s: Store, m: nat, t: Store, n: nat, u: Store, k: nat)
    requires Evolves(env, c, x, s, m, t, n) && Evolves(env, c, x, t, n, u, k)
    ensures Evolves(env, c, x, s, m, u, k)
    decreases k
  {
    hide OwnStep;
    if n < k {
      var j: nat := k - 1;
      assert LastStep(env, c, x, t, n, u, j);
      var v :| Evolves(env, c, x, t, n, v, j) && OwnStep(env, c, x, j, v, u);
      EvolvesTransitive(env, c, x, s, m, t, n, v, j);
      EvolvesOrdered(env, c, x, s, m, v, j);
      assert LastStep(env, c, x, s, m, u, j);
    }
  }

  /** What follows a passed stretch continues it. */
  lemma Continue(
    env: Env, c: Setup, x: Transport, s: Store, m: nat, t: Store, n: nat, u: Store, k: nat, passed: bool)
    requires Attempt(env, c, x, s, m, t, n, true) && Attempt(env, c, x, t, n, u, k, passed)
    ensures Attempt(env, c, x, s, m, u, k, passed)
  {
    EvolvesOrdered(env, c, x, s, m, t, n);
    EvolvesOrdered(env, c, x, t, n, u, k);
    hide RefusedNow, Evolves, AllServed;
    EvolvesTransitive(env, c, x, s, m, t, n, u, k);
    var last: nat := if passed then k else k - 1;
    ServedTogether(x, m, n, last);
    if !passed && Evolves(env, c, x, t, n, u, last) {
      EvolvesTransitive(env, c, x, s, m, t, n, u, last);
    }
  }

  lemma ServedTogether(x: Transport, m: nat, n: nat, k: nat)
    requires AllServed(x, m, n) && AllServed(x, n, k)
    ensures AllServed(x, m, k)
  {
  }

  lemma EvolvesOrdered(env: Env, c: Setup, x: Transport, s: Store, m: nat, t: Store, n: nat)
    requires Evolves(env, c, x, s, m, t, n)
    ensures m <= n
  {
  }

  /** One request that did nothing, or served one call. */
  lemma OneRequest(env: Env, c: Setup, x: Transport, s: Store, n: nat, t: Store)
    requires OwnStep(env, c, x, n, s, t)
    ensures Evolves(env, c, x, s, n, t, n + 1) && Evolves(env, c, x, s, n, s, n)
  {
    hide OwnStep;
    assert Evolves(env, c, x, s, n, s, n);
    assert LastStep(env, c, x, s, n, t, n);
  }

  lemma Idle(env: Env, c: Setup, x: Transport, s: Store, n: nat)
    ensures Attempt(env, c, x, s, n, s, n, true)
  {
  }

  lemma NoClashLater(env: Env, c: Setup, x: Transport, s: Store, m: nat, t: Store, n: nat)
    requires NoClash(env, c, x, s, m) && Evolves(env, c, x, s, m, t, n)
    ensures NoClash(env, c, x, t, n)
  {
    hide RefusedNow;
    forall u, k | Evolves(env, c, x, t, n, u, k) ensures !RefusedNow(env, c, x, u, k) {
      EvolvesTransitive(env, c, x, s, m, t, n, u, k);
    }
  }

  lemma {:induction false} LossesAdd(x: Transport, m: nat, n: nat, k: nat)
    requires m <= n <= k
    ensures Losses(x, m, k) == Losses(x, m, n) + Losses(x, n, k)
    decreases k
  {
    if n < k { LossesAdd(x, m, n, k - 1); }
  }

  lemma {:induction false} ServedNoLoss(x: Transport, m: nat, n: nat)
    requires m <= n && AllServed(x, m, n)
    ensures Losses(x, m, n) == 0
    decreases n
  {
    if m < n { ServedNoLoss(x, m, n - 1); }
  }

  /** Without a refused insert, a failed attempt is exactly one loss, a passed one none. */
  lemma AttemptLosses(env: Env, c: Setup, x: Transport, s: Store, m: nat, t: Store, n: nat, passed: bool)
    requires Attempt(env, c, x, s, m, t, n, passed) && NoClash(env, c, x, s, m)
    ensures m <= n && Losses(x, m, n) == if passed then 0 else 1
  {
    hide RefusedNow;
    EvolvesOrdered(env, c, x, s, m, t, n);
    hide Evolves;
    ServedNoLoss(x, m, if passed then n else n - 1);
  }

  // ----- No collision, no refused insert -----

  /** Every uuid4 value is new to the state its request meets. */
  ghost predicate FreshDraws(env: Env, c: Setup, x: Transport, s: Store, m: nat) {
    forall t, n :: Evolves(env, c, x, s, m, t, n) ==> FreshIds(t, x.ids(n))
  }

  /** The n-th request, made as this call in state t, would append a text that collides with a logged one. */
  ghost predicate WouldCollide(env: Env, x: Transport, t: Store, n: nat, call: Call, actor: Actor) {
    var p := Plan(env, t, call, actor, x.clock(n));
    && p.Ok? && p.value.Write?
    && exists f, i :: GovernanceRuns.CollidesWith(
                        env, t, f, i, p.value.finding,
                        GovernanceRuns.EventOf(env, t, p.value, actor, x.ids(n), x.clock(n)))
  }

  ghost predicate NoCollision(env: Env, c: Setup, x: Transport, s: Store, m: nat) {
    forall t, n, call, actor ::
      Evolves(env, c, x, s, m, t, n) && Own(c, call, actor) ==> !WouldCollide(env, x, t, n, call, actor)
  }

  lemma {:induction false} EvolvesKeepsInv(env: Env, c: Setup, x: Transport, s: Store, m: nat, t: Store, n: nat)
    requires GovernanceRuns.Inv(env, s) && Evolves(env, c, x, s, m, t, n) && FreshDraws(env, c, x, s, m)
    requires !Blank(c.analyst) && !Blank(c.approver)
    ensures GovernanceRuns.Inv(env, t)
    decreases n
  {
    hide GovernanceRuns.Inv, FreshIds, Next;
    if m < n {
      var k: nat := n - 1;
      assert LastStep(env, c, x, s, m, t, k);
      var u :| Evolves(env, c, x, s, m, u, k) && OwnStep(env, c, x, k, u, t);
      EvolvesKeepsInv(env, c, x, s, m, u, k);
      if t != u {
        var call, actor :| Own(c, call, actor) && t == Served1(env, x, k, u, call, actor);
        assert !IsSpace("oidc"[0]);
        GovernanceRuns.NextKeepsInv(env, u, Request.Invoke(call, actor, x.ids(k), x.clock(k)));
      }
    }
  }

  /** From a reachable state, no insert is refused unless SHA-256 collides on one of the validator's own events. */
  lemma NoCollisionNoClash(env: Env, c: Setup, x: Transport, s: Store, m: nat)
    requires GovernanceRuns.Inv(env, s) && Hexadecimal(env.sha) && (forall t :: IsNumberText(env.stamp(t)))
    requires !Blank(c.analyst) && !Blank(c.approver)
    requires FreshDraws(env, c, x, s, m) && NoCollision(env, c, x, s, m)
    ensures NoClash(env, c, x, s, m)
  {
    hide GovernanceRuns.Inv, Evolves, FreshDraws, Plan, Do, GovernanceRuns.CollidesWith, Hexadecimal, IsNumberText;
    forall t, n | Evolves(env, c, x, s, m, t, n) ensures !RefusedNow(env, c, x, t, n) {
      EvolvesKeepsInv(env, c, x, s, m, t, n);
      forall call, actor | Own(c, call, actor) ensures !WriteRefused(env, t, call, actor, x.ids(n), x.clock(n)) {
        assert !WouldCollide(env, x, t, n, call, actor);
        if WriteRefused(env, t, call, actor, x.ids(n), x.clock(n)) {
          GovernanceRuns.RefusalIsCollision(env, t, call, actor, x.ids(n), x.clock(n));
        }
      }
    }
  }
}
