/**
 * Row locks and the order the code takes them in: request key, auction, then
 * product or participant, then wallet. With that order no set of transactions
 * can wait in a circle.
 */
module LockOrder {
  import opened Common
  import opened Ledger

  datatype Resource =
    | RequestKey(key: string)
    | AuctionLock(auction: AuctionId)
    | ProductLock(product: ProductId)
    | ParticipantLock(auction: AuctionId, user: UserId)
    | WalletLock(wallet: WalletId)

  const TOP := 4

  function Rank(r: Resource): nat {
    match r
    case RequestKey(_) => 0
    case AuctionLock(_) => 1
    case ProductLock(_) => 2
    case ParticipantLock(_, _) => 2
    case WalletLock(_) => 3
  }

  /** The transactions of the engine, each with the rows it locks. */
  datatype Kind =
    | PlacingBids(key: string, auction: AuctionId, wallet: WalletId)
    | ChangingStatus(auction: AuctionId)
    | MovingInventory(auction: AuctionId, product: ProductId)
    | MovingMoney(wallet: WalletId)
    | EditingStock(product: ProductId)

  type Plan = seq<Resource>

  function PlanOf(kind: Kind): Plan {
    match kind
    case PlacingBids(key, a, w) => [RequestKey(key), AuctionLock(a), ParticipantLock(a, w.user), WalletLock(w)]
    case ChangingStatus(a) => [AuctionLock(a)]
    case MovingInventory(a, p) => [AuctionLock(a), ProductLock(p)]
    case MovingMoney(w) => [WalletLock(w)]
    case EditingStock(p) => [ProductLock(p)]
  }

  /** Locks are taken in strictly rising rank. */
  predicate Rising(plan: Plan) {
    forall i, j :: 0 <= i < j < |plan| ==> Rank(plan[i]) < Rank(plan[j])
  }

  lemma CodeTakesLocksInOrder(kind: Kind)
    ensures Rising(PlanOf(kind))
  {
  }

  // -------------------------------------------------------------------------
  // The lock manager
  // -------------------------------------------------------------------------

  type Tid = nat

  /** `taken[t]` locks of plan `t` are held; a finished transaction has let all of them go. */
  datatype Manager = Manager(plans: seq<Plan>, taken: seq<nat>, finished: seq<bool>, holder: map<Resource, Tid>)

  function Begin(plans: seq<Plan>): Manager {
    Manager(plans, seq(|plans|, _ => 0), seq(|plans|, _ => false), map[])
  }

  predicate Sized(m: Manager) {
    |m.taken| == |m.plans| == |m.finished| && forall t: Tid :: t < |m.plans| ==> m.taken[t] <= |m.plans[t]|
  }

  /** What holds a lock has reached it in its plan, and what is reached and unfinished is held. */
  ghost predicate Consistent(m: Manager) {
    && Sized(m)
    && (forall r :: r in m.holder ==>
          && m.holder[r] < |m.plans| && !m.finished[m.holder[r]]
          && exists i :: 0 <= i < m.taken[m.holder[r]] && m.plans[m.holder[r]][i] == r)
    && (forall t: Tid, i :: t < |m.plans| && !m.finished[t] && 0 <= i < m.taken[t] ==>
          m.plans[t][i] in m.holder && m.holder[m.plans[t][i]] == t)
  }

  predicate Unfinished(m: Manager, t: Tid)
    requires Sized(m)
  {
    t < |m.plans| && !m.finished[t]
  }

  /** The transaction has a next lock to take. */
  predicate Wants(m: Manager, t: Tid)
    requires Sized(m)
  {
    Unfinished(m, t) && m.taken[t] < |m.plans[t]|
  }

  function Wanted(m: Manager, t: Tid): Resource
    requires Sized(m) && Wants(m, t)
  {
    m.plans[t][m.taken[t]]
  }

  predicate WaitsFor(m: Manager, t: Tid, u: Tid)
    requires Sized(m)
  {
    Wants(m, t) && Wanted(m, t) in m.holder && m.holder[Wanted(m, t)] == u
  }

  /** A transaction can step: take its next lock, or commit and release. */
  predicate CanStep(m: Manager, t: Tid)
    requires Sized(m)
  {
    Unfinished(m, t) && (Wants(m, t) ==> Wanted(m, t) !in m.holder)
  }

  function Step(m: Manager, t: Tid): Manager
    requires Sized(m)
  {
    if !CanStep(m, t) then m
    else if Wants(m, t) then
      m.(taken := m.taken[t := m.taken[t] + 1], holder := m.holder[Wanted(m, t) := t])
    else
      m.(finished := m.finished[t := true], holder := m.holder - Own(m, t))
  }

  function Own(m: Manager, t: Tid): set<Resource>
    requires Sized(m)
  {
    set r | r in m.holder && m.holder[r] == t
  }

  lemma BeginIsConsistent(plans: seq<Plan>)
    ensures Consistent(Begin(plans))
  {
  }

  ghost predicate AllRising(plans: seq<Plan>) {
    forall t :: 0 <= t < |plans| ==> Rising(plans[t])
  }

  lemma StepKeeps(m: Manager, t: Tid)
    requires Consistent(m) && AllRising(m.plans)
    ensures Consistent(Step(m, t)) && Step(m, t).plans == m.plans
  {
    var m' := Step(m, t);
    if CanStep(m, t) && Wants(m, t) {
      var wanted := Wanted(m, t);
      forall r | r in m'.holder
        ensures exists i :: 0 <= i < m'.taken[m'.holder[r]] && m'.plans[m'.holder[r]][i] == r
      {
        if r == wanted {
          assert m'.plans[t][m.taken[t]] == r;
        } else {
          var i :| 0 <= i < m.taken[m.holder[r]] && m.plans[m.holder[r]][i] == r;
        }
      }
      forall u: Tid, i | u < |m'.plans| && !m'.finished[u] && 0 <= i < m'.taken[u]
        ensures m'.plans[u][i] in m'.holder && m'.holder[m'.plans[u][i]] == u
      {
        if u != t || i < m.taken[t] {
          assert m.plans[u][i] in m.holder;
        }
      }
    }
  }

  // -------------------------------------------------------------------------
  // No circle, and always somebody to move
  // -------------------------------------------------------------------------

  /** Whoever is waited for, if waiting too, wants something of higher rank. */
  lemma WaitingClimbs(m: Manager, t: Tid, u: Tid)
    requires Consistent(m) && AllRising(m.plans)
    requires WaitsFor(m, t, u) && Wants(m, u)
    ensures Rank(Wanted(m, t)) < Rank(Wanted(m, u))
  {
    var r := Wanted(m, t);
    var i :| 0 <= i < m.taken[u] && m.plans[u][i] == r;
    assert Rising(m.plans[u]);
  }

  /** Each waits for the next. */
  ghost predicate WaitChain(m: Manager, chain: seq<Tid>)
    requires Sized(m)
  {
    forall i :: 0 <= i < |chain| - 1 ==> WaitsFor(m, chain[i], chain[i + 1])
  }

  lemma {:induction false} ChainsClimb(m: Manager, chain: seq<Tid>)
    requires Consistent(m) && AllRising(m.plans)
    requires |chain| >= 2 && WaitChain(m, chain) && Wants(m, chain[|chain| - 1])
    ensures Wants(m, chain[0]) && Rank(Wanted(m, chain[0])) < Rank(Wanted(m, chain[|chain| - 1]))
    decreases |chain|
  {
    assert WaitsFor(m, chain[0], chain[1]);
    if |chain| == 2 {
      WaitingClimbs(m, chain[0], chain[1]);
    } else {
      var rest := chain[1..];
      forall i | 0 <= i < |rest| - 1
        ensures WaitsFor(m, rest[i], rest[i + 1])
      {
        assert WaitsFor(m, chain[i + 1], chain[i + 2]);
      }
      ChainsClimb(m, rest);
      WaitingClimbs(m, chain[0], chain[1]);
    }
  }

  /** The wait-for graph has no cycle, of any length. */
  lemma NoCycle(m: Manager, chain: seq<Tid>)
    requires Consistent(m) && AllRising(m.plans)
    requires |chain| >= 2 && WaitChain(m, chain)
    ensures chain[0] != chain[|chain| - 1]
  {
    assert WaitsFor(m, chain[0], chain[1]);
    if chain[0] == chain[|chain| - 1] {
      ChainsClimb(m, chain);
    }
  }

  lemma {:induction false} SomebodyCanStep(m: Manager, t: Tid) returns (u: Tid)
    requires Consistent(m) && AllRising(m.plans) && Unfinished(m, t)
    ensures CanStep(m, u)
    decreases if Wants(m, t) then TOP - Rank(Wanted(m, t)) else 0
  {
    if CanStep(m, t) {
      u := t;
    } else {
      var v := m.holder[Wanted(m, t)];
      if Wants(m, v) {
        WaitingClimbs(m, t, v);
      }
      u := SomebodyCanStep(m, v);
    }
  }

  function Manage(m: Manager, schedule: seq<Tid>): Manager
    requires Sized(m)
    decreases |schedule|
  {
    if schedule == [] then m
    else
      var next := Step(m, schedule[0]);
      if Sized(next) then Manage(next, schedule[1..]) else m
  }

  lemma {:induction false} ManageKeeps(m: Manager, schedule: seq<Tid>)
    requires Consistent(m) && AllRising(m.plans)
    ensures Consistent(Manage(m, schedule)) && Manage(m, schedule).plans == m.plans
    decreases |schedule|
  {
    hide Consistent, AllRising;
    ConsistentIsSized(m);
    if schedule != [] {
      StepKeeps(m, schedule[0]);
      ConsistentIsSized(Step(m, schedule[0]));
      ManageKeeps(Step(m, schedule[0]), schedule[1..]);
    }
  }

  lemma ConsistentIsSized(m: Manager)
    requires Consistent(m)
    ensures Sized(m)
  {
  }

  function Plans(kinds: seq<Kind>): seq<Plan> {
    seq(|kinds|, i requires 0 <= i < |kinds| => PlanOf(kinds[i]))
  }

  /**
   * Any number of bids, status changes, closes, cancels, refunds and stock edits,
   * after any schedule of their steps: nobody waits in a circle, and while
   * anything is unfinished, something can move.
   */
  lemma NoDeadlock(kinds: seq<Kind>, schedule: seq<Tid>, chain: seq<Tid>, t: Tid) returns (u: Tid)
    ensures Sized(Begin(Plans(kinds))) && Sized(Manage(Begin(Plans(kinds)), schedule))
    ensures var m := Manage(Begin(Plans(kinds)), schedule);
      && (|chain| >= 2 && WaitChain(m, chain) ==> chain[0] != chain[|chain| - 1])
      && (Unfinished(m, t) ==> CanStep(m, u))
  {
    var m0 := Begin(Plans(kinds));
    BeginIsConsistent(Plans(kinds));
    assert AllRising(m0.plans) by {
      forall i | 0 <= i < |kinds| ensures Rising(PlanOf(kinds[i])) {
        CodeTakesLocksInOrder(kinds[i]);
      }
    }
    ManageKeeps(m0, schedule);
    var m := Manage(m0, schedule);
    if |chain| >= 2 && WaitChain(m, chain) {
      NoCycle(m, chain);
    }
    u := 0;
    if Unfinished(m, t) {
      u := SomebodyCanStep(m, t);
    }
  }

  // -------------------------------------------------------------------------
  // Everything finishes
  // -------------------------------------------------------------------------

  /** Steps left: one for each lock not yet taken, and one to commit. */
  function Left(m: Manager, upTo: nat): nat
    requires Sized(m) && upTo <= |m.plans|
  {
    if upTo == 0 then 0
    else Left(m, upTo - 1) + if m.finished[upTo - 1] then 0 else 1 + |m.plans[upTo - 1]| - m.taken[upTo - 1]
  }

  lemma {:induction false} LeftDrops(m: Manager, t: Tid, upTo: nat)
    requires Sized(m) && CanStep(m, t) && upTo <= |m.plans|
    ensures Sized(Step(m, t)) && Step(m, t).plans == m.plans
    ensures Left(Step(m, t), upTo) == Left(m, upTo) - if t < upTo then 1 else 0
    decreases upTo
  {
    if upTo > 0 {
      LeftDrops(m, t, upTo - 1);
    }
  }

  lemma {:induction false} NothingLeft(m: Manager, upTo: nat)
    requires Sized(m) && upTo <= |m.plans| && (forall t: Tid :: t < upTo ==> m.finished[t])
    ensures Left(m, upTo) == 0
    decreases upTo
  {
    if upTo > 0 {
      NothingLeft(m, upTo - 1);
    }
  }

  /**
   * From any point of any schedule, some continuation finishes every
   * transaction, in exactly as many steps as there are locks and commits left.
   */
  lemma {:induction false} EverythingFinishes(m: Manager) returns (schedule: seq<Tid>)
    requires Consistent(m) && AllRising(m.plans)
    ensures |schedule| == Left(m, |m.plans|)
    ensures var end := Manage(m, schedule);
      Sized(end) && end.plans == m.plans && forall t: Tid :: t < |m.plans| ==> end.finished[t]
    decreases Left(m, |m.plans|)
  {
    if t: Tid :| t < |m.plans| && !m.finished[t] {
      var u := SomebodyCanStep(m, t);
      StepKeeps(m, u);
      LeftDrops(m, u, |m.plans|);
      var rest := EverythingFinishes(Step(m, u));
      schedule := [u] + rest;
      assert schedule[1..] == rest;
    } else {
      NothingLeft(m, |m.plans|);
      schedule := [];
    }
  }

  // -------------------------------------------------------------------------
  // Why the order matters
  // -------------------------------------------------------------------------

  /** A transaction that took the wallet before the auction could deadlock against a bid. */
  lemma WalletFirstDeadlocks(key: string, a: AuctionId, w: WalletId)
    ensures var backwards := [WalletLock(w), AuctionLock(a)];
      var m := Manage(Begin([PlanOf(PlacingBids(key, a, w)), backwards]), [0, 0, 0, 1]);
      && !Rising(backwards)
      && Sized(m) && WaitsFor(m, 0, 1) && WaitsFor(m, 1, 0)
  {
    var backwards := [WalletLock(w), AuctionLock(a)];
    var bid := PlanOf(PlacingBids(key, a, w));
    var m0 := Begin([bid, backwards]);
    var m1, m2, m3 := Step(m0, 0), Step(Step(m0, 0), 0), Step(Step(Step(m0, 0), 0), 0);
    var m4 := Step(m3, 1);
    assert m1.taken == [1, 0];
    assert m2.taken == [2, 0];
    assert m3.taken == [3, 0];
    assert m4.taken == [3, 1];
    assert m4.holder[AuctionLock(a)] == 0 && m4.holder[WalletLock(w)] == 1;
    assert Rank(backwards[0]) > Rank(backwards[1]);
    hide Step, PlanOf, Begin, WaitsFor;
    FourSteps(m0, m1, m2, m3, m4);
  }

  lemma FourSteps(m0: Manager, m1: Manager, m2: Manager, m3: Manager, m4: Manager)
    requires Sized(m0) && Sized(m1) && Sized(m2) && Sized(m3) && Sized(m4)
    requires m1 == Step(m0, 0) && m2 == Step(m1, 0) && m3 == Step(m2, 0) && m4 == Step(m3, 1)
    ensures Manage(m0, [0, 0, 0, 1]) == m4
  {
    hide Step;
    assert Manage(m3, [1]) == m4 by { assert [1][1..] == []; }
    assert Manage(m2, [0, 1]) == m4 by { assert [0, 1][1..] == [1]; }
    assert Manage(m1, [0, 0, 1]) == m4 by { assert [0, 0, 1][1..] == [0, 1]; }
    assert [0, 0, 0, 1][1..] == [0, 0, 1];
  }
}
