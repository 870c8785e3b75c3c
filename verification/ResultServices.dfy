/** Deciding, paying back and verifying, over the running tables. */
module ResultServices {
  import opened Common
  import opened Ledger
  import opened Auctions
  import opened Catalog
  import opened Lub
  import opened Platform
  import Lifecycle
  import opened Closing
  import opened Invariants
  import opened ClosingKeeps
  import opened Runs
  import opened Settlement
  import opened Sweep
  import opened Queries
  import opened Services
  import opened LifecycleServices

  // -------------------------------------------------------------------------
  // The decision
  // -------------------------------------------------------------------------

  /** Insert the result, or read back the one that is already there. */
  method InsertResult(e: Engine, a: AuctionId, computed: ResultRow) returns (result: ResultRow, inserted: bool)
    modifies e`results
    ensures inserted == (a !in old(e.results))
    ensures result == if inserted then computed else old(e.results)[a]
    ensures e.results == old(e.results)[a := result]
  {
    inserted := a !in e.results;
    if inserted {
      e.results := e.results[a := computed];
    }
    result := e.results[a];
  }

  /** The winner's order, or the unit back on the shelf. */
  method ApplyConsequences(e: Engine, a: AuctionId, auction: Auction, result: ResultRow) returns (r: Result<Option<Order>>)
    modifies e`orders, e.inventory
    ensures match Consequences(old(e.Rows()), a, auction, result)
      case Err(error) => r == Err(error)
      case Ok(s') =>
        && e.Rows() == s'
        && r == Ok(if result.outcome == HasWinner && a in s'.orders then Some(s'.orders[a]) else None)
  {
    if result.outcome != HasWinner {
      var released := e.inventory.ReleaseUnit(a);
      if released.Err? {
        return Err(released.error);
      }
      return Ok(None);
    }
    if result.winner.None? || result.winningAmount.None? {
      return Err(ResultNotFound);
    }
    if a !in e.orders {
      e.orders := e.orders[a := Order(result.winner.value, auction.product, auction.currency, result.winningAmount.value)];
    }
    return Ok(Some(e.orders[a]));
  }

  datatype Decision = Decision(auction: Auction, result: ResultRow, order: Option<Order>, inserted: bool)

  /** T2: count, decide, persist and apply the consequences, or leave no trace. */
  method DecideAuction(e: Engine, a: AuctionId) returns (r: Result<Decision>)
    modifies e, e.inventory, e.wallets
    ensures match Decide(old(e.Rows()), a)
      case Err(error) => r == Err(error) && e.Rows() == old(e.Rows())
      case Ok(s') =>
        && e.Rows() == s'
        && a in old(e.auctions) && a in s'.results
        && r.Ok?
        && r.value.auction == old(e.auctions)[a]
        && r.value.result == s'.results[a]
        && r.value.inserted == (a !in old(e.results))
        && (r.value.order.Some? <==> s'.results[a].outcome == HasWinner)
        && (r.value.order.Some? ==> a in s'.orders && r.value.order.value == s'.orders[a])
  {
    hide Consequences, FrozenLines, CountFrozenBids, Winner;
    if a !in e.auctions {
      return Err(ResultNotFound);
    }
    var auction := e.auctions[a];
    if auction.status !in CLOSABLE {
      return Err(AuctionNotClosed);
    }
    var saved := e.Rows();
    var lines := FrozenLines(e.bids, a);
    var statistics := CountFrozenBids(lines);
    var winner := if auction.status == Cancelled then None else Winner(lines);
    var outcome := DecideOutcome(auction.status == Cancelled, statistics, winner.Some?);
    var computed := ResultRow(
      outcome,
      if winner.Some? then Some(winner.value.id) else None,
      if winner.Some? then Some(winner.value.user) else None,
      if winner.Some? then Some(winner.value.amountMinor) else None,
      statistics,
      lines);
    assert computed == ComputedResult(e.bids, a, auction.status == Cancelled);
    hide ComputedResult;
    var result, inserted := InsertResult(e, a, computed);
    assert result == StoredResult(saved, a);
    var order := ApplyConsequences(e, a, auction, result);
    if order.Err? {
      e.Rollback(saved);
      return Err(order.error);
    }
    ConsequencesKeepRows(saved.(results := saved.results[a := result]), a, auction, result);
    if auction.status != Cancelled {
      var completed := Transition(e, a, Complete);
      if completed.Err? {
        e.Rollback(saved);
        return Err(completed.error);
      }
    }
    return Ok(Decision(auction, result, order.value, inserted));
  }

  lemma ConsequencesKeepRows(s: State, a: AuctionId, auction: Auction, result: ResultRow)
    requires Consequences(s, a, auction, result).Ok?
    ensures var s' := Consequences(s, a, auction, result).value;
      s'.results == s.results && s'.auctions == s.auctions && (result.outcome == HasWinner ==> a in s'.orders)
  {
    hide Release;
  }

  // -------------------------------------------------------------------------
  // Refunds
  // -------------------------------------------------------------------------

  lemma ReplayedMeansRefunded(s: State, a: AuctionId, u: UserId)
    requires RefundOne(s, a, u).1.Ok?
    ensures RefundOne(s, a, u).1.value.replayed <==> Refunded(s, a, u)
  {
  }

  /**
   * One pass over the payers, counting what it moved. It stops at the first
   * failure; otherwise it reports exactly the payers who were still owed, and
   * the sum of what they were owed.
   */
  method RefundParticipationFees(e: Engine, a: AuctionId) returns (r: Result<RefundOutcome>)
    modifies e.wallets
    ensures var s, payers := old(e.Rows()), PayersOf(old(e.Rows()), a);
      var (s', failed) := RefundAll(s, a, payers);
      && e.Rows() == s'
      && if failed.Some? then r == Err(failed.value)
         else
           var owing := Owing(s, a, payers);
           r == Ok(RefundOutcome(|payers|, |owing|, |payers| - |owing|, SumOwed(s, a, owing)))
  {
    hide RefundOne, Refunded, PayersOf;
    ghost var s := e.Rows();
    var payers := ListFeePayers(e.Rows(), a);
    var refunded: nat, alreadyRefunded: nat, totalRefunded := 0, 0, 0;
    for k := 0 to |payers|
      invariant RefundAll(s, a, payers[..k]) == (e.Rows(), None)
      invariant e.Rows() == s.(accounts := e.wallets.accounts)
      invariant refunded == |Owing(s, a, payers[..k])| && alreadyRefunded == k - refunded
      invariant totalRefunded == SumOwed(s, a, Owing(s, a, payers[..k]))
    {
      var u := payers[k];
      assert payers[..k + 1] == payers[..k] + [u] && payers[..k + 1][..k] == payers[..k];
      assert payers == payers[..k + 1] + payers[k + 1..];
      RefundAllAppend(s, a, payers[..k], u);
      assert u !in payers[..k];
      RefundAllOnly(s, a, payers[..k], a, u);
      ghost var before := e.Rows();
      var movement := Refund(e, a, u);
      if movement.Err? {
        RefundAllStops(s, a, payers[..k + 1], payers[k + 1..]);
        return Err(movement.error);
      }
      ReplayedMeansRefunded(before, a, u);
      ghost var owing := Owing(s, a, payers[..k]);
      if movement.value.replayed {
        assert Owing(s, a, payers[..k + 1]) == owing;
        alreadyRefunded := alreadyRefunded + 1;
        continue;
      }
      assert (owing + [u])[..|owing|] == owing;
      assert Owing(s, a, payers[..k + 1]) == owing + [u];
      assert SumOwed(s, a, owing + [u]) == SumOwed(s, a, owing) + SeatOf(s.participants, Seat(a, u)).totalFees;
      refunded := refunded + 1;
      totalRefunded := totalRefunded + SeatOf(e.participants, Seat(a, u)).totalFees;
    }
    assert payers[..|payers|] == payers;
    return Ok(RefundOutcome(|payers|, refunded, alreadyRefunded, totalRefunded));
  }

  /** One wallet, one transaction. No currency is named, so the default one is meant. */
  method Refund(e: Engine, a: AuctionId, u: UserId) returns (r: Result<Receipt>)
    modifies e.wallets
    ensures (e.Rows(), r) == RefundOne(old(e.Rows()), a, u)
    ensures e.Rows() == old(e.Rows()).(accounts := e.wallets.accounts)
  {
    hide Posted;
    var fees := SeatOf(e.participants, Seat(a, u)).totalFees;
    r := e.wallets.Move(
      WalletId(u, DEFAULT_CURRENCY), Movement(fees, None, BidFeeRefund, Some(a), Some(RefundKey(a, u))));
  }

  // -------------------------------------------------------------------------
  // Closing
  // -------------------------------------------------------------------------

  /** Only `no_unique_bid` and `cancelled` return fees, and a failure here does not fail the close. */
  method SettleAuction(e: Engine, a: AuctionId, outcome: Outcome)
    requires a in e.results && e.results[a].outcome == outcome
    modifies e.wallets
    ensures e.Rows() == SettleMoney(old(e.Rows()), a, PayersOf(old(e.Rows()), a))
  {
    hide RefundAll, PayersOf;
    if outcome in {HasWinner, NoBids} {
      return;
    }
    var _ := RefundParticipationFees(e, a);
  }

  lemma PayersSame(s: State, s': State, a: AuctionId)
    requires s'.participants == s.participants
    ensures PayersOf(s', a) == PayersOf(s, a)
  {
    PayersCarry(s, s', a, PayersOf(s, a));
    AscendingIsUnique(PayersOf(s', a), PayersOf(s, a));
  }

  lemma DecideKeepsSeats(s: State, a: AuctionId)
    requires Decide(s, a).Ok?
    ensures a in s.auctions && a in Decide(s, a).value.results && Decide(s, a).value.participants == s.participants
  {
    hide ComputedResult, Release;
  }

  lemma BeginKeepsSeats(s: State, a: AuctionId)
    requires BeginResult(s, a).Ok?
    ensures a in s.auctions && a in BeginResult(s, a).value.auctions
    ensures BeginResult(s, a).value.participants == s.participants && BeginResult(s, a).value.results == s.results
  {
  }

  /** What the caller of a close is told. */
  datatype Closure = Closure(outcome: Outcome, winningAmount: Option<int>, order: Option<Order>, decided: bool)

  /**
   * T1, T2 and the money. An auction already completed is reported from its
   * stored result, without its order.
   */
  method CloseAuction(e: Engine, a: AuctionId) returns (r: Result<Closure>)
    modifies e, e.inventory, e.wallets
    ensures var s := old(e.Rows());
      match Settlement.CloseAuction(s, a, PayersOf(s, a))
      case Err(error) => r == Err(error) && e.Rows() == Committed(s, BeginResult(s, a))
      case Ok(s') =>
        && e.Rows() == s'
        && a in s.auctions && a in s'.results
        && r.Ok?
        && r.value.outcome == s'.results[a].outcome && r.value.winningAmount == s'.results[a].winningAmount
        && (s.auctions[a].status == Completed ==> !r.value.decided && r.value.order.None?)
        && (s.auctions[a].status != Completed ==> r.value.decided == (a !in s.results))
        && (s.auctions[a].status != Completed ==> (r.value.order.Some? <==> r.value.outcome == HasWinner))
        && (r.value.order.Some? ==> a in e.orders && r.value.order.value == e.orders[a])
        && (r.value.order.Some? && Inv(s) ==>
              && a in e.auctions
              && e.results[a].winner == Some(r.value.order.value.user)
              && e.results[a].winningAmount == Some(r.value.order.value.total)
              && r.value.order.value.product == s.auctions[a].product == e.auctions[a].product
              && r.value.order.value.currency == s.auctions[a].currency == e.auctions[a].currency)
  {
    hide Decide, RefundAll, PayersOf;
    ghost var s := e.Rows();
    if a !in e.auctions {
      return Err(ResultNotFound);
    }
    var prepared := e.auctions[a];
    if prepared.status !in CLOSABLE {
      return Err(AuctionNotClosed);
    }
    if prepared.status == Closing {
      var closedAt := if prepared.closingAt.Some? then prepared.closingAt.value else e.now;
      var _ := ApplyTransition(e, a, Closing, prepared.(status := Calculating, closedAt := Some(closedAt)));
    }
    BeginKeepsSeats(s, a);
    ghost var s1 := e.Rows();
    assert BeginResult(s, a) == Ok(s1);
    PayersSame(s, s1, a);
    if prepared.status == Completed {
      if a !in e.results {
        return Err(ResultNotFound);
      }
      var existing := e.results[a];
      SettleKeeps(s1, a, PayersOf(s1, a));
      SettleAuction(e, a, existing.outcome);
      return Ok(Closure(existing.outcome, existing.winningAmount, None, false));
    }
    var decision := DecideAuction(e, a);
    if decision.Err? {
      return Err(decision.error);
    }
    ghost var s2 := e.Rows();
    DecideKeepsSeats(s1, a);
    PayersSame(s1, s2, a);
    SettleKeeps(s2, a, PayersOf(s2, a));
    SettleAuction(e, a, decision.value.result.outcome);
    OrderIsTheWinners(s, a, PayersOf(s, a));
    return Ok(Closure(
      decision.value.result.outcome, decision.value.result.winningAmount, decision.value.order, decision.value.inserted));
  }

  /** In a sound database an order found after a close is for the stored winner, amount, product and currency. */
  lemma OrderIsTheWinners(s: State, a: AuctionId, payers: seq<UserId>)
    requires ListsPayers(payers, s, a)
    ensures Inv(s) && Settlement.CloseAuction(s, a, payers).Ok? ==>
      var s' := Settlement.CloseAuction(s, a, payers).value;
      && a in s.auctions && a in s'.auctions
      && s'.auctions[a].product == s.auctions[a].product && s'.auctions[a].currency == s.auctions[a].currency
      && (a in s'.orders ==>
            && a in s'.results
            && s'.results[a].winner == Some(s'.orders[a].user) && s'.results[a].winningAmount == Some(s'.orders[a].total)
            && s'.orders[a].product == s'.auctions[a].product && s'.orders[a].currency == s'.auctions[a].currency)
  {
    hide Inv, Settlement.CloseAuction, ListsPayers, CloseScript, Exec, Settled, SameElsewhere, FrozenFrom;
    if Inv(s) && Settlement.CloseAuction(s, a, payers).Ok? {
      ClosesOnlyTheClosable(s, a, payers);
      CloseAuctionSettles(s, a, payers);
      RunIsPermanent(s, CloseScript(a, payers));
      OrdersOf(Closed(s, a, payers));
    }
  }

  lemma ClosesOnlyTheClosable(s: State, a: AuctionId, payers: seq<UserId>)
    requires Settlement.CloseAuction(s, a, payers).Ok?
    ensures a in s.auctions && s.auctions[a].status in CLOSABLE
  {
    hide Decide, SettleMoney;
  }

  lemma SettleKeeps(s: State, a: AuctionId, payers: seq<UserId>)
    ensures SettleMoney(s, a, payers).results == s.results && SettleMoney(s, a, payers).orders == s.orders
    decreases |payers|
  {
    if Refundable(s, a) && payers != [] {
      var (s1, r) := RefundOne(s, a, payers[0]);
      if r.Ok? {
        SettleKeeps(s1, a, payers[1..]);
      }
    }
  }

  // -------------------------------------------------------------------------
  // Verification
  // -------------------------------------------------------------------------

  datatype Mismatch =
    | ChecksumDiffers | WinningBidDiffers | WinningAmountDiffers | FigureDiffers(index: nat)

  function Figures(st: Statistics): seq<int> {
    [st.totalBids, st.totalValidBids, st.participantCount, st.uniqueAmountCount]
  }

  datatype Verification = Verification(ok: bool, mismatches: seq<Mismatch>)

  /** Recompute a published result and name every field that disagrees. It never writes. */
  method VerifyResult(e: Engine, a: AuctionId) returns (r: Result<Verification>)
    ensures a !in e.results ==> r == Err(ResultNotFound)
    ensures a in e.results ==> r.Ok?
    ensures r.Ok? ==> a in e.results
    ensures r.Ok? ==> (r.value.ok <==> ResultHolds(e.Rows(), a)) && (r.value.ok <==> r.value.mismatches == [])
    ensures r.Ok? ==>
      var stored := e.results[a];
      var again := ComputedResult(e.bids, a, stored.outcome == WasCancelled);
      && (ChecksumDiffers in r.value.mismatches <==> stored.checksum != again.checksum)
      && (WinningBidDiffers in r.value.mismatches <==> stored.winningBid != again.winningBid)
      && (WinningAmountDiffers in r.value.mismatches <==> stored.winningAmount != again.winningAmount)
      && (forall i: nat :: FigureDiffers(i) in r.value.mismatches <==>
            i < 4 && Figures(stored.statistics)[i] != Figures(again.statistics)[i])
  {
    hide FrozenLines, CountFrozenBids, Winner;
    if a !in e.results {
      return Err(ResultNotFound);
    }
    var stored := e.results[a];
    var lines := FrozenLines(e.bids, a);
    var statistics := CountFrozenBids(lines);
    var winner := if stored.outcome == WasCancelled then None else Winner(lines);
    var mismatches: seq<Mismatch> := [];
    if stored.checksum != lines {
      mismatches := mismatches + [ChecksumDiffers];
    }
    if stored.winningBid != (if winner.Some? then Some(winner.value.id) else None) {
      mismatches := mismatches + [WinningBidDiffers];
    }
    if stored.winningAmount != (if winner.Some? then Some(winner.value.amountMinor) else None) {
      mismatches := mismatches + [WinningAmountDiffers];
    }
    ghost var head := mismatches;
    for i := 0 to 4
      invariant forall m :: m in mismatches && !m.FigureDiffers? <==> m in head
      invariant forall j: nat :: FigureDiffers(j) in mismatches <==>
        j < i && Figures(stored.statistics)[j] != Figures(statistics)[j]
      invariant mismatches == [] <==> head == [] && Figures(stored.statistics)[..i] == Figures(statistics)[..i]
    {
      if Figures(stored.statistics)[i] != Figures(statistics)[i] {
        mismatches := mismatches + [FigureDiffers(i)];
      }
    }
    assert Figures(stored.statistics) == Figures(statistics) <==> stored.statistics == statistics;
    return Ok(Verification(|mismatches| == 0, mismatches));
  }
}
