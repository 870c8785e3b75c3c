/** Published results in every reachable state: what they say, and that they stay said. */
module Verdicts {
  import opened Common
  import opened Auctions
  import opened Lub
  import opened Platform
  import opened Closing
  import opened Invariants
  import opened ClosingKeeps
  import opened Runs
  import opened Records
  import opened Settlement

  /**
   * A result that is not a cancellation exists exactly when the auction is
   * completed, and a cancellation's only on a cancelled auction.
   */
  lemma DecidedExactlyWhenCompleted(s: State, a: AuctionId)
    requires Reachable(s) && a in s.auctions
    ensures a in s.results && s.results[a].outcome != WasCancelled <==> s.auctions[a].status == Completed
    ensures a in s.results && s.results[a].outcome == WasCancelled ==> s.auctions[a].status == Cancelled
  {
    hide Reachable, Inv, ComputedResult;
    ReachableIsSound(s);
    if s.auctions[a].status == Completed {
      CompletedHasResult(s, a);
    }
    if a in s.results {
      ResultFacts(s, a);
      OutcomeIsWinner(s.bids, a, s.auctions[a].status == Cancelled);
    }
  }

  /** The stored winner is the one bid the published rule picks, and nobody when it picks none. */
  lemma WinnerIsTheRule(s: State, a: AuctionId, l: Line)
    requires Reachable(s) && a in s.results && s.results[a].outcome != WasCancelled
    ensures var r := s.results[a];
      && (Wins(FrozenLines(s.bids, a), l) <==>
            r.winningBid == Some(l.id) && r.winner == Some(l.user) && r.winningAmount == Some(l.amountMinor))
      && (r.outcome == HasWinner <==> exists w :: Wins(FrozenLines(s.bids, a), w))
  {
    hide Reachable, Inv, FrozenLines, CountFrozenBids, Winner, Wins;
    ReachableIsSound(s);
    ResultFacts(s, a);
    var lines := FrozenLines(s.bids, a);
    OutcomeIsWinner(s.bids, a, s.auctions[a].status == Cancelled);
    WinnerIsLowestUnique(lines, l);
    if Winner(lines).Some? {
      WinnerIsLowestUnique(lines, Winner(lines).value);
    }
    forall w ensures Wins(lines, w) <==> Winner(lines) == Some(w) {
      WinnerIsLowestUnique(lines, w);
    }
  }

  /** An order exists exactly when there is a winner, for that winner, that amount and that product. */
  lemma OrderExactlyForTheWinner(s: State, a: AuctionId)
    requires Reachable(s)
    ensures a in s.orders <==> a in s.results && s.results[a].outcome == HasWinner
    ensures a in s.orders ==>
      && a in s.auctions
      && s.results[a].winner == Some(s.orders[a].user)
      && s.results[a].winningAmount == Some(s.orders[a].total)
      && s.orders[a].product == s.auctions[a].product && s.orders[a].currency == s.auctions[a].currency
  {
    hide Reachable, Inv;
    ReachableIsSound(s);
    OrdersOf(s);
  }

  /** The figures stored with a result are the live counters, and they imply the outcome. */
  lemma StatisticsMatchCounters(s: State, a: AuctionId)
    requires Reachable(s) && a in s.results
    ensures a in s.auctions
    ensures var r := s.results[a];
      && r.statistics.totalBids == r.statistics.totalValidBids == s.auctions[a].totalBids
      && r.statistics.participantCount == s.auctions[a].totalParticipants
      && (r.outcome != WasCancelled ==>
            && (r.outcome == HasWinner <==> r.statistics.uniqueAmountCount > 0)
            && (r.outcome == NoBids <==> s.auctions[a].totalBids == 0))
  {
    hide Reachable, Inv, FrozenLines, Bidders, UniqueAmounts, Winner;
    ReachableIsSound(s);
    ResultFacts(s, a);
    CountersMatchRecount(s, a);
    OutcomeMatchesStatistics(FrozenLines(s.bids, a));
  }

  lemma VerdictHolds(s: State, a: AuctionId)
    requires Inv(s) && a in s.results
    ensures ResultHolds(s, a)
  {
    hide Inv, FrozenLines, CountFrozenBids, Winner;
    ResultFacts(s, a);
  }

  /** However the run continues, the result and its order never change and the verification still succeeds. */
  lemma VerdictIsPermanent(s: State, steps: seq<Step>, a: AuctionId)
    requires Reachable(s) && a in s.results
    ensures var later := Exec(s, steps);
      && a in later.results && later.results[a] == s.results[a]
      && (a in later.orders <==> a in s.orders)
      && (a in s.orders ==> later.orders[a] == s.orders[a])
      && ResultHolds(later, a)
  {
    hide Inv, Exec, Reachable, Next, FrozenFrom, ResultHolds;
    ReachableIsSound(s);
    ReachableOn(s, steps);
    RunIsPermanent(s, steps);
    RunsAreSound(s, steps);
    VerdictHolds(Exec(s, steps), a);
    OrderExactlyForTheWinner(s, a);
    OrderExactlyForTheWinner(Exec(s, steps), a);
  }

  /**
   * A verification is evidence: over any bid table at all, it succeeds exactly
   * when the auction's lines are the ones it was decided on.
   */
  lemma VerificationDetectsAnyChange(s: State, a: AuctionId, bids: seq<Bid>)
    requires Reachable(s) && a in s.results
    ensures ResultHolds(s.(bids := bids), a) <==> FrozenLines(bids, a) == FrozenLines(s.bids, a)
  {
    hide Inv, Reachable, FrozenLines, CountFrozenBids, Winner;
    ReachableIsSound(s);
    ResultFacts(s, a);
  }

  /**
   * From the moment bidding stops the verdict is settled: whatever else runs, any
   * result the auction ever publishes is the one its bids already determine,
   * unless it is cancelled first.
   */
  lemma VerdictIsFixedWhenBiddingStops(s: State, steps: seq<Step>, a: AuctionId)
    requires Reachable(s) && PastBidding(s, a) && a in Exec(s, steps).results
    ensures var later := Exec(s, steps);
      && a in later.auctions
      && later.results[a] == ComputedResult(s.bids, a, later.auctions[a].status == Cancelled)
      && (later.auctions[a].status == Cancelled <==> later.results[a].outcome == WasCancelled)
  {
    hide Inv, Exec, Reachable, Next, FrozenLines, CountFrozenBids, Winner;
    ReachableOn(s, steps);
    var later := Exec(s, steps);
    ReachableIsSound(later);
    ResultFacts(later, a);
    BidSetIsFinal(s, steps, a);
    OutcomeIsWinner(later.bids, a, later.auctions[a].status == Cancelled);
  }
}
