/**
 * What one sweep leaves behind, auction by auction, in the columns of the
 * tables alone.
 */
module Recovery {
  import opened Common
  import opened Ledger
  import opened Auctions
  import opened Lub
  import opened Platform
  import opened Lifecycle
  import opened Closing
  import opened Invariants
  import opened LifecycleKeeps
  import opened ClosingKeeps
  import opened Runs
  import opened Conservation
  import opened Settlement
  import opened Sweep

  // -------------------------------------------------------------------------
  // The four queries, column by column
  // -------------------------------------------------------------------------

  /** The two due lists are exactly the scheduled and the live auctions whose instant has come. */
  lemma DueInColumns(s: State)
    ensures OpenSet(s)
      == set a | a in s.auctions && s.auctions[a].status == Scheduled && s.auctions[a].terms.startsAt <= s.now
    ensures CloseSet(s)
      == set a | a in s.auctions && s.auctions[a].status == Live && s.auctions[a].terms.endsAt <= s.now
  {
  }

  /** No result yet, and closing, calculating, or cancelled after somebody bid. */
  predicate PastBiddingUndecided(s: State, a: AuctionId) {
    && a in s.auctions && a !in s.results
    && (|| s.auctions[a].status == Closing
        || s.auctions[a].status == Calculating
        || (s.auctions[a].status == Cancelled && exists seat :: seat in s.participants && seat.auction == a))
  }

  lemma AwaitingInColumns(s: State)
    ensures forall a :: a in AwaitingSet(s) <==> PastBiddingUndecided(s, a)
  {
  }

  /** A fee-returning outcome, and somebody who paid and whose ledgers show no return of it. */
  predicate OwesRefund(s: State, a: AuctionId) {
    && a in s.results && (s.results[a].outcome == NoUniqueBid || s.results[a].outcome == WasCancelled)
    && exists seat ::
         && seat in s.participants && seat.auction == a && s.participants[seat].totalFees > 0
         && forall w, i | w in s.accounts && w.user == seat.user && 0 <= i < |s.accounts[w].entries| ::
              !(s.accounts[w].entries[i].kind == BidFeeRefund && s.accounts[w].entries[i].reference == Some(a))
  }

  lemma UnpaidInColumns(s: State)
    ensures forall a :: a in UnpaidSet(s) <==> OwesRefund(s, a)
  {
  }

  // -------------------------------------------------------------------------
  // What a settled auction's ledger shows
  // -------------------------------------------------------------------------

  /** The user's birr ledger holds an entry returning exactly this fee of this auction. */
  predicate ReturnedInBirr(s: State, a: AuctionId, u: UserId, fees: int) {
    var w := WalletId(u, ETB);
    && w in s.accounts
    && exists i ::
         && 0 <= i < |s.accounts[w].entries|
         && s.accounts[w].entries[i].kind == BidFeeRefund && s.accounts[w].entries[i].reference == Some(a)
         && s.accounts[w].entries[i].amountMinor == fees
  }

  /** No ledger holds an entry returning a fee of this auction. */
  predicate NoFeeReturned(s: State, a: AuctionId) {
    forall w, i | w in s.accounts && 0 <= i < |s.accounts[w].entries| ::
      !(s.accounts[w].entries[i].kind == BidFeeRefund && s.accounts[w].entries[i].reference == Some(a))
  }

  /**
   * The auction has its result; with no unique bid or cancelled, every fee paid
   * is back in its payer's ledger, and otherwise nothing was given back.
   */
  ghost predicate NobodyOwed(s: State, a: AuctionId) {
    && a in s.results
    && (s.results[a].outcome == NoUniqueBid || s.results[a].outcome == WasCancelled ==>
          forall u :: Seat(a, u) in s.participants && s.participants[Seat(a, u)].totalFees > 0 ==>
            ReturnedInBirr(s, a, u, s.participants[Seat(a, u)].totalFees))
    && (s.results[a].outcome == HasWinner || s.results[a].outcome == NoBids ==> NoFeeReturned(s, a))
  }

  lemma RefundInColumns(s: State, a: AuctionId, u: UserId)
    requires Inv(s) && Refunded(s, a, u)
    ensures Seat(a, u) in s.participants && ReturnedInBirr(s, a, u, s.participants[Seat(a, u)].totalFees)
  {
    hide Inv;
    var w := RefundWallet(u);
    WalletFacts(s, w);
    var entries := Get(s.accounts, w).entries;
    var at := FindKey(entries, RefundKey(a, u)).value;
    assert EntrySound(s, w, entries[at]);
  }

  lemma NoRefundInColumns(s: State, a: AuctionId)
    requires Inv(s) && a in s.results && (s.results[a].outcome == HasWinner || s.results[a].outcome == NoBids)
    ensures NoFeeReturned(s, a)
  {
    hide Inv;
    forall w, i | w in s.accounts && 0 <= i < |s.accounts[w].entries| && s.accounts[w].entries[i].kind == BidFeeRefund
      ensures s.accounts[w].entries[i].reference != Some(a)
    {
      WalletFacts(s, w);
      assert EntrySound(s, w, Get(s.accounts, w).entries[i]);
    }
  }

  lemma SettledOwesNobody(s: State, a: AuctionId)
    requires Inv(s) && Settled(s, a)
    ensures a in s.results && NobodyOwed(s, a)
  {
    hide Inv, Refunded, ReturnedInBirr;
    if s.results[a].outcome == HasWinner || s.results[a].outcome == NoBids {
      NoRefundInColumns(s, a);
    }
    if s.results[a].outcome == NoUniqueBid || s.results[a].outcome == WasCancelled {
      assert Refundable(s, a);
      forall u | Seat(a, u) in s.participants && s.participants[Seat(a, u)].totalFees > 0
        ensures ReturnedInBirr(s, a, u, s.participants[Seat(a, u)].totalFees)
      {
        assert IsPayer(s, a, u);
        RefundInColumns(s, a, u);
      }
    }
  }

  // -------------------------------------------------------------------------
  // What a refund pass moves
  // -------------------------------------------------------------------------

  function Balance(s: State, w: WalletId): int {
    Get(s.accounts, w).available
  }

  /** What the pass owes the wallet's user, if this is the wallet it pays into. */
  function Due(s: State, a: AuctionId, payers: seq<UserId>, w: WalletId): int {
    if w.currency == ETB && w.user in payers && !Refunded(s, a, w.user)
    then SeatOf(s.participants, Seat(a, w.user)).totalFees else 0
  }

  lemma RefundOneMoves(s: State, a: AuctionId, u: UserId, w: WalletId)
    requires Inv(s) && Refundable(s, a) && IsPayer(s, a, u)
    ensures Balance(RefundOne(s, a, u).0, w) == Balance(s, w) + Due(s, a, [u], w)
  {
    hide Inv, Refunded, Refundable, RefundOne, LedgersSound, EntriesSound;
    MoneySound(s);
    RefundSucceeds(s, a, u);
    assert w.user in [u] <==> w.user == u;
    assert w.currency == ETB && w.user == u <==> w == RefundWallet(u);
  }

  /**
   * A pass raises each payer's birr balance by exactly the fee still owed to
   * them, and no other balance at all.
   */
  lemma {:induction false} RefundsReachTheWallets(s: State, a: AuctionId, payers: seq<UserId>, w: WalletId)
    requires Inv(s) && Refundable(s, a) && AllPayers(s, a, payers)
    requires forall i, j :: 0 <= i < j < |payers| ==> payers[i] != payers[j]
    ensures Balance(RefundAll(s, a, payers).0, w) == Balance(s, w) + Due(s, a, payers, w)
    decreases |payers|
  {
    hide Inv, RefundOne, Refunded, Refundable, Balance, SeatOf;
    if payers != [] {
      var u, rest := payers[0], payers[1..];
      assert payers == [u] + rest;
      assert IsPayer(s, a, u);
      RefundStep(s, a, u);
      RefundOneMoves(s, a, u, w);
      var s1 := RefundOne(s, a, u).0;
      forall i | 0 <= i < |rest| ensures IsPayer(s1, a, rest[i]) {
        assert rest[i] == payers[i + 1] && IsPayer(s, a, payers[i + 1]);
      }
      RefundableStays(s, s1, a);
      RefundsReachTheWallets(s1, a, rest, w);
      if w.user != u {
        RefundOnlyThis(s, a, u, a, w.user);
      }
    }
  }

  lemma RefundableStays(s: State, s1: State, a: AuctionId)
    requires s1.results == s.results
    ensures Refundable(s1, a) <==> Refundable(s, a)
  {
  }

  function TotalBalance(s: State, users: seq<UserId>): int {
    if users == [] then 0
    else TotalBalance(s, users[..|users| - 1]) + Balance(s, WalletId(users[|users| - 1], ETB))
  }

  lemma {:induction false} RisesAddUp(s: State, s': State, a: AuctionId, users: seq<UserId>)
    requires forall i :: 0 <= i < |users| ==>
      Balance(s', WalletId(users[i], ETB))
      == Balance(s, WalletId(users[i], ETB))
         + if Refunded(s, a, users[i]) then 0 else SeatOf(s.participants, Seat(a, users[i])).totalFees
    ensures TotalBalance(s', users) == TotalBalance(s, users) + SumOwed(s, a, Owing(s, a, users))
    decreases |users|
  {
    hide Balance, Refunded, SeatOf;
    if users != [] {
      var front, last := users[..|users| - 1], users[|users| - 1];
      RisesAddUp(s, s', a, front);
      var owing := Owing(s, a, front);
      assert (owing + [last])[..|owing|] == owing;
      assert owing + [] == owing;
    }
  }

  /** The sum a pass reports is what its payers' balances rose by, all together. */
  lemma ReportedIsWhatMoved(s: State, a: AuctionId, payers: seq<UserId>)
    requires Inv(s) && Refundable(s, a) && ListsPayers(payers, s, a)
    ensures var s' := RefundAll(s, a, payers).0;
      SumOwed(s, a, Owing(s, a, payers)) == TotalBalance(s', payers) - TotalBalance(s, payers)
  {
    hide Inv, RefundAll, Refunded, Refundable, Balance, TotalBalance, SumOwed, Owing;
    PayersCarry(s, s, a, payers);
    var s' := RefundAll(s, a, payers).0;
    forall i | 0 <= i < |payers|
      ensures Balance(s', WalletId(payers[i], ETB))
           == Balance(s, WalletId(payers[i], ETB))
              + if Refunded(s, a, payers[i]) then 0 else SeatOf(s.participants, Seat(a, payers[i])).totalFees
    {
      RefundsReachTheWallets(s, a, payers, WalletId(payers[i], ETB));
    }
    RisesAddUp(s, s', a, payers);
  }

  // -------------------------------------------------------------------------
  // The status each pass leaves
  // -------------------------------------------------------------------------

  /** The status a job leaves its auction in. */
  ghost predicate EndsAs(s: State, s': State, job: Job, a: AuctionId) {
    && a in s.auctions && a in s'.auctions
    && match job
       case OpenJob => s'.auctions[a].status == Live || s'.auctions[a].status == Cancelled
       case CloseJob => s'.auctions[a].status == Completed
       case DecideJob =>
         s'.auctions[a].status == if s.auctions[a].status == Cancelled then Cancelled else Completed
       case PayJob => s'.auctions[a] == s.auctions[a]
  }

  lemma MoneyLeavesStatuses(s: State, a: AuctionId, payers: seq<UserId>)
    ensures RefundAll(s, a, payers).0.auctions == s.auctions
    decreases |payers|
  {
    hide Posted;
    if payers != [] && RefundOne(s, a, payers[0]).1.Ok? {
      MoneyLeavesStatuses(RefundOne(s, a, payers[0]).0, a, payers[1..]);
    }
  }

  /** Closing completes an auction, unless it was cancelled. */
  lemma ClosingCompletes(s: State, a: AuctionId, payers: seq<UserId>)
    requires Inv(s) && a in s.auctions && s.auctions[a].status in CLOSABLE
    ensures a in Closed(s, a, payers).auctions
    ensures Closed(s, a, payers).auctions[a].status
         == if s.auctions[a].status == Cancelled then Cancelled else Completed
  {
    hide Inv, Decide, RefundAll, ComputedResult, Released, OrderOf;
    DecidesFromAnywhere(s, a);
    BeginResultKeeps(s, a);
    var s1 := BeginResult(s, a).value;
    var s2 := Decide(s1, a).value;
    if a in s1.results {
      ResultFacts(s1, a);
      DecideAgain(s1, a);
    } else if s1.auctions[a].status != Completed {
      DecideFirst(s1, a);
    }
    MoneyLeavesStatuses(s2, a, payers);
    MoneyLeavesStatuses(s1, a, payers);
  }

  lemma OpeningEnds(s: State, a: AuctionId)
    requires Inv(s) && DueToOpen(s, a)
    ensures EndsAs(s, Do(s, OpenJob, a), OpenJob, a)
  {
    hide Inv, OpenAuction, HasParticipants, Refunded;
    OpenOne(s, a);
    assert Do(s, OpenJob, a).auctions.Keys == s.auctions.Keys;
  }

  /**
   * Closing is refused exactly for an auction still before the end of bidding;
   * otherwise it leaves the auction decided, with nobody owed.
   */
  lemma ClosesForGood(s: State, a: AuctionId)
    requires Reachable(s)
    ensures var r := CloseAuction(s, a, PayersOf(s, a));
      if a !in s.auctions then r == Err(ResultNotFound)
      else if s.auctions[a].status in {Draft, PendingApproval, Scheduled, Live, Suspended} then r == Err(AuctionNotClosed)
      else
        && r.Ok? && a in r.value.auctions && NobodyOwed(r.value, a)
        && r.value.auctions[a].status == (if s.auctions[a].status == Cancelled then Cancelled else Completed)
        && (r.value.results[a].outcome == WasCancelled <==> s.auctions[a].status == Cancelled)
  {
    hide Inv, Reachable, Decide, SettleMoney, NobodyOwed, PayersOf, Settled, SameElsewhere;
    ReachableIsSound(s);
    if a in s.auctions {
      ClosableOrNot(s.auctions[a].status);
      if s.auctions[a].status in CLOSABLE {
        var payers := PayersOf(s, a);
        CloseAuctionSettles(s, a, payers);
        ClosingCompletes(s, a, payers);
        SettledOwesNobody(Closed(s, a, payers), a);
        OutcomeFollowsStatus(Closed(s, a, payers), a);
      }
    }
  }

  lemma ClosableOrNot(status: Status)
    ensures status in CLOSABLE <==> status !in {Draft, PendingApproval, Scheduled, Live, Suspended}
  {
  }

  lemma OutcomeFollowsStatus(s: State, a: AuctionId)
    requires Inv(s) && a in s.results
    ensures a in s.auctions && (s.results[a].outcome == WasCancelled <==> s.auctions[a].status == Cancelled)
  {
    hide Inv, Winner, CountFrozenBids, FrozenLines;
    ResultFacts(s, a);
  }

  lemma JobEnds(s: State, job: Job, a: AuctionId)
    requires Inv(s) && Ready(s, job, a) && a in s.auctions
    ensures EndsAs(s, Do(s, job, a), job, a)
  {
    hide Inv, OpenAuction, CloseBidding, Closed, RefundAll, Around, PayersOf, HasParticipants, Refundable;
    match job
    case OpenJob => OpeningEnds(s, a);
    case CloseJob =>
      CloseOneBidding(s, a);
      var s1 := CloseBidding(s, a).value;
      ClosingCompletes(s1, a, PayersOf(s1, a));
    case DecideJob => ClosingCompletes(s, a, PayersOf(s, a));
    case PayJob => MoneyLeavesStatuses(s, a, PayersOf(s, a));
  }

  lemma EndsChain(s: State, s1: State, s2: State, job: Job, a: AuctionId)
    requires (EndsAs(s, s1, job, a) && SameElsewhere(s1, s2, a)) || (SameElsewhere(s, s1, a) && EndsAs(s1, s2, job, a))
    ensures EndsAs(s, s2, job, a)
  {
  }

  lemma ReadyIsKnown(s: State, job: Job, a: AuctionId)
    requires Inv(s) && Ready(s, job, a)
    ensures a in s.auctions
  {
    hide Inv;
    if job == PayJob {
      ResultFacts(s, a);
    }
  }

  lemma {:induction false} PassEnds(s: State, job: Job, ids: seq<AuctionId>)
    requires Inv(s) && AllReady(s, job, ids)
    ensures forall a :: a in ids ==> EndsAs(s, DoEach(s, job, ids), job, a)
    decreases |ids|
  {
    hide Inv, Do, Ready, Settled, Work, AwaitingResult, UnpaidRefunds, EndsAs, SameElsewhere;
    if ids != [] {
      var a, rest := ids[0], ids[1..];
      var s1, s' := Do(s, job, a), DoEach(s, job, ids);
      ReadyIsKnown(s, job, a);
      JobEnds(s, job, a);
      JobDone(s, job, a);
      forall i | 0 <= i < |rest| ensures Ready(s1, job, rest[i]) {
        assert rest[i] == ids[i + 1];
        ReadyCarries(s, s1, job, a, rest[i]);
      }
      PassDone(s1, job, rest);
      PassEnds(s1, job, rest);
      assert a !in Members(rest);
      EndsChain(s, s1, s', job, a);
      forall b | b in ids && b != a ensures EndsAs(s, s', job, b) {
        assert ids == [a] + rest;
        assert b !in {a} && b in rest;
        EndsChain(s, s1, s', job, b);
      }
    }
  }

  // -------------------------------------------------------------------------
  // Listings and their passes
  // -------------------------------------------------------------------------

  lemma ListedReady(s: State, ids: seq<AuctionId>, limit: nat)
    ensures Listed(ids, OpenSet(s), limit) ==> AllReady(s, OpenJob, ids)
    ensures Listed(ids, CloseSet(s), limit) ==> AllReady(s, CloseJob, ids)
    ensures Listed(ids, AwaitingSet(s), limit) ==> AllReady(s, DecideJob, ids)
  {
    hide AwaitingResult, DueToOpen, DueToClose;
    if Listed(ids, OpenSet(s), limit) {
      assert forall i :: 0 <= i < |ids| ==> ids[i] in OpenSet(s);
    }
    if Listed(ids, CloseSet(s), limit) {
      assert forall i :: 0 <= i < |ids| ==> ids[i] in CloseSet(s);
    }
    if Listed(ids, AwaitingSet(s), limit) {
      assert forall i :: 0 <= i < |ids| ==> ids[i] in AwaitingSet(s);
    }
  }

  /** The auctions to close are untouched by the openings before them. */
  lemma ClosesStayReady(s: State, f: Findings, limit: nat)
    requires Inv(s) && Listed(f.opens, OpenSet(s), limit) && Listed(f.closes, CloseSet(s), limit)
    ensures Inv(AfterOpens(s, f)) && AllReady(AfterOpens(s, f), CloseJob, f.closes)
    ensures Inv(AfterCloses(s, f))
  {
    hide Inv, Around, Work, Settled, AwaitingResult, UnpaidRefunds, DoEach;
    BiddingPasses(s, f, limit);
    var s1 := AfterOpens(s, f);
    forall i | 0 <= i < |f.closes| ensures Ready(s1, CloseJob, f.closes[i]) {
      assert f.closes[i] in CloseSet(s);
      assert f.closes[i] in f.closes;
      UntouchedWork(s, s1, Members(f.opens), f.closes[i]);
    }
  }

  lemma PaysAreReady(s: State, ids: seq<AuctionId>, limit: nat)
    requires Listed(ids, UnpaidSet(s), limit)
    ensures AllReady(s, PayJob, ids)
  {
    hide HasRefundEntry, Refundable;
    forall i | 0 <= i < |ids| ensures Ready(s, PayJob, ids[i]) {
      assert ids[i] in UnpaidSet(s);
    }
  }

  /** The row of an auction a pass did not list, and the status of one it did. */
  ghost predicate PassLeaves(s: State, s': State, job: Job, ids: seq<AuctionId>, a: AuctionId) {
    && (a in ids ==> EndsAs(s, s', job, a))
    && (a !in ids ==> SameElsewhere(s, s', a))
  }

  lemma FourPasses(s: State, f: Findings, limit: nat, a: AuctionId)
    requires Inv(s) && Found(s, f, limit)
    ensures PassLeaves(s, AfterOpens(s, f), OpenJob, f.opens, a)
    ensures PassLeaves(AfterOpens(s, f), AfterCloses(s, f), CloseJob, f.closes, a)
    ensures PassLeaves(AfterCloses(s, f), AfterDecides(s, f), DecideJob, f.awaiting, a)
    ensures PassLeaves(AfterDecides(s, f), Swept(s, f), PayJob, f.unpaid, a)
  {
    hide Inv, DoEach, Listed, OpenSet, CloseSet, AwaitingSet, UnpaidSet, Work, Settled, AwaitingResult, UnpaidRefunds,
         EndsAs, SameElsewhere, AllReady;
    BiddingPasses(s, f, limit);
    DecidesAndPays(s, f, limit);
    ListedReady(s, f.opens, limit);
    ClosesStayReady(s, f, limit);
    ListedReady(AfterCloses(s, f), f.awaiting, limit);
    PaysAreReady(AfterDecides(s, f), f.unpaid, limit);
    PassEnds(s, OpenJob, f.opens);
    PassEnds(AfterOpens(s, f), CloseJob, f.closes);
    PassEnds(AfterCloses(s, f), DecideJob, f.awaiting);
    PassEnds(AfterDecides(s, f), PayJob, f.unpaid);
    assert a in Members(f.opens) <==> a in f.opens;
    assert a in Members(f.closes) <==> a in f.closes;
    assert a in Members(f.awaiting) <==> a in f.awaiting;
    assert a in Members(f.unpaid) <==> a in f.unpaid;
  }

  /** Listed in the first two passes only while scheduled or live, in the third only while undecided. */
  lemma ListedWhere(s: State, f: Findings, limit: nat, a: AuctionId)
    requires Inv(s) && Found(s, f, limit)
    ensures a in f.opens ==> a in s.auctions && s.auctions[a].status == Scheduled
    ensures a in f.closes ==> a in s.auctions && s.auctions[a].status == Live
    ensures a in f.awaiting ==> AwaitingResult(AfterCloses(s, f), a)
  {
    hide Inv, AfterCloses, AwaitingResult;
    if a in f.opens { ListedIn(f.opens, OpenSet(s), limit, a); }
    if a in f.closes { ListedIn(f.closes, CloseSet(s), limit, a); }
    if a in f.awaiting { ListedIn(f.awaiting, AwaitingSet(AfterCloses(s, f)), limit, a); }
  }

  /** From the settled state after the closes, an auction keeps its row to the end. */
  lemma SettledKeepsItsRow(s: State, f: Findings, limit: nat, a: AuctionId)
    requires Inv(s) && Found(s, f, limit) && !AwaitingResult(AfterCloses(s, f), a) && a in AfterCloses(s, f).auctions
    ensures a in Swept(s, f).auctions && Swept(s, f).auctions[a] == AfterCloses(s, f).auctions[a]
  {
    hide Inv, AwaitingResult, AfterOpens, AfterCloses, AfterDecides, Swept, Found;
    FourPasses(s, f, limit, a);
    ListedWhere(s, f, limit, a);
  }

  lemma OverdueIsCompleted(s: State, f: Findings, limit: nat, a: AuctionId)
    requires Inv(s) && Found(s, f, limit) && a in f.closes
    ensures var end := Swept(s, f);
      a in end.auctions && end.auctions[a].status == Completed && NobodyOwed(end, a)
  {
    hide Inv, AwaitingResult, AfterOpens, AfterCloses, AfterDecides, Swept, Found, NobodyOwed, Settled, Work, Around,
         UnpaidRefunds, Listed;
    FoundParts(s, f, limit);
    BiddingPasses(s, f, limit);
    DecidesAndPays(s, f, limit);
    FourPasses(s, f, limit, a);
    StaysSettled(s, f, limit, a);
    NotAwaiting(AfterCloses(s, f), a);
    SettledKeepsItsRow(s, f, limit, a);
    SettledOwesNobody(Swept(s, f), a);
  }

  lemma DueIsOpenedOrCancelled(s: State, f: Findings, limit: nat, a: AuctionId)
    requires Inv(s) && Found(s, f, limit) && a in f.opens
    ensures var end := Swept(s, f);
      a in end.auctions && (end.auctions[a].status == Live || end.auctions[a].status == Cancelled)
  {
    hide Inv, AwaitingResult, AfterOpens, AfterCloses, AfterDecides, Swept, Found, Settled, Work, Around, UnpaidRefunds,
         Listed;
    FoundParts(s, f, limit);
    BiddingPasses(s, f, limit);
    FourPasses(s, f, limit, a);
    assert a !in Members(f.closes);
    UntouchedWork(AfterOpens(s, f), AfterCloses(s, f), Members(f.closes), a);
    SettledKeepsItsRow(s, f, limit, a);
  }

  /** A closing, calculating or cancelled auction is in neither of the first two lists and keeps its row through them. */
  lemma KeptThroughBidding(s: State, f: Findings, limit: nat, a: AuctionId)
    requires Inv(s) && Found(s, f, limit) && a in s.auctions
    requires s.auctions[a].status != Scheduled && s.auctions[a].status != Live
    ensures SameElsewhere(s, AfterCloses(s, f), a)
  {
    hide Inv, AwaitingResult, AfterOpens, AfterCloses, AfterDecides, Swept, Found;
    FourPasses(s, f, limit, a);
    ListedWhere(s, f, limit, a);
  }

  lemma UndecidedIsDecided(s: State, f: Findings, limit: nat, a: AuctionId)
    requires Inv(s) && Found(s, f, limit) && a in s.auctions
    requires s.auctions[a].status == Closing || s.auctions[a].status == Calculating || s.auctions[a].status == Cancelled
    requires a in f.awaiting || (s.auctions[a].status == Cancelled && !AwaitingResult(AfterCloses(s, f), a))
    ensures var end := Swept(s, f);
      a in end.auctions && end.auctions[a].status == if s.auctions[a].status == Cancelled then Cancelled else Completed
  {
    hide Inv, AwaitingResult, AfterOpens, AfterCloses, AfterDecides, Swept, Found;
    FourPasses(s, f, limit, a);
    KeptThroughBidding(s, f, limit, a);
    if a !in f.awaiting {
      SettledKeepsItsRow(s, f, limit, a);
    }
  }

  // -------------------------------------------------------------------------
  // One sweep, in columns
  // -------------------------------------------------------------------------

  /** Whatever else is outstanding, a due list that fits the batch is worked off whole. */
  lemma OpenedWhenListed(s: State, f: Findings, limit: nat, a: AuctionId)
    requires Inv(s) && Found(s, f, limit) && a in s.auctions
    requires |set b | b in s.auctions && s.auctions[b].status == Scheduled && s.auctions[b].terms.startsAt <= s.now| <= limit
    requires s.auctions[a].status == Scheduled && s.auctions[a].terms.startsAt <= s.now
    ensures a in Swept(s, f).auctions
    ensures Swept(s, f).auctions[a].status == Live || Swept(s, f).auctions[a].status == Cancelled
  {
    hide Inv, Swept, Listed, OpenSet, CloseSet, AwaitingSet, UnpaidSet, Found;
    DueInColumns(s);
    FoundParts(s, f, limit);
    assert a in OpenSet(s);
    SmallBacklogIsListed(f.opens, OpenSet(s), OpenSet(s), limit, a);
    DueIsOpenedOrCancelled(s, f, limit, a);
  }

  lemma CompletedWhenListed(s: State, f: Findings, limit: nat, a: AuctionId)
    requires Inv(s) && Found(s, f, limit) && a in s.auctions
    requires |set b | b in s.auctions && s.auctions[b].status == Live && s.auctions[b].terms.endsAt <= s.now| <= limit
    requires s.auctions[a].status == Live && s.auctions[a].terms.endsAt <= s.now
    ensures a in Swept(s, f).auctions && Swept(s, f).auctions[a].status == Completed && NobodyOwed(Swept(s, f), a)
  {
    hide Inv, Swept, Listed, OpenSet, CloseSet, AwaitingSet, UnpaidSet, Found, NobodyOwed;
    DueInColumns(s);
    FoundParts(s, f, limit);
    assert a in CloseSet(s);
    SmallBacklogIsListed(f.closes, CloseSet(s), CloseSet(s), limit, a);
    OverdueIsCompleted(s, f, limit, a);
  }

  lemma DecidedWhenListed(s: State, f: Findings, limit: nat, a: AuctionId)
    requires Inv(s) && Found(s, f, limit) && a in s.auctions && |AwaitingSet(s)| <= limit
    requires s.auctions[a].status == Closing || s.auctions[a].status == Calculating || s.auctions[a].status == Cancelled
    ensures a in Swept(s, f).auctions
    ensures Swept(s, f).auctions[a].status == if s.auctions[a].status == Cancelled then Cancelled else Completed
  {
    hide Inv, Around, Work, Settled, AwaitingResult, UnpaidRefunds, AfterOpens, AfterCloses, AfterDecides, Swept,
         Listed, OpenSet, CloseSet, AwaitingSet, UnpaidSet, Found;
    FoundParts(s, f, limit);
    AwaitingShrinks(s, f, limit);
    KeptThroughBidding(s, f, limit, a);
    if AwaitingResult(AfterCloses(s, f), a) {
      AwaitingListed(AfterCloses(s, f), a);
      SmallBacklogIsListed(f.awaiting, AwaitingSet(AfterCloses(s, f)), AwaitingSet(s), limit, a);
    } else {
      UndecidedAwaits(s, f, limit, a);
    }
    UndecidedIsDecided(s, f, limit, a);
  }

  lemma AwaitingListed(s: State, a: AuctionId)
    ensures AwaitingResult(s, a) <==> a in AwaitingSet(s)
  {
    hide HasParticipants;
  }

  lemma UndecidedAwaits(s: State, f: Findings, limit: nat, a: AuctionId)
    requires Inv(s) && Found(s, f, limit) && a in s.auctions && !AwaitingResult(AfterCloses(s, f), a)
    requires SameElsewhere(s, AfterCloses(s, f), a)
    ensures s.auctions[a].status != Closing && s.auctions[a].status != Calculating
  {
    hide Inv, AfterCloses, Found, HasParticipants;
    if s.auctions[a].status == Closing || s.auctions[a].status == Calculating {
      NoResultYet(s, a);
    }
  }

  /**
   * From any reachable state, with no more than a hundred auctions on each of
   * the four lists, one sweep: opens or cancels every scheduled auction whose
   * start has come; completes every live auction past its deadline and every one
   * found closing or calculating; gives every cancelled auction somebody bid in
   * its result; and leaves nobody in them owed a fee.
   */
  lemma EverythingDueIsDone(s: State, f: Findings, a: AuctionId)
    requires Reachable(s) && Found(s, f, 100) && a in s.auctions
    requires |set b | b in s.auctions && s.auctions[b].status == Scheduled && s.auctions[b].terms.startsAt <= s.now| <= 100
    requires |set b | b in s.auctions && s.auctions[b].status == Live && s.auctions[b].terms.endsAt <= s.now| <= 100
    requires |set b | b in s.auctions && PastBiddingUndecided(s, b)| <= 100
    requires |set b | b in s.results && OwesRefund(s, b)| <= 100
    ensures a in Swept(s, f).auctions
    ensures s.auctions[a].status == Scheduled && s.auctions[a].terms.startsAt <= s.now ==>
      Swept(s, f).auctions[a].status == Live || Swept(s, f).auctions[a].status == Cancelled
    ensures s.auctions[a].status == Live && s.auctions[a].terms.endsAt <= s.now ==>
      Swept(s, f).auctions[a].status == Completed && NobodyOwed(Swept(s, f), a)
    ensures s.auctions[a].status == Closing || s.auctions[a].status == Calculating ==>
      Swept(s, f).auctions[a].status == Completed && NobodyOwed(Swept(s, f), a)
    ensures s.auctions[a].status == Cancelled && (exists seat :: seat in s.participants && seat.auction == a) ==>
      Swept(s, f).auctions[a].status == Cancelled && NobodyOwed(Swept(s, f), a)
  {
    hide Inv, Reachable, Settled, Work, Around, UnpaidRefunds, AwaitingResult, AfterOpens, AfterCloses, AfterDecides,
         Swept, Listed, OpenSet, CloseSet, AwaitingSet, UnpaidSet, Found, NobodyOwed;
    ReachableIsSound(s);
    DueInColumns(s);
    AwaitingInColumns(s);
    UnpaidInColumns(s);
    assert AwaitingSet(s) == set b | b in s.auctions && PastBiddingUndecided(s, b);
    assert UnpaidSet(s) == set b | b in s.results && OwesRefund(s, b);
    SameAuctions(s, f, 100);
    if s.auctions[a].status == Scheduled && s.auctions[a].terms.startsAt <= s.now {
      OpenedWhenListed(s, f, 100, a);
    } else if s.auctions[a].status == Live && s.auctions[a].terms.endsAt <= s.now {
      CompletedWhenListed(s, f, 100, a);
    } else if s.auctions[a].status == Closing || s.auctions[a].status == Calculating
           || (s.auctions[a].status == Cancelled && exists seat :: seat in s.participants && seat.auction == a) {
      assert Concerned(s, a);
      SweepFinishesEverything(s, f, a);
      DecidesAndPays(s, f, 100);
      SettledOwesNobody(Swept(s, f), a);
      DecidedWhenListed(s, f, 100, a);
    }
  }
}
