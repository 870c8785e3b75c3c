/** One run, step by step, in which a refund leaves a dollar fee unpaid. */
module DollarRefund {
  import opened Common
  import opened Ledger
  import opened Auctions
  import opened Catalog
  import opened BidRules
  import opened Lub
  import opened Platform
  import opened Lifecycle
  import opened Bidding
  import opened Closing
  import opened Invariants
  import opened ClosingKeeps
  import opened Runs
  import opened Settlement
  import opened Conservation

  const TERMS := Terms(1, 1, 1, 1, 5, 1, 0, 10)
  const DOLLARS := WalletId(1, USD)
  const TOP_UP := Entry(1, Deposit, 5, 5, None, None)
  const FEE := Entry(2, BidFee, -5, 0, Some(0), Some(BidFeeKey("k")))
  const BID := Submission(1, true, 0, [1], "k")

  function Row(status: Status, count: int): Auction {
    Auction(0, USD, TERMS, status, None, None, None, count, count)
  }

  function Unit(held: bool): Stock {
    Stock(map[0 := Product(1, if held then 1 else 0)], [Reservation(0, 0, 1, held)])
  }

  const Drafted := Empty.(stock := Stock(map[0 := Product(1, 0)], []), auctions := map[0 := Row(Draft, 0)])
  const Opening := Empty.(stock := Unit(true), auctions := map[0 := Row(Live, 0)])
  const Funded := Opening.(accounts := map[DOLLARS := Account(5, 1, false, [TOP_UP])])
  const Answer := Snapshot(0, 1, 5, 1, 0, 0, 0, 1, 1)
  const Joined := Funded.(
    auctions := map[0 := Row(Live, 1)],
    bids := [Bid(0, 1, 1, 5, "k", Some(2))],
    participants := map[Seat(0, 1) := Participant(1, 5)],
    keys := map["k" := KeyRow(1, Request(0, 1, [1]), Some(Answer))],
    accounts := map[DOLLARS := Account(0, 2, false, [TOP_UP, FEE])])
  const Stopped := Joined.(auctions := map[0 := Row(Cancelled, 1)], stock := Unit(false))

  lemma Then(s: State, step: Step, s': State)
    requires Reachable(s) && Next(s, step) == s'
    ensures Reachable(s')
  {
    hide Next, Reachable;
    ReachableOn(s, [step]);
    assert Exec(s, [step]) == Exec(Next(s, step), []);
  }

  /** What each kind of step used here runs. */
  lemma StepEffects(s: State, a: AuctionId, p: ProductId, c: Currency, t: Terms, action: Action)
    ensures Next(s, Created(a, p, c, t)) == Committed(s, CreateAuction(s, a, p, c, t))
    ensures action in {Submit, Approve} ==> Next(s, Reviewed(a, action)) == Committed(s, PlainTransition(s, a, action))
    ensures Next(s, Opened(a)) == Committed(s, OpenAuction(s, a))
    ensures Next(s, Pulled(a)) == Committed(s, CancelAuction(s, a))
    ensures Next(s, ResultDecided(a)) == Committed(s, Decide(s, a))
  {
    hide CreateAuction, PlainTransition, OpenAuction, CancelAuction, Decide;
  }

  lemma MoneyStepEffects(s: State, w: WalletId, m: Movement, p: ProductId, units: nat)
    ensures Outside(m) ==> Next(s, Moved(w, m)) == s.(accounts := Posted(s.accounts, w, m).0)
    ensures Next(s, Stocked(p, units)) == WithStock(s, AddProduct(s.stock, p, units))
  {
    hide Posted, AddProduct;
  }

  const Shelved := Empty.(stock := Stock(map[0 := Product(1, 0)], []))

  lemma Stocking()
    ensures AddProduct(Empty.stock, 0, 1).Ok? && Empty.(stock := AddProduct(Empty.stock, 0, 1).value) == Shelved
  {
    var none: map<ProductId, Product> := map[];
    assert none[0 := Product(1, 0)] == map[0 := Product(1, 0)];
  }

  lemma CreatesDraft(s: State, a: AuctionId, p: ProductId, currency: Currency, terms: Terms)
    requires ValidConfig(terms) && a !in s.auctions && p in s.stock.products && Available(s.stock.products[p]) >= 1
    requires s.stock.products[p].stock >= 1 && CommittedAuctions(s.auctions, p) == {}
    ensures CreateAuction(s, a, p, currency, terms)
         == Ok(SetAuction(s, a, Auction(p, currency, terms, Draft, None, None, None, 0, 0)))
  {
    hide ValidConfig, CommittedAuctions;
  }

  lemma TermsAreValid()
    ensures ValidConfig(TERMS)
  {
  }

  lemma ShelfIsFree(s: State)
    requires s == Shelved
    ensures 0 in s.stock.products && s.stock.products[0] == Product(1, 0)
    ensures CommittedAuctions(s.auctions, 0) == {}
  {
  }

  lemma DraftedIs(s: State)
    requires s == Shelved
    ensures SetAuction(s, 0, Row(Draft, 0)) == Drafted
  {
    var none: map<AuctionId, Auction> := map[];
    assert none[0 := Row(Draft, 0)] == map[0 := Row(Draft, 0)];
  }

  lemma DraftCreated(s: State, terms: Terms)
    requires s == Shelved && terms == TERMS
    ensures CreateAuction(s, 0, 0, USD, terms) == Ok(SetAuction(s, 0, Row(Draft, 0)))
  {
    hide CreateAuction, CommittedAuctions, ValidConfig, SetAuction;
    TermsAreValid();
    ShelfIsFree(s);
    CreatesDraft(s, 0, 0, USD, terms);
  }

  lemma StartIsReachable()
    ensures Reachable(Empty)
  {
    hide Next;
    assert Empty == Exec(Empty, []);
  }

  lemma Drafting()
    ensures Reachable(Drafted)
  {
    hide Next, Reachable, CreateAuction, AddProduct, Exec;
    StartIsReachable();
    Stocking();
    DraftCreated(Shelved, TERMS);
    DraftedIs(Shelved);
    StepEffects(Shelved, 0, 0, USD, TERMS, Submit);
    MoneyStepEffects(Empty, DOLLARS, Movement(5, None, Deposit, None, None), 0, 1);
    Then(Empty, Stocked(0, 1), Shelved);
    Then(Shelved, Created(0, 0, USD, TERMS), Drafted);
  }

  lemma OpensWith(s: State, a: AuctionId, stock: Stock)
    requires a in s.auctions && s.auctions[a].status == Scheduled && s.auctions[a].terms.startsAt <= s.now
    requires Reserve(s.stock, s.auctions[a].product, a, 1) == Ok(stock)
    ensures OpenAuction(s, a) == Ok(SetAuction(s, a, s.auctions[a].(status := Live)).(stock := stock))
  {
    hide Reserve;
  }

  lemma FirstReservation(products: map<ProductId, Product>, p: ProductId, a: AuctionId)
    requires p in products && Available(products[p]) >= 1
    ensures Reserve(Stock(products, []), p, a, 1)
         == Ok(Stock(Adjusted(products, p, 1), [Reservation(p, a, 1, true)]))
  {
    var none: seq<Reservation> := [];
    assert none + [Reservation(p, a, 1, true)] == [Reservation(p, a, 1, true)];
  }

  lemma ReservesTheUnit()
    ensures Reserve(Stock(map[0 := Product(1, 0)], []), 0, 0, 1) == Ok(Unit(true))
  {
    hide Reserve;
    var products := map[0 := Product(1, 0)];
    FirstReservation(products, 0, 0);
    assert Adjusted(products, 0, 1) == map[0 := Product(1, 1)];
  }

  lemma OpensWithAUnit(scheduled: State)
    requires scheduled == Drafted.(auctions := map[0 := Row(Scheduled, 0)])
    ensures OpenAuction(scheduled, 0).Ok? && OpenAuction(scheduled, 0).value == Opening
  {
    hide Reserve, OpenAuction;
    ReservesTheUnit();
    OpensWith(scheduled, 0, Unit(true));
    assert scheduled.auctions[0].(status := Live) == Row(Live, 0);
    assert scheduled.auctions[0 := Row(Live, 0)] == Opening.auctions;
  }

  lemma GoingLive()
    ensures Reachable(Opening)
  {
    var pending := Drafted.(auctions := map[0 := Row(PendingApproval, 0)]);
    var scheduled := Drafted.(auctions := map[0 := Row(Scheduled, 0)]);
    assert Drafted.auctions[0 := Row(PendingApproval, 0)] == pending.auctions;
    assert pending.auctions[0 := Row(Scheduled, 0)] == scheduled.auctions;
    assert PlainTransition(Drafted, 0, Submit) == Ok(pending);
    assert PlainTransition(pending, 0, Approve) == Ok(scheduled);
    hide Next, Reachable, PlainTransition, OpenAuction;
    OpensWithAUnit(scheduled);
    Drafting();
    StepEffects(Drafted, 0, 0, USD, TERMS, Submit);
    StepEffects(pending, 0, 0, USD, TERMS, Approve);
    StepEffects(scheduled, 0, 0, USD, TERMS, Approve);
    Then(Drafted, Reviewed(0, Submit), pending);
    Then(pending, Reviewed(0, Approve), scheduled);
    Then(scheduled, Opened(0), Opening);
  }

  lemma Funding()
    ensures Reachable(Funded)
  {
    var m := Movement(5, None, Deposit, None, None);
    var acc := Account(5, 1, false, [TOP_UP]);
    assert Booked(EmptyAccount, m) == acc;
    assert Apply(EmptyAccount, DOLLARS, m) == Ok((acc, Receipt(1, 5, 5, false)));
    assert Posted(Opening.accounts, DOLLARS, m).0 == Funded.accounts;
    hide Next, Reachable, Posted;
    MoneyStepEffects(Opening, DOLLARS, m, 0, 1);
    GoingLive();
    Then(Opening, Moved(DOLLARS, m), Funded);
  }

  const FeeCharge := Charge(map[DOLLARS := Account(0, 2, false, [TOP_UP, FEE])], Some(2), 0)

  lemma FeeTaken()
    ensures ChargeFee(Funded, BID) == Ok(FeeCharge)
  {
    var acc := Account(5, 1, false, [TOP_UP]);
    var m := Movement(5, Some(USD), BidFee, Some(0), Some(BidFeeKey("k")));
    assert FeeMovement(Funded, BID) == m;
    assert [TOP_UP][..0] == [];
    assert FindKey([TOP_UP], BidFeeKey("k")).None?;
    assert Booked(acc, m) == Account(0, 2, false, [TOP_UP, FEE]);
    assert Apply(acc, DOLLARS, m) == Ok((Booked(acc, m), Receipt(2, -5, 0, false)));
    assert Get(Funded.accounts, DOLLARS) == acc;
    hide Apply;
    assert Funded.accounts[DOLLARS := Booked(acc, m)] == FeeCharge.accounts;
  }

  lemma ChecksPassed()
    ensures Precheck(Funded, BID).None? && LockedCheck(Funded, BID).None?
  {
    assert OnLadder(TERMS, 1);
    assert BID.amounts == [1] && BID.amounts[1..] == [];
    assert BatchLadderError(TERMS, BID.amounts).None?;
    assert Funded.stock.rows[0].held && Funded.stock.rows[0].auction == 0;
    assert Holds(Funded.stock, 0);
  }

  lemma BidAccepted()
    ensures Accepts(Funded, BID) && SubmitBids(Funded, BID).value.0 == Joined
  {
    ChecksPassed();
    FeeTaken();
    assert BID.amounts[1..] == [];
    assert SortAmounts([1]) == [1];
    assert Batch(BID, 5, Some(2)) == [Bid(0, 1, 1, 5, "k", Some(2))];
    assert Accepted(Funded, BID, FeeCharge) == Joined;
    assert ClaimKey(Funded.keys, BID) == Claimed;
    hide Precheck, LockedCheck, ChargeFee, Accepted;
  }

  lemma Pulling()
    ensures CancelAuction(Joined, 0) == Ok(Stopped)
  {
    var rows := [Reservation(0, 0, 1, true)];
    assert rows[0].held && rows[0].auction == 0;
    assert FindHeld(rows, 0) == Some(0);
    assert rows[0 := rows[0].(held := false)] == Unit(false).rows;
    assert map[0 := Product(1, 1)][0 := Product(1, 0)] == map[0 := Product(1, 0)];
    assert Release(Unit(true), 0) == Ok(Unit(false));
    hide Release;
    assert Joined.auctions[0 := Row(Cancelled, 1)] == Stopped.auctions;
  }

  lemma Stopping()
    ensures Reachable(Stopped)
  {
    hide Next, Reachable, SubmitBids, Accepts, CancelAuction;
    BidAccepted();
    NextSubmitted(Funded, BID);
    Pulling();
    StepEffects(Joined, 0, 0, USD, TERMS, Submit);
    Funding();
    Then(Funded, Submitted(BID), Joined);
    Then(Joined, Pulled(0), Stopped);
  }

  lemma Deciding(s: State)
    requires Reachable(s) && 0 in s.auctions && 0 !in s.results && s.auctions[0].status == Cancelled
    ensures Reachable(Decided(s, 0)) && Refundable(Decided(s, 0), 0)
    ensures Decided(s, 0).participants == s.participants
    ensures Decided(s, 0).auctions == s.auctions
  {
    ReachableIsSound(s);
    hide Next, Reachable, Inv, Decide, FrozenLines, Winner, CountFrozenBids, Released, OrderOf;
    DecideFirst(s, 0);
    StepEffects(s, 0, 0, USD, TERMS, Submit);
    Then(s, ResultDecided(0), Decided(s, 0));
  }

  /**
   * A reachable state, with the refund booked, in which the user is still five
   * cents short in the wallet that paid and five up in another currency.
   */
  lemma DollarFeeIsNotReturned() returns (s: State)
    ensures Reachable(s) && Refunded(s, 0, 1)
    ensures Net(s, 0, 1, USD) == -5 && Net(s, 0, 1, ETB) == 5
  {
    hide Next, Reachable, Inv, RefundOne, Decided, Charged, Returned;
    Stopping();
    Deciding(Stopped);
    var decided := Decided(Stopped, 0);
    s := RefundOne(decided, 0, 1).0;
    NextReturned(decided, 0, 1);
    Then(decided, FeeReturned(0, 1), s);
    ReachableIsSound(decided);
    RefundStep(decided, 0, 1);
    FeesAccounted(s, 0, 1, USD);
    FeesAccounted(s, 0, 1, ETB);
  }
}
