/**
 * Runs: any interleaving of transactions, in any order, with any arguments.
 * A crash between two transactions is simply a run that continues differently.
 */
module Runs {
  import opened Common
  import opened Ledger
  import opened Auctions
  import opened Catalog
  import opened BidRules
  import opened Lub
  import opened Platform
  import opened Lifecycle
  import opened Bidding
  import opened Closing
  import opened Invariants
  import opened LifecycleKeeps
  import opened BiddingKeeps
  import opened ClosingKeeps

  datatype Step =
    | Tick(elapsed: nat)
    | Stocked(product: ProductId, units: nat)
    | Restocked(product: ProductId, level: int)
    | Created(auction: AuctionId, product: ProductId, currency: Currency, terms: Terms)
    | Edited(auction: AuctionId, terms: Terms)
    | Reviewed(auction: AuctionId, action: Action)
    | Opened(auction: AuctionId)
    | BiddingClosed(auction: AuctionId)
    | Paused(auction: AuctionId)
    | Resumed(auction: AuctionId)
    | Pulled(auction: AuctionId)
    | Submitted(submission: Submission)
    | ResultBegun(auction: AuctionId)
    | ResultDecided(auction: AuctionId)
    | FeeReturned(auction: AuctionId, user: UserId)
    | Moved(wallet: WalletId, movement: Movement)
    | FrozenSet(wallet: WalletId, frozen: bool)

  function Committed(s: State, r: Result<State>): State {
    if r.Ok? then r.value else s
  }

  function WithStock(s: State, r: Result<Stock>): State {
    if r.Ok? then s.(stock := r.value) else s
  }

  /** One transaction: its effect when it commits, nothing when it is refused. */
  function Next(s: State, step: Step): State {
    match step
    case Tick(elapsed) => s.(now := s.now + elapsed)
    case Stocked(p, units) => WithStock(s, AddProduct(s.stock, p, units))
    case Restocked(p, level) => WithStock(s, SetStock(s.stock, p, level))
    case Created(a, p, currency, terms) => Committed(s, CreateAuction(s, a, p, currency, terms))
    case Edited(a, terms) => Committed(s, UpdateTerms(s, a, terms))
    case Reviewed(a, action) =>
      if action in {Submit, Approve, Reject} then Committed(s, PlainTransition(s, a, action)) else s
    case Opened(a) => Committed(s, OpenAuction(s, a))
    case BiddingClosed(a) => Committed(s, CloseBidding(s, a))
    case Paused(a) => Committed(s, SuspendAuction(s, a))
    case Resumed(a) => Committed(s, ResumeAuction(s, a))
    case Pulled(a) => Committed(s, CancelAuction(s, a))
    case Submitted(sub) => if Accepts(s, sub) then SubmitBids(s, sub).value.0 else s
    case ResultBegun(a) => Committed(s, BeginResult(s, a))
    case ResultDecided(a) => Committed(s, Decide(s, a))
    case FeeReturned(a, u) => if Refundable(s, a) && IsPayer(s, a, u) then RefundOne(s, a, u).0 else s
    case Moved(w, m) => if Outside(m) then s.(accounts := Posted(s.accounts, w, m).0) else s
    case FrozenSet(w, frozen) =>
      if w in s.accounts then s.(accounts := s.accounts[w := s.accounts[w].(frozen := frozen)]) else s
  }

  function Exec(s: State, steps: seq<Step>): State
    decreases |steps|
  {
    if steps == [] then s else Exec(Next(s, steps[0]), steps[1..])
  }

  /** The steps that only change an auction's status, terms or reservation. */
  predicate IsStatusStep(step: Step) {
    step.Reviewed? || step.Opened? || step.BiddingClosed? || step.Paused? || step.Resumed? || step.Pulled?
    || step.ResultBegun?
  }

  lemma StatusKeeps(s: State, step: Step)
    requires Inv(s) && IsStatusStep(step)
    ensures Inv(Next(s, step))
  {
    hide Inv, OpenAuction, CloseBidding, SuspendAuction, CancelAuction, BeginResult, PlainTransition, ResumeAuction;
    match step
    case Reviewed(a, action) =>
      if action in {Submit, Approve, Reject} && PlainTransition(s, a, action).Ok? { PlainKeeps(s, a, action); }
    case Opened(a) => if OpenAuction(s, a).Ok? { OpenKeeps(s, a); }
    case BiddingClosed(a) => if CloseBidding(s, a).Ok? { CloseBiddingKeeps(s, a); }
    case Paused(a) => if SuspendAuction(s, a).Ok? { SuspendKeeps(s, a); }
    case Resumed(a) => if ResumeAuction(s, a).Ok? { ResumeKeeps(s, a); }
    case Pulled(a) => if CancelAuction(s, a).Ok? { CancelKeeps(s, a); }
    case ResultBegun(a) => if BeginResult(s, a).Ok? { BeginResultKeeps(s, a); }
  }

  lemma StockIsSound(s: State)
    requires Inv(s)
    ensures StockSound(s.stock)
  {
    hide StockSound;
  }

  lemma AddedKeys(st: Stock, p: ProductId, units: nat)
    requires AddProduct(st, p, units).Ok?
    ensures st.products.Keys <= AddProduct(st, p, units).value.products.Keys
  {
  }

  lemma SetKeys(st: Stock, p: ProductId, level: int)
    requires SetStock(st, p, level).Ok?
    ensures st.products.Keys <= SetStock(st, p, level).value.products.Keys
  {
  }

  lemma CatalogKeeps(s: State, step: Step)
    requires Inv(s) && (step.Stocked? || step.Restocked? || step.Created? || step.Edited? || step.Tick?)
    ensures Inv(Next(s, step))
  {
    hide Inv, StockSound, CreateAuction, UpdateTerms, AddProduct, SetStock;
    StockIsSound(s);
    match step
    case Tick(elapsed) => AdvanceKeeps(s, elapsed);
    case Stocked(p, units) =>
      if AddProduct(s.stock, p, units).Ok? {
        AddProductKeeps(s.stock, p, units);
        AddedKeys(s.stock, p, units);
        StockKeeps(s, AddProduct(s.stock, p, units).value);
      }
    case Restocked(p, level) =>
      if SetStock(s.stock, p, level).Ok? {
        SetStockKeeps(s.stock, p, level);
        SetKeys(s.stock, p, level);
        StockKeeps(s, SetStock(s.stock, p, level).value);
      }
    case Created(a, p, currency, terms) =>
      if CreateAuction(s, a, p, currency, terms).Ok? { CreateKeeps(s, a, p, currency, terms); }
    case Edited(a, terms) => if UpdateTerms(s, a, terms).Ok? { EditKeeps(s, a, terms); }
  }

  lemma MoneyKeeps(s: State, step: Step)
    requires Inv(s)
    requires step.Submitted? || step.ResultDecided? || step.FeeReturned? || step.Moved? || step.FrozenSet?
    ensures Inv(Next(s, step))
  {
    hide Inv, SubmitBids, Decide, RefundOne, Posted, Refundable, IsPayer;
    match step
    case Submitted(sub) => if Accepts(s, sub) { SubmitKeeps(s, sub); }
    case ResultDecided(a) => if Decide(s, a).Ok? { DecideKeeps(s, a); }
    case FeeReturned(a, u) => if Refundable(s, a) && IsPayer(s, a, u) { RefundKeeps(s, a, u); }
    case Moved(w, m) => if Outside(m) { OutsideKeeps(s, w, m); }
    case FrozenSet(w, frozen) => if w in s.accounts { FreezeKeeps(s, w, frozen); }
  }

  /** Every transaction keeps every invariant. */
  lemma NextKeeps(s: State, step: Step)
    requires Inv(s)
    ensures Inv(Next(s, step))
  {
    hide Inv, Next;
    if IsStatusStep(step) {
      StatusKeeps(s, step);
    } else if step.Submitted? || step.ResultDecided? || step.FeeReturned? || step.Moved? || step.FrozenSet? {
      MoneyKeeps(s, step);
    } else {
      CatalogKeeps(s, step);
    }
  }

  /** Every invariant holds after every run. */
  lemma {:induction false} RunsAreSound(s: State, steps: seq<Step>)
    requires Inv(s)
    ensures Inv(Exec(s, steps))
    decreases |steps|
  {
    hide Inv, Next;
    if steps != [] {
      NextKeeps(s, steps[0]);
      RunsAreSound(Next(s, steps[0]), steps[1..]);
    }
  }

  lemma {:induction false} ExecConcat(s: State, first: seq<Step>, second: seq<Step>)
    ensures Exec(s, first + second) == Exec(Exec(s, first), second)
    decreases |first|
  {
    hide Next;
    if first == [] {
      assert first + second == second;
    } else {
      ExecConcat(Next(s, first[0]), first[1..], second);
      assert (first + second)[1..] == first[1..] + second;
    }
  }

  ghost predicate Reachable(s: State) {
    exists steps :: s == Exec(Empty, steps)
  }

  lemma ReachableIsSound(s: State)
    requires Reachable(s)
    ensures Inv(s)
  {
    hide Inv;
    var steps :| s == Exec(Empty, steps);
    EmptyIsSound();
    RunsAreSound(Empty, steps);
  }

  lemma ReachableOn(s: State, steps: seq<Step>)
    requires Reachable(s)
    ensures Reachable(Exec(s, steps))
  {
    hide Next;
    var first :| s == Exec(Empty, first);
    ExecConcat(Empty, first, steps);
  }

  // -------------------------------------------------------------------------
  // What only ever grows, and what freezes
  // -------------------------------------------------------------------------

  const PAST_BIDDING := {Closing, Calculating, Completed, Cancelled}

  predicate PastBidding(s: State, a: AuctionId) {
    a in s.auctions && s.auctions[a].status in PAST_BIDDING
  }

  predicate SameGoods(row: Auction, row': Auction) {
    row'.product == row.product && row'.currency == row.currency
  }

  /** Published facts are permanent. */
  ghost predicate Permanent(s: State, s': State) {
    && s.bids <= s'.bids
    && s.now <= s'.now
    && (forall k :: k in s.keys ==> k in s'.keys && s'.keys[k] == s.keys[k])
    && (forall w :: Get(s.accounts, w).entries <= Get(s'.accounts, w).entries)
    && (forall a :: a in s.results ==> a in s'.results && s'.results[a] == s.results[a])
    && (forall a :: a in s.orders ==> a in s'.orders && s'.orders[a] == s.orders[a])
    && (forall seat :: seat in s.participants ==> seat in s'.participants)
    && (forall a :: a in s.auctions ==> a in s'.auctions && SameGoods(s.auctions[a], s'.auctions[a]))
    && (forall seat :: seat in s.participants && seat.auction in s.auctions ==>
          && seat.auction in s'.auctions
          && s'.auctions[seat.auction].terms == s.auctions[seat.auction].terms)
  }

  /** Once bidding has stopped, the auction's bids, terms and deadline are final. */
  ghost predicate FrozenFrom(s: State, s': State) {
    forall a :: PastBidding(s, a) ==>
      && PastBidding(s', a)
      && FrozenLines(s'.bids, a) == FrozenLines(s.bids, a)
      && s'.auctions[a].terms == s.auctions[a].terms
      && (s.auctions[a].closingAt.Some? ==> s'.auctions[a].closingAt == s.auctions[a].closingAt)
      && (forall u :: SeatOf(s'.participants, Seat(a, u)) == SeatOf(s.participants, Seat(a, u)))
  }

  /** A step that leaves bids, keys, seats and published rows alone. */
  ghost predicate OnlyStatus(s: State, s': State) {
    && s'.bids == s.bids && s'.keys == s.keys && s'.participants == s.participants
    && s.now <= s'.now
    && (forall w :: Get(s.accounts, w).entries <= Get(s'.accounts, w).entries)
    && (forall a :: a in s.results ==> a in s'.results && s'.results[a] == s.results[a])
    && (forall a :: a in s.orders ==> a in s'.orders && s'.orders[a] == s.orders[a])
    && (forall a :: a in s.auctions ==>
          && a in s'.auctions
          && SameGoods(s.auctions[a], s'.auctions[a])
          && (s.auctions[a].status in TERMS_LOCKED ==> s'.auctions[a].terms == s.auctions[a].terms))
    && (forall a :: PastBidding(s, a) ==>
          && PastBidding(s', a)
          && (s.auctions[a].closingAt.Some? ==> s'.auctions[a].closingAt == s.auctions[a].closingAt))
  }

  /** One auction's row replaced: past bidding, only the status and the closing record may differ. */
  lemma RowMoved(s: State, a: AuctionId, row: Auction, stock: Stock)
    requires a in s.auctions ==> SameGoods(s.auctions[a], row)
    requires a in s.auctions && s.auctions[a].status in TERMS_LOCKED ==> row.terms == s.auctions[a].terms
    requires PastBidding(s, a) ==>
      && row.status in PAST_BIDDING
      && (s.auctions[a].closingAt.Some? ==> row.closingAt == s.auctions[a].closingAt)
    ensures OnlyStatus(s, SetAuction(s, a, row).(stock := stock))
  {
  }

  lemma Unmoved(s: State, s': State)
    requires s'.bids == s.bids && s'.keys == s.keys && s'.participants == s.participants && s.now <= s'.now
    requires s'.auctions == s.auctions && s'.results == s.results && s'.orders == s.orders
    requires s'.accounts == s.accounts
    ensures OnlyStatus(s, s')
  {
  }

  lemma OpenStep(s: State, a: AuctionId)
    requires OpenAuction(s, a).Ok?
    ensures OnlyStatus(s, OpenAuction(s, a).value)
  {
    hide Reserve, Release, OnlyStatus;
    var s' := OpenAuction(s, a).value;
    if s' == s {
      Unmoved(s, s);
    } else {
      RowMoved(s, a, s'.auctions[a], s'.stock);
      assert s' == SetAuction(s, a, s'.auctions[a]).(stock := s'.stock);
    }
  }

  lemma CloseStep(s: State, a: AuctionId)
    requires CloseBidding(s, a).Ok?
    ensures OnlyStatus(s, CloseBidding(s, a).value)
  {
    hide Reserve, Release, OnlyStatus;
    var s' := CloseBidding(s, a).value;
    if s' == s {
      Unmoved(s, s);
    } else {
      RowMoved(s, a, s'.auctions[a], s'.stock);
      assert s' == SetAuction(s, a, s'.auctions[a]).(stock := s'.stock);
    }
  }

  lemma SuspendStep(s: State, a: AuctionId)
    requires SuspendAuction(s, a).Ok?
    ensures OnlyStatus(s, SuspendAuction(s, a).value)
  {
    hide Reserve, Release, OnlyStatus;
    var s' := SuspendAuction(s, a).value;
    if s' == s {
      Unmoved(s, s);
    } else {
      RowMoved(s, a, s'.auctions[a], s'.stock);
      assert s' == SetAuction(s, a, s'.auctions[a]).(stock := s'.stock);
    }
  }

  lemma ResumeStep(s: State, a: AuctionId)
    requires ResumeAuction(s, a).Ok?
    ensures OnlyStatus(s, ResumeAuction(s, a).value)
  {
    hide Reserve, Release, OnlyStatus;
    var s' := ResumeAuction(s, a).value;
    if s' == s {
      Unmoved(s, s);
    } else {
      RowMoved(s, a, s'.auctions[a], s'.stock);
      assert s' == SetAuction(s, a, s'.auctions[a]).(stock := s'.stock);
    }
  }

  lemma CancelStep(s: State, a: AuctionId)
    requires CancelAuction(s, a).Ok?
    ensures OnlyStatus(s, CancelAuction(s, a).value)
  {
    hide Reserve, Release, OnlyStatus;
    var s' := CancelAuction(s, a).value;
    if s' == s {
      Unmoved(s, s);
    } else {
      RowMoved(s, a, s'.auctions[a], s'.stock);
      assert s' == SetAuction(s, a, s'.auctions[a]).(stock := s'.stock);
    }
  }

  lemma BeginStep(s: State, a: AuctionId)
    requires BeginResult(s, a).Ok?
    ensures OnlyStatus(s, BeginResult(s, a).value)
  {
    hide Reserve, Release, OnlyStatus;
    var s' := BeginResult(s, a).value;
    if s' == s {
      Unmoved(s, s);
    } else {
      RowMoved(s, a, s'.auctions[a], s'.stock);
      assert s' == SetAuction(s, a, s'.auctions[a]).(stock := s'.stock);
    }
  }

  lemma PlainStep(s: State, a: AuctionId, action: Action)
    requires action in {Submit, Approve, Reject}
    requires PlainTransition(s, a, action).Ok?
    ensures OnlyStatus(s, PlainTransition(s, a, action).value)
  {
    hide Reserve, Release, OnlyStatus;
    var s' := PlainTransition(s, a, action).value;
    if s' == s {
      Unmoved(s, s);
    } else {
      RowMoved(s, a, s'.auctions[a], s'.stock);
      assert s' == SetAuction(s, a, s'.auctions[a]).(stock := s'.stock);
    }
  }

  lemma EditStep(s: State, a: AuctionId, terms: Terms)
    requires UpdateTerms(s, a, terms).Ok?
    ensures OnlyStatus(s, UpdateTerms(s, a, terms).value)
  {
    hide Reserve, Release, OnlyStatus;
    var s' := UpdateTerms(s, a, terms).value;
    if s' == s {
      Unmoved(s, s);
    } else {
      RowMoved(s, a, s'.auctions[a], s'.stock);
      assert s' == SetAuction(s, a, s'.auctions[a]).(stock := s'.stock);
    }
  }

  lemma CreateStep(s: State, a: AuctionId, p: ProductId, currency: Currency, terms: Terms)
    requires CreateAuction(s, a, p, currency, terms).Ok?
    ensures OnlyStatus(s, CreateAuction(s, a, p, currency, terms).value)
  {
    hide CommittedAuctions, ValidConfig, OnlyStatus;
    var s' := CreateAuction(s, a, p, currency, terms).value;
    RowMoved(s, a, s'.auctions[a], s.stock);
  }

  lemma StatusStep(s: State, step: Step)
    requires IsStatusStep(step) || step.Created? || step.Edited?
    ensures OnlyStatus(s, Next(s, step))
  {
    hide OnlyStatus, OpenAuction, CloseBidding, SuspendAuction, CancelAuction, BeginResult, PlainTransition,
         ResumeAuction, CreateAuction, UpdateTerms;
    Unmoved(s, s);
    match step
    case Reviewed(a, action) =>
      if action in {Submit, Approve, Reject} && PlainTransition(s, a, action).Ok? { PlainStep(s, a, action); }
    case Opened(a) => if OpenAuction(s, a).Ok? { OpenStep(s, a); }
    case BiddingClosed(a) => if CloseBidding(s, a).Ok? { CloseStep(s, a); }
    case Paused(a) => if SuspendAuction(s, a).Ok? { SuspendStep(s, a); }
    case Resumed(a) => if ResumeAuction(s, a).Ok? { ResumeStep(s, a); }
    case Pulled(a) => if CancelAuction(s, a).Ok? { CancelStep(s, a); }
    case ResultBegun(a) => if BeginResult(s, a).Ok? { BeginStep(s, a); }
    case Created(a, p, currency, terms) =>
      if CreateAuction(s, a, p, currency, terms).Ok? { CreateStep(s, a, p, currency, terms); }
    case Edited(a, terms) => if UpdateTerms(s, a, terms).Ok? { EditStep(s, a, terms); }
  }

  lemma NextFrozen(s: State, w: WalletId, frozen: bool)
    ensures Next(s, FrozenSet(w, frozen))
         == if w in s.accounts then s.(accounts := s.accounts[w := s.accounts[w].(frozen := frozen)]) else s
  {
  }

  lemma FreezeStep(s: State, w: WalletId, frozen: bool)
    ensures OnlyStatus(s, Next(s, FrozenSet(w, frozen)))
  {
    hide Next;
    NextFrozen(s, w, frozen);
  }

  lemma DecideStep(s: State, a: AuctionId)
    requires Inv(s) && Decide(s, a).Ok?
    ensures OnlyStatus(s, Decide(s, a).value)
  {
    assert a in s.auctions && (a in s.results || s.auctions[a].status in {Calculating, Cancelled}) by {
      hide Decide;
      DecideCases(s, a);
    }
    hide Inv, Decide, Decided, OnlyStatus;
    if a in s.results {
      DecideAgain(s, a);
      Unmoved(s, s);
    } else {
      DecideFirst(s, a);
      assert OrdersSound(s.auctions, s.results, s.orders) by { OrdersOf(s); }
      DecidedStep(s, a);
    }
  }

  lemma OrdersOf(s: State)
    requires Inv(s)
    ensures OrdersSound(s.auctions, s.results, s.orders)
  {
    hide OrdersSound;
  }

  lemma DecidedStep(s: State, a: AuctionId)
    requires OrdersSound(s.auctions, s.results, s.orders)
    requires a in s.auctions && a !in s.results && s.auctions[a].status in {Calculating, Cancelled}
    ensures OnlyStatus(s, Decided(s, a))
  {
    hide ComputedResult, Release, Released, OrderOf;
    assert a !in s.orders;
  }

  /** A posted movement extends one ledger by at most one entry. */
  lemma PostedGrows(accounts: map<WalletId, Account>, w: WalletId, m: Movement)
    ensures var accounts' := Posted(accounts, w, m).0;
      forall v :: Get(accounts, v).entries <= Get(accounts', v).entries
  {
  }

  lemma AcceptedIsPermanent(s: State, sub: Submission, charge: Charge)
    requires Passed(s, sub, charge)
    requires LedgersSound(s.accounts) && EntriesSound(s) && s.auctions[sub.auction].terms.bidFee >= 0
    ensures Permanent(s, Accepted(s, sub, charge))
  {
    hide LedgersSound, EntriesSound, AnswerOf, Holds, AlreadyHolds, ChargeFee, Distinct, OnLadder;
    ChargeBooks(s, sub, charge);
    var s' := Accepted(s, sub, charge);
    forall w ensures Get(s.accounts, w).entries <= Get(s'.accounts, w).entries {
    }
  }

  lemma AcceptedIsFrozen(s: State, sub: Submission, charge: Charge)
    requires Passed(s, sub, charge)
    ensures FrozenFrom(s, Accepted(s, sub, charge))
  {
    hide AnswerOf, Holds, AlreadyHolds, ChargeFee, Distinct, OnLadder;
    var s' := Accepted(s, sub, charge);
    BatchShape(sub, s.auctions[sub.auction].terms.bidFee, charge.entry);
    forall a | PastBidding(s, a)
      ensures FrozenLines(s'.bids, a) == FrozenLines(s.bids, a)
    {
      LinesAppend(s.bids, Batch(sub, s.auctions[sub.auction].terms.bidFee, charge.entry), sub.auction, a);
    }
  }

  lemma SubmitStep(s: State, sub: Submission)
    requires Inv(s) && Accepts(s, sub)
    ensures var s' := SubmitBids(s, sub).value.0; Permanent(s, s') && FrozenFrom(s, s')
  {
    hide LedgersSound, SeatsSound, BidsSound, NoDuplicates, TotalsSound, StatusesSound, HoldsSound,
         ResultsSound, OrdersSound, KeysSound, EntriesSound, ChargesSound, PaymentsSound, SubmitBids, Accepted,
         Holds, AlreadyHolds, ChargeFee, Permanent, FrozenFrom;
    var charge := AcceptedPassed(s, sub);
    assert AuctionSound(s.auctions[sub.auction], s.now);
    AcceptedIsPermanent(s, sub, charge);
    AcceptedIsFrozen(s, sub, charge);
  }

  lemma OnlyStatusIsPermanent(s: State, s': State)
    requires StatusesSound(s.auctions, s.participants)
    requires OnlyStatus(s, s')
    ensures Permanent(s, s') && FrozenFrom(s, s')
  {
    forall seat | seat in s.participants
      ensures seat.auction in s.auctions && s.auctions[seat.auction].status in TERMS_LOCKED
    {
      assert Underlying(s.auctions[seat.auction]) in AFTER_OPENING;
    }
  }

  lemma PostedStep(s: State, w: WalletId, m: Movement)
    ensures OnlyStatus(s, s.(accounts := Posted(s.accounts, w, m).0))
  {
    hide Posted;
    PostedGrows(s.accounts, w, m);
  }

  lemma MoneyStep(s: State, step: Step)
    requires Inv(s) && (step.ResultDecided? || step.FeeReturned? || step.Moved? || step.FrozenSet?)
    ensures OnlyStatus(s, Next(s, step))
  {
    hide Inv, Decide, OnlyStatus, Posted, Refundable, IsPayer;
    Unmoved(s, s);
    match step
    case ResultDecided(a) => if Decide(s, a).Ok? { DecideStep(s, a); }
    case FeeReturned(a, u) => PostedStep(s, RefundWallet(u), RefundMovement(s, a, u));
    case Moved(w, m) => PostedStep(s, w, m);
    case FrozenSet(w, frozen) => FreezeStep(s, w, frozen);
  }

  lemma StockStep(s: State, step: Step)
    requires step.Tick? || step.Stocked? || step.Restocked?
    ensures OnlyStatus(s, Next(s, step))
  {
    hide OnlyStatus, Next;
    NextStock(s, step);
    Unmoved(s, Next(s, step));
  }

  lemma NextStock(s: State, step: Step)
    requires step.Tick? || step.Stocked? || step.Restocked?
    ensures Next(s, step) == s.(now := Next(s, step).now, stock := Next(s, step).stock) && s.now <= Next(s, step).now
  {
    hide AddProduct, SetStock;
  }

  /** Everything but a submission leaves the bids, the seats and the answers alone. */
  lemma OtherStep(s: State, step: Step)
    requires Inv(s) && !step.Submitted?
    ensures OnlyStatus(s, Next(s, step))
  {
    hide Inv, Next, OnlyStatus;
    if step.ResultDecided? || step.FeeReturned? || step.Moved? || step.FrozenSet? {
      MoneyStep(s, step);
    } else if step.Tick? || step.Stocked? || step.Restocked? {
      StockStep(s, step);
    } else {
      StatusStep(s, step);
    }
  }

  lemma StatusesOf(s: State)
    requires Inv(s)
    ensures StatusesSound(s.auctions, s.participants)
  {
    hide StatusesSound;
  }

  lemma NextSubmitted(s: State, sub: Submission)
    ensures Next(s, Submitted(sub)) == if Accepts(s, sub) then SubmitBids(s, sub).value.0 else s
  {
    hide SubmitBids;
  }

  lemma NextReturned(s: State, a: AuctionId, u: UserId)
    ensures Next(s, FeeReturned(a, u)) == if Refundable(s, a) && IsPayer(s, a, u) then RefundOne(s, a, u).0 else s
  {
    hide RefundOne;
  }

  lemma StepIsPermanent(s: State, step: Step)
    requires Inv(s)
    ensures Permanent(s, Next(s, step)) && FrozenFrom(s, Next(s, step))
  {
    hide Inv, Next, OnlyStatus, Permanent, FrozenFrom, Accepts, SubmitBids;
    if step.Submitted? && Accepts(s, step.submission) {
      SubmitStep(s, step.submission);
      NextSubmitted(s, step.submission);
    } else {
      if step.Submitted? {
        NextSubmitted(s, step.submission);
        Unmoved(s, s);
      } else {
        OtherStep(s, step);
      }
      StatusesOf(s);
      OnlyStatusIsPermanent(s, Next(s, step));
    }
  }

  /** Permanence and freezing hold across any continuation of the run. */
  lemma {:induction false} RunIsPermanent(s: State, steps: seq<Step>)
    requires Inv(s)
    ensures Permanent(s, Exec(s, steps)) && FrozenFrom(s, Exec(s, steps))
    decreases |steps|
  {
    hide Inv, Next;
    if steps != [] {
      var s1 := Next(s, steps[0]);
      StepIsPermanent(s, steps[0]);
      NextKeeps(s, steps[0]);
      RunIsPermanent(s1, steps[1..]);
      PermanentTransitive(s, s1, Exec(s1, steps[1..]));
    }
  }

  lemma PermanentTransitive(s: State, s1: State, s2: State)
    requires Permanent(s, s1) && FrozenFrom(s, s1) && Permanent(s1, s2) && FrozenFrom(s1, s2)
    ensures Permanent(s, s2) && FrozenFrom(s, s2)
  {
    FrozenTransitive(s, s1, s2);
    hide FrozenFrom;
    forall w ensures Get(s.accounts, w).entries <= Get(s2.accounts, w).entries {
      assert Get(s.accounts, w).entries <= Get(s1.accounts, w).entries <= Get(s2.accounts, w).entries;
    }
  }

  lemma FrozenTransitive(s: State, s1: State, s2: State)
    requires FrozenFrom(s, s1) && FrozenFrom(s1, s2)
    ensures FrozenFrom(s, s2)
  {
    forall a | PastBidding(s, a)
      ensures forall u :: SeatOf(s2.participants, Seat(a, u)) == SeatOf(s.participants, Seat(a, u))
    {
      assert PastBidding(s1, a);
    }
  }
}
