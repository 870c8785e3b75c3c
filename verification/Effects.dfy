/**
 * What every administrative transaction does to the tables of a sound
 * platform: when it is refused, with which refusal, and the whole new state.
 */
module Effects {
  import opened Common
  import opened Ledger
  import opened Auctions
  import opened Catalog
  import opened Lub
  import opened Platform
  import opened Lifecycle
  import opened Closing
  import opened Invariants
  import opened LifecycleKeeps
  import opened ClosingKeeps
  import opened Runs
  import opened Records
  import opened Verdicts

  // -------------------------------------------------------------------------
  // The table, read from the statuses
  // -------------------------------------------------------------------------

  /** Everything an auction in this status may undergo. */
  function WayOut(from: Status): set<Action> {
    match from
    case Draft => {Submit, Cancel}
    case PendingApproval => {Approve, Reject, Suspend, Cancel}
    case Scheduled => {Open, Suspend, Cancel}
    case Live => {Close, Suspend, Cancel}
    case Closing => {BeginCalculating, Cancel}
    case Calculating => {Complete}
    case Suspended => {Cancel}
    case Completed => {}
    case Cancelled => {}
  }

  lemma TableReadBackwards(action: Action, from: Status)
    ensures CanTransition(action, from) <==> action in WayOut(from)
  {
  }

  /** Every action has a way to happen, and its target names it. */
  lemma TargetsAreDistinct(x: Action, y: Action)
    ensures TargetOf(x) == TargetOf(y) ==> x == y
    ensures exists from :: x in WayOut(from)
  {
    var from := match x
      case Submit => Draft
      case Approve => PendingApproval
      case Reject => PendingApproval
      case Open => Scheduled
      case Close => Live
      case BeginCalculating => Closing
      case Complete => Calculating
      case Suspend => Live
      case Cancel => Draft;
    assert x in WayOut(from);
  }

  // -------------------------------------------------------------------------
  // Terms
  // -------------------------------------------------------------------------

  /** A window that is not empty, a ladder whose top is one of its rungs, and limits that allow something. */
  ghost predicate SaneTerms(t: Terms) {
    && t.startsAt < t.endsAt
    && t.minBid >= 1 && t.increment >= 1
    && (exists k: nat :: IsRung(t, k, t.maxBid))
    && t.bidFee >= 0 && t.maxBidsPerUser >= 1 && t.paymentHours >= 1
  }

  predicate IsRung(t: Terms, k: nat, amount: int) {
    amount == t.minBid + k * t.increment
  }

  lemma ValidConfigIsSane(t: Terms)
    ensures ValidConfig(t) <==> SaneTerms(t)
  {
    if ValidConfig(t) {
      var span := t.maxBid - t.minBid;
      var k := span / t.increment;
      assert span == k * t.increment;
      if k < 0 {
        BidRules.MultiplyOrder(k, -1, t.increment);
      }
      assert IsRung(t, k, t.maxBid);
    }
    if SaneTerms(t) {
      var k: nat :| IsRung(t, k, t.maxBid);
      BidRules.MultiplyOrder(0, k, t.increment);
      BidRules.ModuloOfMultiple(k, t.increment);
    }
  }

  /** The auctions of a product that still may need a unit of it. */
  function Unfinished(s: State, p: ProductId): set<AuctionId> {
    set a | a in s.auctions && s.auctions[a].product == p
            && s.auctions[a].status != Completed && s.auctions[a].status != Cancelled
  }

  lemma UnfinishedIsCommitted(s: State, p: ProductId)
    ensures CommittedAuctions(s.auctions, p) == Unfinished(s, p)
  {
  }

  /**
   * A draft is created exactly with sane terms and a product with a unit no
   * unfinished auction counts on, and after it they still do not outnumber the
   * units left.
   */
  lemma CreatesExactly(s: State, a: AuctionId, p: ProductId, currency: Currency, terms: Terms)
    requires a !in s.auctions
    ensures var r := CreateAuction(s, a, p, currency, terms);
      && (r.Ok? <==>
            && SaneTerms(terms) && p in s.stock.products && s.stock.products[p].stock >= 1
            && |Unfinished(s, p)| < s.stock.products[p].stock - s.stock.products[p].reserved)
      && (r.Ok? ==>
            && r.value == s.(auctions := s.auctions[a := Auction(p, currency, terms, Draft, None, None, None, 0, 0)])
            && |Unfinished(r.value, p)| <= s.stock.products[p].stock - s.stock.products[p].reserved)
      && (r.Err? ==> r.error == if SaneTerms(terms) && p !in s.stock.products then NotFound else InvalidConfig)
  {
    hide SaneTerms, ValidConfig;
    ValidConfigIsSane(terms);
    UnfinishedIsCommitted(s, p);
    var r := CreateAuction(s, a, p, currency, terms);
    if r.Ok? {
      assert Unfinished(r.value, p) == Unfinished(s, p) + {a};
    }
  }

  lemma LockedOrEditable(status: Status)
    ensures status in TERMS_LOCKED <==> status !in {Draft, PendingApproval, Scheduled}
  {
  }

  /** Terms are replaced exactly on a draft, pending or scheduled auction, and nobody can have bid in it. */
  lemma EditsExactly(s: State, a: AuctionId, terms: Terms)
    requires Reachable(s)
    ensures var r := UpdateTerms(s, a, terms);
      if a !in s.auctions then r == Err(NotFound)
      else if s.auctions[a].status !in {Draft, PendingApproval, Scheduled} then r.Err? && r.error == TermsImmutable
      else if !SaneTerms(terms) then r == Err(InvalidConfig)
      else
        && r.Ok? && r.value == s.(auctions := s.auctions[a := s.auctions[a].(terms := terms)])
        && forall seat :: seat in s.participants ==> seat.auction != a
  {
    hide Inv, Reachable, SaneTerms, ValidConfig;
    ReachableIsSound(s);
    ValidConfigIsSane(terms);
    StatusesOf(s);
    if a in s.auctions {
      LockedOrEditable(s.auctions[a].status);
    }
    if a in s.auctions && s.auctions[a].status in {Draft, PendingApproval, Scheduled} {
      EditableIsEmpty(s, a);
      forall seat | seat in s.participants ensures seat.auction != a {
        assert seat == Seat(seat.auction, seat.user);
      }
    }
  }

  // -------------------------------------------------------------------------
  // Status changes
  // -------------------------------------------------------------------------

  /** One auction's row replaced and everything else as it was. */
  function WithRow(s: State, a: AuctionId, row: Auction): State {
    s.(auctions := s.auctions[a := row])
  }

  /** Review: each of the three actions from the one status it is for, done already at its target, refused elsewhere. */
  lemma ReviewsExactly(s: State, a: AuctionId)
    requires a in s.auctions
    ensures var row := s.auctions[a];
      && PlainTransition(s, a, Submit) ==
           (if row.status == PendingApproval then Ok(s)
            else if row.status == Draft then Ok(WithRow(s, a, row.(status := PendingApproval)))
            else Err(Error.InvalidTransition))
      && PlainTransition(s, a, Approve) ==
           (if row.status == Scheduled then Ok(s)
            else if row.status == PendingApproval then Ok(WithRow(s, a, row.(status := Scheduled)))
            else Err(Error.InvalidTransition))
      && PlainTransition(s, a, Reject) ==
           (if row.status == Draft then Ok(s)
            else if row.status == PendingApproval then Ok(WithRow(s, a, row.(status := Draft)))
            else Err(Error.InvalidTransition))
  {
  }

  lemma NotHeldWhileScheduled(s: State, a: AuctionId)
    requires Reachable(s) && a in s.auctions && s.auctions[a].status == Scheduled
    ensures !Holds(s.stock, a) && s.auctions[a].product in s.stock.products
  {
    hide Reachable, Inv, Holds, StockSound;
    HeldExactlyWhenOwed(s, a);
    ReachableIsSound(s);
    Here(s, a);
  }

  /**
   * A scheduled auction whose start has come goes live and takes one unit of its
   * product, if one is free; with none free it is cancelled and the stock is as
   * it was.
   */
  lemma OpensExactly(s: State, a: AuctionId)
    requires Reachable(s) && a in s.auctions
    ensures var row, r := s.auctions[a], OpenAuction(s, a);
      if row.status == Live then r == Ok(s)
      else if row.status != Scheduled then r == Err(Error.InvalidTransition)
      else if s.now < row.terms.startsAt then r == Err(NotDue)
      else
        && row.product in s.stock.products && r.Ok?
        && var unit := s.stock.products[row.product];
           if unit.reserved < unit.stock then
             r.value == WithRow(s, a, row.(status := Live)).(stock := Stock(
               s.stock.products[row.product := Product(unit.stock, unit.reserved + 1)],
               s.stock.rows + [Reservation(row.product, a, 1, true)]))
           else r.value == WithRow(s, a, row.(status := Cancelled))
  {
    if s.auctions[a].status == Scheduled {
      NotHeldWhileScheduled(s, a);
    }
    hide Reachable, Holds;
  }

  /** Bidding stops at the deadline, never before it, and the instant is recorded. */
  lemma ClosesExactly(s: State, a: AuctionId)
    requires a in s.auctions
    ensures var row, r := s.auctions[a], CloseBidding(s, a);
      if row.status in {Closing, Calculating, Completed} then r == Ok(s)
      else if row.status != Live then r == Err(Error.InvalidTransition)
      else if s.now < row.terms.endsAt then r == Err(NotDue)
      else r == Ok(WithRow(s, a, row.(status := Closing, closingAt := Some(s.now))))
  {
  }

  lemma PausesExactly(s: State, a: AuctionId)
    requires a in s.auctions
    ensures var row, r := s.auctions[a], SuspendAuction(s, a);
      if row.status == Suspended then r == Ok(s)
      else if row.status !in {PendingApproval, Scheduled, Live} then r == Err(Error.InvalidTransition)
      else r == Ok(WithRow(s, a, row.(status := Suspended, suspendedFrom := Some(row.status))))
  {
  }

  /** The stock once the held row at `i` is given back. */
  function GivenBack(st: Stock, i: nat): Stock
    requires i < |st.rows| && st.rows[i].product in st.products
  {
    var row := st.rows[i];
    var p := st.products[row.product];
    Stock(
      st.products[row.product := Product(p.stock, p.reserved - row.quantity)],
      st.rows[i := Reservation(row.product, row.auction, row.quantity, false)])
  }

  lemma ReleasesExactly(st: Stock, a: AuctionId)
    requires StockSound(st)
    ensures if Holds(st, a) then
        exists i: nat :: i < |st.rows| && st.rows[i].held && st.rows[i].auction == a
          && st.rows[i].product in st.products && Release(st, a) == Ok(GivenBack(st, i))
      else Release(st, a) == Ok(st)
  {
  }

  /**
   * Cancelling works from everything before calculating: what held a unit (live,
   * closing, or suspended out of live) gives it back, and nothing else moves.
   */
  lemma CancelsExactly(s: State, a: AuctionId)
    requires Reachable(s) && a in s.auctions
    ensures var row, r := s.auctions[a], CancelAuction(s, a);
      var pulled := WithRow(s, a, row.(status := Cancelled));
      if row.status == Cancelled then r == Ok(s)
      else if row.status == Calculating || row.status == Completed then r == Err(Error.InvalidTransition)
      else if row.status in {Live, Closing} || (row.status == Suspended && row.suspendedFrom == Some(Live)) then
        exists i: nat :: i < |s.stock.rows| && s.stock.rows[i].held && s.stock.rows[i].auction == a
          && s.stock.rows[i].product in s.stock.products
          && r == Ok(pulled.(stock := GivenBack(s.stock, i)))
      else r == Ok(pulled)
  {
    HeldExactlyWhenOwed(s, a);
    StockOf(s);
    ReleasesExactly(s.stock, a);
    hide Reachable, Holds, StockSound, Release, GivenBack;
    assert s.(stock := s.stock) == s;
  }

  lemma StockOf(s: State)
    requires Reachable(s)
    ensures StockSound(s.stock)
  {
    ReachableIsSound(s);
    StockIsSound(s);
  }

  // -------------------------------------------------------------------------
  // Stock
  // -------------------------------------------------------------------------

  /** A level is accepted exactly when it covers what is reserved, and only the level changes. */
  lemma RestocksExactly(s: State, p: ProductId, level: int)
    requires Reachable(s)
    ensures var r := SetStock(s.stock, p, level);
      if p !in s.stock.products then r == Err(NotFound)
      else if level < s.stock.products[p].reserved then r == Err(InsufficientInventory)
      else r == Ok(Stock(s.stock.products[p := Product(level, s.stock.products[p].reserved)], s.stock.rows))
  {
    StockOf(s);
    hide Reachable;
  }

  // -------------------------------------------------------------------------
  // The figures of a result
  // -------------------------------------------------------------------------

  /** The one bid placed on its amount. */
  predicate Alone(bids: seq<Bid>, a: AuctionId, i: BidId) {
    0 <= i < |bids| && bids[i].auction == a && PlacedAt(bids, a, bids[i].amountMinor) == {i}
  }

  /** The bids placed on one amount, as rows of the table. */
  function PlacedAt(bids: seq<Bid>, a: AuctionId, amount: int): set<BidId> {
    set i: BidId | 0 <= i < |bids| && bids[i].auction == a && bids[i].amountMinor == amount
  }

  lemma {:induction false} CountIsPlaced(bids: seq<Bid>, a: AuctionId, amount: int)
    ensures CountAt(FrozenLines(bids, a), amount) == |PlacedAt(bids, a, amount)|
    decreases |bids|
  {
    if bids != [] {
      var n := |bids| - 1;
      var front, last := bids[..n], bids[n];
      CountIsPlaced(front, a, amount);
      if last.auction == a && last.amountMinor == amount {
        assert PlacedAt(bids, a, amount) == PlacedAt(front, a, amount) + {n};
      } else {
        assert PlacedAt(bids, a, amount) == PlacedAt(front, a, amount);
      }
      var one := if last.auction == a then [Line(n, last.user, last.amountMinor)] else [];
      CountConcat(FrozenLines(front, a), one, amount);
      assert last.auction == a ==> one[..0] == [];
    }
  }

  lemma RowsOneMore(bids: seq<Bid>, a: AuctionId)
    requires bids != []
    ensures var n := |bids| - 1;
      |set i: BidId | 0 <= i < |bids| && bids[i].auction == a|
      == |set i: BidId | 0 <= i < |bids[..n]| && bids[..n][i].auction == a| + if bids[n].auction == a then 1 else 0
  {
    var n := |bids| - 1;
    var all := set i: BidId | 0 <= i < |bids| && bids[i].auction == a;
    var before := set i: BidId | 0 <= i < |bids[..n]| && bids[..n][i].auction == a;
    if bids[n].auction == a {
      assert all == before + {n};
    } else {
      assert all == before;
    }
  }

  lemma {:induction false} LinesArePlaced(bids: seq<Bid>, a: AuctionId)
    ensures |FrozenLines(bids, a)| == |set i: BidId | 0 <= i < |bids| && bids[i].auction == a|
    decreases |bids|
  {
    if bids != [] {
      var n := |bids| - 1;
      LinesArePlaced(bids[..n], a);
      RowsOneMore(bids, a);
    }
  }

  /**
   * Every stored figure is a count over the bid table itself: the bids, the
   * different bidders, and the amounts on which exactly one bid was placed.
   */
  lemma FiguresAreCounts(s: State, a: AuctionId)
    requires Reachable(s) && a in s.results
    ensures var figures := s.results[a].statistics;
      && figures.totalBids == figures.totalValidBids == |set i: BidId | 0 <= i < |s.bids| && s.bids[i].auction == a|
      && figures.participantCount == |set i: BidId | 0 <= i < |s.bids| && s.bids[i].auction == a :: s.bids[i].user|
      && figures.uniqueAmountCount
         == |set i: BidId | 0 <= i < |s.bids| && Alone(s.bids, a, i) :: s.bids[i].amountMinor|
  {
    hide Reachable, Inv, FrozenLines, Winner, CountAt, PlacedAt;
    ReachableIsSound(s);
    Settlement.ResultFacts(s, a);
    var lines := FrozenLines(s.bids, a);
    LinesAreBids(s.bids, a);
    LinesArePlaced(s.bids, a);
    BiddersAreUsers(s.bids, a);
    UniqueIsAlone(s.bids, a);
  }

  lemma BiddersAreUsers(bids: seq<Bid>, a: AuctionId)
    ensures Bidders(FrozenLines(bids, a)) == set i: BidId | 0 <= i < |bids| && bids[i].auction == a :: bids[i].user
  {
    hide FrozenLines;
    LinesAreBids(bids, a);
    var lines := FrozenLines(bids, a);
    var users := set i: BidId | 0 <= i < |bids| && bids[i].auction == a :: bids[i].user;
    forall u ensures u in Bidders(lines) <==> u in users {
      if u in users {
        var i: BidId :| 0 <= i < |bids| && bids[i].auction == a && bids[i].user == u;
        assert Line(i, u, bids[i].amountMinor) in lines;
      }
    }
  }

  lemma UniqueIsAlone(bids: seq<Bid>, a: AuctionId)
    ensures UniqueAmounts(FrozenLines(bids, a))
         == set i: BidId | 0 <= i < |bids| && Alone(bids, a, i) :: bids[i].amountMinor
  {
    hide FrozenLines, CountAt;
    LinesAreBids(bids, a);
    var lines := FrozenLines(bids, a);
    var alone := set i: BidId | 0 <= i < |bids| && Alone(bids, a, i) :: bids[i].amountMinor;
    forall x ensures x in UniqueAmounts(lines) <==> x in alone {
      CountIsPlaced(bids, a, x);
      if x in UniqueAmounts(lines) {
        var l :| l in lines && l.amountMinor == x;
        assert l.id in PlacedAt(bids, a, x);
        OnlyMember(PlacedAt(bids, a, x), l.id);
      }
      if x in alone {
        var i: BidId :| 0 <= i < |bids| && Alone(bids, a, i) && bids[i].amountMinor == x;
        assert Line(i, bids[i].user, x) in lines;
      }
    }
  }

  lemma OnlyMember(ids: set<BidId>, i: BidId)
    requires |ids| == 1 && i in ids
    ensures ids == {i}
  {
    assert |ids - {i}| == 0;
  }
}
