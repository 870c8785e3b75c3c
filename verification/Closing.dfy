/** Deciding an auction, paying fees back, and checking a published result. */
module Closing {
  import opened Common
  import opened Ledger
  import opened Auctions
  import opened Catalog
  import opened Lub
  import opened Platform
  import opened Lifecycle

  // -------------------------------------------------------------------------
  // T1: closing -> calculating
  // -------------------------------------------------------------------------

  function LoadClosable(s: State, a: AuctionId): Result<Auction> {
    if a !in s.auctions then Err(ResultNotFound)
    else if s.auctions[a].status !in CLOSABLE then Err(AuctionNotClosed)
    else Ok(s.auctions[a])
  }

  function Calculated(s: State, row: Auction): Auction {
    row.(status := Calculating, closedAt := Some(if row.closingAt.Some? then row.closingAt.value else s.now))
  }

  function BeginResult(s: State, a: AuctionId): Result<State> {
    match LoadClosable(s, a)
    case Err(e) => Err(e)
    case Ok(row) => if row.status == Closing then Ok(SetAuction(s, a, Calculated(s, row))) else Ok(s)
  }

  // -------------------------------------------------------------------------
  // T2: the decision
  // -------------------------------------------------------------------------

  /** The row this attempt would insert: one reading of one frozen set. */
  function ComputedResult(bids: seq<Bid>, a: AuctionId, cancelled: bool): ResultRow {
    var lines := FrozenLines(bids, a);
    var winner := if cancelled then None else Winner(lines);
    ResultRow(
      DecideOutcome(cancelled, CountFrozenBids(lines), winner.Some?),
      if winner.Some? then Some(winner.value.id) else None,
      if winner.Some? then Some(winner.value.user) else None,
      if winner.Some? then Some(winner.value.amountMinor) else None,
      CountFrozenBids(lines),
      lines)
  }

  /** Insert, or read back the result that is already there. */
  function StoredResult(s: State, a: AuctionId): ResultRow
    requires a in s.auctions
  {
    if a in s.results then s.results[a] else ComputedResult(s.bids, a, s.auctions[a].status == Cancelled)
  }

  function OrderOf(row: Auction, result: ResultRow): Order
    requires result.winner.Some? && result.winningAmount.Some?
  {
    Order(result.winner.value, row.product, row.currency, result.winningAmount.value)
  }

  /** The order for a winner, the unit back on the shelf for everyone else. */
  function Consequences(s: State, a: AuctionId, row: Auction, result: ResultRow): Result<State> {
    if result.outcome != HasWinner then
      match Release(s.stock, a)
      case Err(e) => Err(e)
      case Ok(stock) => Ok(s.(stock := stock))
    else if result.winner.None? || result.winningAmount.None? then Err(ResultNotFound)
    else if a in s.orders then Ok(s)
    else Ok(s.(orders := s.orders[a := OrderOf(row, result)]))
  }

  function Decide(s: State, a: AuctionId): Result<State> {
    match LoadClosable(s, a)
    case Err(e) => Err(e)
    case Ok(row) =>
      var result := StoredResult(s, a);
      match Consequences(s.(results := s.results[a := result]), a, row, result)
      case Err(e) => Err(e)
      case Ok(s') =>
        if row.status == Cancelled then Ok(s') else PlainTransition(s', a, Complete)
  }

  // -------------------------------------------------------------------------
  // T3+: refunds, one wallet a transaction
  // -------------------------------------------------------------------------

  predicate Refundable(s: State, a: AuctionId) {
    a in s.results && s.results[a].outcome in {NoUniqueBid, WasCancelled}
  }

  predicate IsPayer(s: State, a: AuctionId, u: UserId) {
    Seat(a, u) in s.participants && s.participants[Seat(a, u)].totalFees > 0
  }

  /** Refunds name no currency, so they are booked in the default one. */
  const DEFAULT_CURRENCY := ETB

  function RefundWallet(u: UserId): WalletId {
    WalletId(u, DEFAULT_CURRENCY)
  }

  function RefundMovement(s: State, a: AuctionId, u: UserId): Movement {
    Movement(SeatOf(s.participants, Seat(a, u)).totalFees, None, BidFeeRefund, Some(a), Some(RefundKey(a, u)))
  }

  function RefundOne(s: State, a: AuctionId, u: UserId): (State, Result<Receipt>) {
    var (accounts, r) := Posted(s.accounts, RefundWallet(u), RefundMovement(s, a, u));
    (s.(accounts := accounts), r)
  }

  // -------------------------------------------------------------------------
  // Verification of a published result
  // -------------------------------------------------------------------------

  /** No field of the stored row disagrees with a recomputation. */
  predicate ResultHolds(s: State, a: AuctionId)
    requires a in s.results
  {
    var stored := s.results[a];
    var again := ComputedResult(s.bids, a, stored.outcome == WasCancelled);
    && stored.checksum == again.checksum
    && stored.winningBid == again.winningBid
    && stored.winningAmount == again.winningAmount
    && stored.statistics == again.statistics
  }
}
