/**
 * The database as one value: every table the engine reads or writes. Each
 * transaction of the services is a function from a state to a refusal or a new
 * state, so a refused transaction leaves no trace.
 */
module Platform {
  import opened Common
  import opened Ledger
  import opened Auctions
  import opened Catalog
  import opened Lub

  /**
   * A bid row. Its identifier is its position in the table. `entry` is the
   * sequence number of the wallet entry that paid for it, when the fee is not zero.
   */
  datatype Bid = Bid(auction: AuctionId, user: UserId, amountMinor: int, feeMinor: int, key: string, entry: Option<int>)

  datatype Seat = Seat(auction: AuctionId, user: UserId)

  datatype Participant = Participant(bidCount: int, totalFees: int)

  /** What a request hash identifies: the auction, the user and the sorted amounts. */
  datatype Request = Request(auction: AuctionId, user: UserId, sortedAmounts: seq<int>)

  /** The stored answer. The batch is the `count` bids starting at `firstBid`. */
  datatype Snapshot = Snapshot(
    firstBid: nat,
    count: nat,
    totalFee: int,
    bidCount: int,
    bidsRemaining: int,
    balance: int,
    submittedAt: int,
    totalBids: int,
    totalParticipants: int)

  /** A key row; `snapshot` is absent while the claiming transaction is still open. */
  datatype KeyRow = KeyRow(user: UserId, request: Request, snapshot: Option<Snapshot>)

  /**
   * A result row. The checksum is an injective digest of the canonical lines,
   * so the lines themselves stand for it.
   */
  datatype ResultRow = ResultRow(
    outcome: Outcome,
    winningBid: Option<BidId>,
    winner: Option<UserId>,
    winningAmount: Option<int>,
    statistics: Statistics,
    checksum: seq<Line>)

  datatype Order = Order(user: UserId, product: ProductId, currency: Currency, total: int)

  datatype State = State(
    now: int,
    stock: Stock,
    auctions: map<AuctionId, Auction>,
    bids: seq<Bid>,
    participants: map<Seat, Participant>,
    keys: map<string, KeyRow>,
    accounts: map<WalletId, Account>,
    results: map<AuctionId, ResultRow>,
    orders: map<AuctionId, Order>)

  const Empty := State(0, Stock(map[], []), map[], [], map[], map[], map[], map[], map[])

  function SetAuction(s: State, a: AuctionId, row: Auction): State {
    s.(auctions := s.auctions[a := row])
  }

  /** The valid bids of one auction in identifier order: what is counted, hashed and decided. */
  function FrozenLines(bids: seq<Bid>, a: AuctionId): seq<Line> {
    if bids == [] then []
    else
      var n := |bids| - 1;
      FrozenLines(bids[..n], a)
      + if bids[n].auction == a then [Line(n, bids[n].user, bids[n].amountMinor)] else []
  }

  function SeatOf(participants: map<Seat, Participant>, seat: Seat): Participant {
    if seat in participants then participants[seat] else Participant(0, 0)
  }
}
