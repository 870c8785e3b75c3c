/** What every reachable state of the platform satisfies, table by table. */
module Invariants {
  import opened Common
  import opened Ledger
  import opened Auctions
  import opened Catalog
  import opened BidRules
  import opened Lub
  import opened Platform
  import opened Bidding
  import opened Closing

  // -------------------------------------------------------------------------
  // Aggregates over the bid table and the ledger
  // -------------------------------------------------------------------------

  predicate AtSeat(b: Bid, seat: Seat) {
    b.auction == seat.auction && b.user == seat.user
  }

  /** How many bids one user has in one auction. */
  function CountSeat(bids: seq<Bid>, seat: Seat): nat {
    if bids == [] then 0
    else CountSeat(bids[..|bids| - 1], seat) + if AtSeat(bids[|bids| - 1], seat) then 1 else 0
  }

  /** What those bids cost. */
  function FeeSum(bids: seq<Bid>, seat: Seat): int {
    if bids == [] then 0
    else FeeSum(bids[..|bids| - 1], seat) + if AtSeat(bids[|bids| - 1], seat) then bids[|bids| - 1].feeMinor else 0
  }

  function UsersIn(participants: map<Seat, Participant>, a: AuctionId): set<UserId> {
    set seat | seat in participants && seat.auction == a :: seat.user
  }

  /** The signed amounts one type of entry booked against one auction. */
  function BookedFor(entries: seq<Entry>, kind: EntryType, a: AuctionId): int {
    if entries == [] then 0
    else
      var last := entries[|entries| - 1];
      BookedFor(entries[..|entries| - 1], kind, a)
      + if last.kind == kind && last.reference == Some(a) then last.amountMinor else 0
  }

  function AmountsOf(bids: seq<Bid>, first: nat, count: nat): seq<int>
    requires first + count <= |bids|
  {
    seq(count, i requires 0 <= i < count => bids[first + i].amountMinor)
  }

  // -------------------------------------------------------------------------
  // The invariants
  // -------------------------------------------------------------------------

  ghost predicate LedgersSound(accounts: map<WalletId, Account>) {
    forall w :: w in accounts ==> Sound(accounts[w])
  }

  /** Terms are valid, a suspension can be lifted and leaves no mark, nothing is live early, and closing follows the deadline. */
  ghost predicate AuctionSound(row: Auction, now: int) {
    && ValidConfig(row.terms)
    && (row.status == Suspended ==> row.suspendedFrom.Some? && row.suspendedFrom.value in RESUMABLE)
    && (row.status !in {Suspended, Cancelled} ==> row.suspendedFrom.None?)
    && (Underlying(row) == Live ==> row.terms.startsAt <= now)
    && (row.status in {Closing, Calculating, Completed} ==>
          row.closingAt.Some? && row.terms.endsAt <= row.closingAt.value <= now)
    && (row.status in {Calculating, Completed} ==> row.closedAt == row.closingAt)
  }

  ghost predicate AuctionsSound(auctions: map<AuctionId, Auction>, now: int) {
    forall a :: a in auctions ==> AuctionSound(auctions[a], now)
  }

  /** A participant row agrees with the user's bid rows and with the terms. */
  ghost predicate SeatSound(
      auctions: map<AuctionId, Auction>, bids: seq<Bid>, participants: map<Seat, Participant>, seat: Seat)
    requires seat in participants
  {
    && seat.auction in auctions
    && participants[seat].bidCount == CountSeat(bids, seat) > 0
    && participants[seat].totalFees == auctions[seat.auction].terms.bidFee * participants[seat].bidCount
    && participants[seat].bidCount <= auctions[seat.auction].terms.maxBidsPerUser
  }

  ghost predicate SeatsSound(auctions: map<AuctionId, Auction>, bids: seq<Bid>, participants: map<Seat, Participant>) {
    forall seat :: seat in participants ==> SeatSound(auctions, bids, participants, seat)
  }

  ghost predicate BidSound(auctions: map<AuctionId, Auction>, participants: map<Seat, Participant>, b: Bid) {
    && b.auction in auctions
    && Seat(b.auction, b.user) in participants
    && b.feeMinor == auctions[b.auction].terms.bidFee
    && auctions[b.auction].terms.increment > 0
    && OnLadder(auctions[b.auction].terms, b.amountMinor)
  }

  ghost predicate BidsSound(auctions: map<AuctionId, Auction>, bids: seq<Bid>, participants: map<Seat, Participant>) {
    forall i :: 0 <= i < |bids| ==> BidSound(auctions, participants, bids[i])
  }

  /** The duplicate rule: one bid per auction, user and amount. */
  ghost predicate NoDuplicates(bids: seq<Bid>) {
    forall i, j :: 0 <= i < j < |bids| && bids[i].auction == bids[j].auction && bids[i].user == bids[j].user
      ==> bids[i].amountMinor != bids[j].amountMinor
  }

  /** The live counters equal a recount of the rows. */
  ghost predicate TotalsSound(auctions: map<AuctionId, Auction>, bids: seq<Bid>, participants: map<Seat, Participant>) {
    forall a :: a in auctions ==>
      && auctions[a].totalBids == |FrozenLines(bids, a)|
      && auctions[a].totalParticipants == |UsersIn(participants, a)|
  }

  const AFTER_OPENING := {Live, Closing, Calculating, Completed, Cancelled}

  /** Nobody has bid in an auction that could still be edited. */
  ghost predicate StatusesSound(auctions: map<AuctionId, Auction>, participants: map<Seat, Participant>) {
    forall seat :: seat in participants ==>
      seat.auction in auctions && Underlying(auctions[seat.auction]) in AFTER_OPENING
  }

  /** When an auction is owed a held unit. */
  ghost predicate OwedUnit(auctions: map<AuctionId, Auction>, results: map<AuctionId, ResultRow>, a: AuctionId) {
    && a in auctions
    && (|| Underlying(auctions[a]) in {Live, Closing, Calculating}
        || (auctions[a].status == Completed && a in results && results[a].outcome == HasWinner))
  }

  ghost predicate HoldsSound(stock: Stock, auctions: map<AuctionId, Auction>, results: map<AuctionId, ResultRow>) {
    && StockSound(stock)
    && (forall a :: Holds(stock, a) <==> OwedUnit(auctions, results, a))
    && (forall a :: a in auctions ==> auctions[a].product in stock.products)
  }

  /** A stored result is the recomputation, on a terminal auction. */
  ghost predicate ResultsSound(auctions: map<AuctionId, Auction>, bids: seq<Bid>, results: map<AuctionId, ResultRow>) {
    && (forall a :: a in results ==>
          && a in auctions
          && auctions[a].status in {Completed, Cancelled}
          && results[a] == ComputedResult(bids, a, auctions[a].status == Cancelled))
    && (forall a :: a in auctions && auctions[a].status == Completed ==> a in results)
  }

  /** An order exists exactly when there is a winner, and carries that winner and amount. */
  ghost predicate OrdersSound(
      auctions: map<AuctionId, Auction>, results: map<AuctionId, ResultRow>, orders: map<AuctionId, Order>)
  {
    && (forall a :: a in orders <==> a in results && results[a].outcome == HasWinner)
    && (forall a :: a in orders ==>
          && a in auctions
          && results[a].winner.Some? && results[a].winningAmount.Some?
          && orders[a] == OrderOf(auctions[a], results[a]))
  }

  /** A stored answer describes exactly the bids that carry its key, placed inside the window. */
  ghost predicate AnswerSound(auctions: map<AuctionId, Auction>, bids: seq<Bid>, now: int, key: string, row: KeyRow) {
    && row.snapshot.Some?
    && row.user == row.request.user
    && row.request.auction in auctions
    && var answer := row.snapshot.value;
       var terms := auctions[row.request.auction].terms;
       && answer.count > 0
       && answer.firstBid + answer.count <= |bids|
       && answer.totalFee == terms.bidFee * answer.count
       && terms.startsAt <= answer.submittedAt < terms.endsAt
       && answer.submittedAt <= now
       && (forall i :: 0 <= i < |bids| ==> (bids[i].key == key <==> answer.firstBid <= i < answer.firstBid + answer.count))
       && (forall i :: answer.firstBid <= i < answer.firstBid + answer.count ==>
             AtSeat(bids[i], Seat(row.request.auction, row.user)))
       && SortAmounts(AmountsOf(bids, answer.firstBid, answer.count)) == row.request.sortedAmounts
  }

  ghost predicate KeysSound(auctions: map<AuctionId, Auction>, bids: seq<Bid>, now: int, keys: map<string, KeyRow>) {
    && (forall k :: k in keys ==> AnswerSound(auctions, bids, now, k, keys[k]))
    && (forall i :: 0 <= i < |bids| ==> bids[i].key in keys)
  }

  /** A fee entry is one accepted batch's fee; a refund entry is one payer's whole fee. */
  ghost predicate EntrySound(s: State, w: WalletId, e: Entry) {
    && (e.kind == BidFee <==> e.key.Some? && e.key.value.BidFeeKey?)
    && (e.kind == BidFeeRefund <==> e.key.Some? && e.key.value.RefundKey?)
    && (e.kind == BidFee ==>
          var k := e.key.value.request;
          && k in s.keys && s.keys[k].snapshot.Some?
          && s.keys[k].request.auction in s.auctions
          && e.reference == Some(s.keys[k].request.auction)
          && w == WalletId(s.keys[k].user, s.auctions[s.keys[k].request.auction].currency)
          && e.amountMinor == -s.keys[k].snapshot.value.totalFee)
    && (e.kind == BidFeeRefund ==>
          var a, u := e.key.value.auction, e.key.value.user;
          && w == RefundWallet(u)
          && e.reference == Some(a)
          && Refundable(s, a)
          && IsPayer(s, a, u)
          && e.amountMinor == s.participants[Seat(a, u)].totalFees)
  }

  ghost predicate EntriesSound(s: State) {
    forall w, i :: w in s.accounts && 0 <= i < |s.accounts[w].entries| ==> EntrySound(s, w, s.accounts[w].entries[i])
  }

  function FeeWallet(auctions: map<AuctionId, Auction>, seat: Seat): WalletId
    requires seat.auction in auctions
  {
    WalletId(seat.user, auctions[seat.auction].currency)
  }

  /** Everything a participant was charged is in their wallet's ledger. */
  ghost predicate ChargesSound(
      auctions: map<AuctionId, Auction>, participants: map<Seat, Participant>, accounts: map<WalletId, Account>)
  {
    forall seat :: seat in participants && seat.auction in auctions ==>
      BookedFor(Get(accounts, FeeWallet(auctions, seat)).entries, BidFee, seat.auction) == -participants[seat].totalFees
  }

  /** Each bid points at the entry that paid for its batch, unless bidding was free. */
  ghost predicate PaidBySound(auctions: map<AuctionId, Auction>, accounts: map<WalletId, Account>, b: Bid) {
    && b.auction in auctions
    && if b.feeMinor == 0 then b.entry == None
       else
         && b.entry.Some?
         && var entries := Get(accounts, WalletId(b.user, auctions[b.auction].currency)).entries;
            1 <= b.entry.value <= |entries| && entries[b.entry.value - 1].key == Some(BidFeeKey(b.key))
  }

  ghost predicate PaymentsSound(auctions: map<AuctionId, Auction>, bids: seq<Bid>, accounts: map<WalletId, Account>) {
    forall i :: 0 <= i < |bids| ==> PaidBySound(auctions, accounts, bids[i])
  }

  ghost predicate Inv(s: State) {
    && LedgersSound(s.accounts)
    && AuctionsSound(s.auctions, s.now)
    && SeatsSound(s.auctions, s.bids, s.participants)
    && BidsSound(s.auctions, s.bids, s.participants)
    && NoDuplicates(s.bids)
    && TotalsSound(s.auctions, s.bids, s.participants)
    && StatusesSound(s.auctions, s.participants)
    && HoldsSound(s.stock, s.auctions, s.results)
    && ResultsSound(s.auctions, s.bids, s.results)
    && OrdersSound(s.auctions, s.results, s.orders)
    && KeysSound(s.auctions, s.bids, s.now, s.keys)
    && EntriesSound(s)
    && ChargesSound(s.auctions, s.participants, s.accounts)
    && PaymentsSound(s.auctions, s.bids, s.accounts)
  }

  lemma EmptyIsSound()
    ensures Inv(Empty)
  {
  }
}
