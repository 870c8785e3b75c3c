/** The bidding engine: one request is accepted whole, replayed, or refused without trace. */
module Bidding {
  import opened Common
  import opened Ledger
  import opened Auctions
  import opened Catalog
  import opened BidRules
  import opened Platform

  /** A request as it reaches the engine. `eligible` is the account check on the bidder. */
  datatype Submission = Submission(user: UserId, eligible: bool, auction: AuctionId, amounts: seq<int>, key: string)

  datatype Response = Response(bids: set<BidId>, answer: Snapshot, replayed: bool)

  // -------------------------------------------------------------------------
  // Request identity
  // -------------------------------------------------------------------------

  function Insert(x: int, sorted: seq<int>): seq<int> {
    if sorted == [] || x <= sorted[0] then [x] + sorted else [sorted[0]] + Insert(x, sorted[1..])
  }

  function SortAmounts(amounts: seq<int>): seq<int> {
    if amounts == [] then [] else Insert(amounts[0], SortAmounts(amounts[1..]))
  }

  function RequestOf(sub: Submission): Request {
    Request(sub.auction, sub.user, SortAmounts(sub.amounts))
  }

  // -------------------------------------------------------------------------
  // Checks
  // -------------------------------------------------------------------------

  /** Everything refused before the transaction starts. */
  function Precheck(s: State, sub: Submission): Option<Error> {
    if |sub.amounts| == 0 then Some(EmptyBatch)
    else if |sub.amounts| > MAX_BIDS_PER_REQUEST then Some(TooManyAmounts)
    else if exists i :: 0 <= i < |sub.amounts| && sub.amounts[i] <= 0 then Some(AmountInvalid)
    else if !Distinct(sub.amounts) then Some(DuplicateAmount)
    else if !sub.eligible then Some(BidderNotEligible)
    else if sub.auction !in s.auctions || s.auctions[sub.auction].status !in PUBLICLY_VISIBLE then Some(NotFound)
    else if s.auctions[sub.auction].status != Live then Some(AuctionNotLive)
    else BatchLadderError(s.auctions[sub.auction].terms, sub.amounts)
  }

  /** The ladder check, total over terms the configuration check would never have stored. */
  function BatchLadderError(t: Terms, amounts: seq<int>): Option<Error> {
    if t.increment <= 0 then Some(InvalidConfig) else LadderError(t, amounts)
  }

  datatype Claim = Claimed | Replay(snapshot: Snapshot) | Rejected(error: Error)

  /** Claim the key, or discover what it already answered. */
  function ClaimKey(keys: map<string, KeyRow>, sub: Submission): Claim {
    if sub.key !in keys then Claimed
    else
      var row := keys[sub.key];
      if row.user != sub.user || row.request != RequestOf(sub) then Rejected(IdempotencyConflict)
      else if row.snapshot.Some? then Replay(row.snapshot.value)
      else Rejected(IdempotencyInProgress)
  }

  predicate AlreadyHolds(bids: seq<Bid>, a: AuctionId, u: UserId, amounts: seq<int>) {
    exists i :: 0 <= i < |bids| && bids[i].auction == a && bids[i].user == u && bids[i].amountMinor in amounts
  }

  /** Everything decided under the auction lock, in order, up to the insert. */
  function LockedCheck(s: State, sub: Submission): Option<Error>
    requires sub.auction in s.auctions
  {
    var row := s.auctions[sub.auction];
    if row.status != Live then Some(AuctionNotLive)
    else if s.now < row.terms.startsAt then Some(AuctionNotStarted)
    else if s.now >= row.terms.endsAt then Some(AuctionEnded)
    else if BatchLadderError(row.terms, sub.amounts).Some? then BatchLadderError(row.terms, sub.amounts)
    else if !Holds(s.stock, sub.auction) then Some(AuctionNotLive)
    else if SeatOf(s.participants, Seat(sub.auction, sub.user)).bidCount + |sub.amounts| > row.terms.maxBidsPerUser
      then Some(BidLimitExceeded)
    else if AlreadyHolds(s.bids, sub.auction, sub.user, sub.amounts) then Some(DuplicateAmount)
    else None
  }

  // -------------------------------------------------------------------------
  // Effects
  // -------------------------------------------------------------------------

  function WalletFor(s: State, sub: Submission): WalletId
    requires sub.auction in s.auctions
  {
    WalletId(sub.user, s.auctions[sub.auction].currency)
  }

  function Fee(s: State, sub: Submission): int
    requires sub.auction in s.auctions
  {
    s.auctions[sub.auction].terms.bidFee * |sub.amounts|
  }

  function FeeMovement(s: State, sub: Submission): Movement
    requires sub.auction in s.auctions
  {
    Movement(Fee(s, sub), Some(s.auctions[sub.auction].currency), BidFee, Some(sub.auction), Some(BidFeeKey(sub.key)))
  }

  /** The accounts after the fee, the entry that booked it, and the balance to report. */
  datatype Charge = Charge(accounts: map<WalletId, Account>, entry: Option<int>, balance: int)

  function ChargeFee(s: State, sub: Submission): Result<Charge>
    requires sub.auction in s.auctions
  {
    var w := WalletFor(s, sub);
    var acc := Get(s.accounts, w);
    if Fee(s, sub) == 0 then Ok(Charge(Ensured(s.accounts, w), None, acc.available))
    else
      match Apply(acc, w, FeeMovement(s, sub))
      case Err(e) => Err(e)
      case Ok((acc', receipt)) => Ok(Charge(s.accounts[w := acc'], Some(receipt.seqNo), receipt.balanceAfter))
  }

  function Batch(sub: Submission, fee: int, entry: Option<int>): seq<Bid> {
    seq(|sub.amounts|, i requires 0 <= i < |sub.amounts| =>
      Bid(sub.auction, sub.user, sub.amounts[i], fee, sub.key, entry))
  }

  function AnswerOf(s: State, sub: Submission, charge: Charge): Snapshot
    requires sub.auction in s.auctions
  {
    var row := s.auctions[sub.auction];
    var seat := Seat(sub.auction, sub.user);
    var count := SeatOf(s.participants, seat).bidCount + |sub.amounts|;
    Snapshot(
      |s.bids|, |sub.amounts|, Fee(s, sub), count,
      if row.terms.maxBidsPerUser - count > 0 then row.terms.maxBidsPerUser - count else 0,
      charge.balance, s.now,
      row.totalBids + |sub.amounts|,
      row.totalParticipants + if seat in s.participants then 0 else 1)
  }

  /** The committed batch: bids, counters, fee and stored answer together. */
  function Accepted(s: State, sub: Submission, charge: Charge): State
    requires sub.auction in s.auctions
  {
    var row := s.auctions[sub.auction];
    var seat := Seat(sub.auction, sub.user);
    var was := SeatOf(s.participants, seat);
    var answer := AnswerOf(s, sub, charge);
    s.(
      bids := s.bids + Batch(sub, row.terms.bidFee, charge.entry),
      participants := s.participants[seat := Participant(answer.bidCount, was.totalFees + Fee(s, sub))],
      auctions := s.auctions[sub.auction :=
        row.(totalBids := answer.totalBids, totalParticipants := answer.totalParticipants)],
      accounts := charge.accounts,
      keys := s.keys[sub.key := KeyRow(sub.user, RequestOf(sub), Some(answer))])
  }

  /** The bids a key produced, as the replay reads them back. */
  function BidsByKey(bids: seq<Bid>, a: AuctionId, u: UserId, key: string): set<BidId> {
    set i: BidId | 0 <= i < |bids| && bids[i].auction == a && bids[i].user == u && bids[i].key == key
  }

  /** `count` consecutive identifiers. */
  function IdRange(first: nat, count: nat): (r: set<BidId>)
    ensures forall i :: i in r <==> first <= i < first + count
    ensures |r| == count
  {
    if count == 0 then {} else IdRange(first, count - 1) + {first + count - 1}
  }

  /** One submission, start to finish. */
  function SubmitBids(s: State, sub: Submission): Result<(State, Response)> {
    var refused := Precheck(s, sub);
    if refused.Some? then Err(refused.value)
    else
      match ClaimKey(s.keys, sub)
      case Rejected(e) => Err(e)
      case Replay(answer) => Ok((s, Response(BidsByKey(s.bids, sub.auction, sub.user, sub.key), answer, true)))
      case Claimed =>
        if sub.auction !in s.auctions then Err(NotFound)
        else
          var locked := LockedCheck(s, sub);
          if locked.Some? then Err(locked.value)
          else
            match ChargeFee(s, sub)
            case Err(e) => Err(e)
            case Ok(charge) =>
              Ok((Accepted(s, sub, charge), Response(IdRange(|s.bids|, |sub.amounts|), AnswerOf(s, sub, charge), false)))
  }

  predicate Accepts(s: State, sub: Submission) {
    SubmitBids(s, sub).Ok? && !SubmitBids(s, sub).value.1.replayed
  }
}
