/** Why a submission is refused, in every reachable state: each refusal names something the tables show. */
module Refusals {
  import opened Common
  import opened Ledger
  import opened Auctions
  import opened Catalog
  import opened BidRules
  import opened Platform
  import opened Bidding
  import opened Invariants
  import opened LifecycleKeeps
  import opened BiddingKeeps
  import opened Runs
  import opened Records
  import opened Retry

  /** Same user, same auction, same amounts in whatever order. */
  predicate SameAsStored(row: KeyRow, sub: Submission) {
    && row.user == sub.user && row.request.auction == sub.auction
    && multiset(row.request.sortedAmounts) == multiset(sub.amounts)
  }

  predicate IsLive(s: State, a: AuctionId) {
    a in s.auctions && s.auctions[a].status == Live
  }

  /** What must be so for this refusal to be given. The refusals missing here are never given. */
  predicate Cause(s: State, sub: Submission, error: Error) {
    match error
    case EmptyBatch => |sub.amounts| == 0
    case TooManyAmounts => |sub.amounts| > 100
    case AmountInvalid => exists x :: x in sub.amounts && x <= 0
    case DuplicateAmount =>
      || (exists i, j :: 0 <= i < j < |sub.amounts| && sub.amounts[i] == sub.amounts[j])
      || (exists i :: 0 <= i < |s.bids| && s.bids[i].auction == sub.auction && s.bids[i].user == sub.user
                      && s.bids[i].amountMinor in sub.amounts)
    case BidderNotEligible => !sub.eligible
    case NotFound =>
      sub.auction !in s.auctions || s.auctions[sub.auction].status in {Draft, PendingApproval, Cancelled, Suspended}
    case AuctionNotLive =>
      sub.auction in s.auctions && s.auctions[sub.auction].status in {Scheduled, Closing, Calculating, Completed}
    case AuctionEnded =>
      IsLive(s, sub.auction) && s.auctions[sub.auction].terms.endsAt <= s.now
    case AmountOutOfRange =>
      IsLive(s, sub.auction)
      && var t := s.auctions[sub.auction].terms;
         exists x :: x in sub.amounts && !(t.minBid <= x <= t.maxBid)
    case AmountNotAligned =>
      IsLive(s, sub.auction)
      && var t := s.auctions[sub.auction].terms;
         t.increment > 0 && exists x :: x in sub.amounts && (x - t.minBid) % t.increment != 0
    case IdempotencyConflict => sub.key in s.keys && !SameAsStored(s.keys[sub.key], sub)
    case BidLimitExceeded =>
      sub.auction in s.auctions
      && CountSeat(s.bids, Seat(sub.auction, sub.user)) + |sub.amounts| > s.auctions[sub.auction].terms.maxBidsPerUser
    case WalletFrozen =>
      sub.auction in s.auctions && Get(s.accounts, WalletId(sub.user, s.auctions[sub.auction].currency)).frozen
      && s.auctions[sub.auction].terms.bidFee > 0
    case InsufficientFunds =>
      sub.auction in s.auctions
      && Get(s.accounts, WalletId(sub.user, s.auctions[sub.auction].currency)).available
         < s.auctions[sub.auction].terms.bidFee * |sub.amounts|
    case _ => false
  }

  lemma LadderCause(t: Terms, amounts: seq<int>)
    requires t.increment > 0
    ensures LadderError(t, amounts) in {None, Some(AmountOutOfRange), Some(AmountNotAligned)}
    ensures LadderError(t, amounts) == Some(AmountOutOfRange) ==>
      exists x :: x in amounts && !(t.minBid <= x <= t.maxBid)
    ensures LadderError(t, amounts) == Some(AmountNotAligned) ==>
      exists x :: x in amounts && (x - t.minBid) % t.increment != 0
  {
    var r := LadderError(t, amounts);
    if r.Some? {
      var i :| 0 <= i < |amounts| && !OnLadder(t, amounts[i]) && r == AmountError(t, amounts[i])
        && forall j :: 0 <= j < i ==> OnLadder(t, amounts[j]);
      assert amounts[i] in amounts;
    }
  }

  lemma StepIsPositive(s: State, a: AuctionId)
    requires Reachable(s) && a in s.auctions
    ensures s.auctions[a].terms.increment > 0
  {
    hide Reachable, Inv, Holds, StockSound;
    ReachableIsSound(s);
    Here(s, a);
  }

  /** The checks on the request alone. */
  predicate WellFormed(sub: Submission) {
    && 1 <= |sub.amounts| <= 100
    && (forall i :: 0 <= i < |sub.amounts| ==> sub.amounts[i] > 0)
    && Distinct(sub.amounts) && sub.eligible
  }

  lemma MalformedCause(s: State, sub: Submission)
    requires !WellFormed(sub)
    ensures Precheck(s, sub).Some? && Cause(s, sub, Precheck(s, sub).value)
  {
    hide BatchLadderError;
    if i: nat :| i < |sub.amounts| && sub.amounts[i] <= 0 {
      assert sub.amounts[i] in sub.amounts;
    }
  }

  lemma WellFormedCause(s: State, sub: Submission)
    requires WellFormed(sub) && Precheck(s, sub).Some?
    requires sub.auction in s.auctions ==> s.auctions[sub.auction].terms.increment > 0
    ensures Cause(s, sub, Precheck(s, sub).value)
  {
    hide Distinct, LadderError;
    if sub.auction in s.auctions {
      ShownOrHidden(s.auctions[sub.auction].status);
      LadderCause(s.auctions[sub.auction].terms, sub.amounts);
    }
  }

  lemma PrecheckCause(s: State, sub: Submission)
    requires Reachable(s) && Precheck(s, sub).Some?
    ensures Cause(s, sub, Precheck(s, sub).value)
  {
    hide Reachable, Precheck, Cause, WellFormed;
    if sub.auction in s.auctions {
      StepIsPositive(s, sub.auction);
    }
    if WellFormed(sub) {
      WellFormedCause(s, sub);
    } else {
      MalformedCause(s, sub);
    }
  }

  /** Every stored request is complete, so a second copy never finds one still in progress. */
  lemma ClaimCause(s: State, sub: Submission)
    requires Reachable(s) && ClaimKey(s.keys, sub).Rejected?
    ensures Cause(s, sub, ClaimKey(s.keys, sub).error)
  {
    hide Reachable, Inv, SortAmounts;
    ReachableIsSound(s);
    KeyFacts(s, sub.key);
    var row := s.keys[sub.key];
    var answer := row.snapshot.value;
    if SameAsStored(row, sub) {
      var placed := AmountsOf(s.bids, answer.firstBid, answer.count);
      SortSorts(placed);
      SortSorts(sub.amounts);
      SortedIsUnique(row.request.sortedAmounts, SortAmounts(sub.amounts));
    }
  }

  lemma LockedCause(s: State, sub: Submission)
    requires Reachable(s) && Precheck(s, sub).None? && sub.auction in s.auctions && LockedCheck(s, sub).Some?
    ensures Cause(s, sub, LockedCheck(s, sub).value)
  {
    LiveIsReserved(s, sub);
    SeatsMatchRows(s, Seat(sub.auction, sub.user));
    ClockIsRespected(s, sub.auction);
    hide Reachable, Holds, LadderError, Distinct, CountSeat, FeeSum, FrozenLines, BatchLadderError;
    assert s.auctions[sub.auction].status == Live;
  }

  lemma ChargeCause(s: State, sub: Submission)
    requires Reachable(s) && |sub.amounts| > 0 && sub.auction in s.auctions && sub.key !in s.keys
    requires ChargeFee(s, sub).Err?
    ensures Cause(s, sub, ChargeFee(s, sub).error)
  {
    hide Reachable, Inv, EntriesSound, LedgersSound;
    ReachableIsSound(s);
    Here(s, sub.auction);
    MoneyIsSound(s);
    FeeKeyIsFresh(s, sub);
    FeeSign(s, sub);
  }

  /**
   * In every reachable state each refusal is true of the tables, and no refusal
   * for a missing reservation, a key in progress, an auction live before its
   * start, unsound terms or the wrong currency is ever given.
   */
  lemma RefusalTellsTheCause(s: State, sub: Submission)
    requires Reachable(s) && SubmitBids(s, sub).Err?
    ensures Cause(s, sub, SubmitBids(s, sub).error)
  {
    hide Reachable, Cause, LockedCheck, ChargeFee, Accepted, AnswerOf, IdRange, BatchLadderError, Distinct;
    if Precheck(s, sub).Some? {
      PrecheckCause(s, sub);
    } else if ClaimKey(s.keys, sub).Rejected? {
      ClaimCause(s, sub);
    } else if LockedCheck(s, sub).Some? {
      LockedCause(s, sub);
    } else {
      ChargeCause(s, sub);
    }
  }
}
