/**
 * The redundant records agree in every reachable state: counters with rows,
 * fees with bids, batches with the entries that paid for them, reservations
 * with statuses.
 */
module Records {
  import opened Common
  import opened Ledger
  import opened Auctions
  import opened Catalog
  import opened BidRules
  import opened Lub
  import opened Platform
  import opened Lifecycle
  import opened Bidding
  import opened Closing
  import opened Invariants
  import opened LifecycleKeeps
  import opened BiddingKeeps
  import opened Runs

  // -------------------------------------------------------------------------
  // Counters and rows
  // -------------------------------------------------------------------------

  /** `recountAuction`: the totals as the bid rows have them. */
  function Recount(bids: seq<Bid>, a: AuctionId): (int, int) {
    (|FrozenLines(bids, a)|, |Bidders(FrozenLines(bids, a))|)
  }

  predicate LineOf(bids: seq<Bid>, a: AuctionId, l: Line) {
    l.id < |bids| && bids[l.id].auction == a && l.user == bids[l.id].user && l.amountMinor == bids[l.id].amountMinor
  }

  lemma {:induction false} LinesAreBids(bids: seq<Bid>, a: AuctionId)
    ensures forall l :: l in FrozenLines(bids, a) <==> LineOf(bids, a, l)
    decreases |bids|
  {
    if bids != [] {
      LinesAreBids(bids[..|bids| - 1], a);
    }
  }

  lemma {:induction false} CountedSomewhere(bids: seq<Bid>, seat: Seat)
    ensures CountSeat(bids, seat) > 0 ==> exists i :: 0 <= i < |bids| && AtSeat(bids[i], seat)
    decreases |bids|
  {
    if bids != [] {
      CountedSomewhere(bids[..|bids| - 1], seat);
    }
  }

  /** The distinct bidders among the rows are the users with a participant row. */
  lemma BiddersAreParticipants(s: State, a: AuctionId)
    requires SeatsSound(s.auctions, s.bids, s.participants) && BidsSound(s.auctions, s.bids, s.participants)
    ensures Bidders(FrozenLines(s.bids, a)) == UsersIn(s.participants, a)
  {
    LinesAreBids(s.bids, a);
    var lines := FrozenLines(s.bids, a);
    forall u ensures u in Bidders(lines) <==> u in UsersIn(s.participants, a) {
      if u in Bidders(lines) {
        var l :| l in lines && l.user == u;
        assert BidSound(s.auctions, s.participants, s.bids[l.id]);
        assert Seat(a, u) in s.participants;
      }
      if u in UsersIn(s.participants, a) {
        assert Seat(a, u) in s.participants;
        assert SeatSound(s.auctions, s.bids, s.participants, Seat(a, u));
        CountedSomewhere(s.bids, Seat(a, u));
        var i :| 0 <= i < |s.bids| && AtSeat(s.bids[i], Seat(a, u));
        assert Line(i, u, s.bids[i].amountMinor) in lines;
      }
    }
  }

  /** After any run the live counters are what a recount would find. */
  lemma CountersMatchRecount(s: State, a: AuctionId)
    requires Reachable(s) && a in s.auctions
    ensures (s.auctions[a].totalBids, s.auctions[a].totalParticipants) == Recount(s.bids, a)
  {
    ReachableIsSound(s);
    hide Reachable, AuctionsSound, HoldsSound, ResultsSound, OrdersSound, KeysSound, EntriesSound, ChargesSound,
         PaymentsSound, LedgersSound, NoDuplicates, StatusesSound;
    BiddersAreParticipants(s, a);
  }

  lemma {:induction false} FeesAreProportional(bids: seq<Bid>, seat: Seat, fee: int)
    requires forall i :: 0 <= i < |bids| && AtSeat(bids[i], seat) ==> bids[i].feeMinor == fee
    ensures FeeSum(bids, seat) == fee * CountSeat(bids, seat)
    decreases |bids|
  {
    if bids != [] {
      FeesAreProportional(bids[..|bids| - 1], seat, fee);
      Distribute(fee, CountSeat(bids[..|bids| - 1], seat), 1);
    }
  }

  /** A participant row is the count and the fee sum of that user's bid rows. */
  lemma SeatsMatchRows(s: State, seat: Seat)
    requires Reachable(s)
    ensures SeatOf(s.participants, seat) == Participant(CountSeat(s.bids, seat), FeeSum(s.bids, seat))
    ensures seat in s.participants <==> CountSeat(s.bids, seat) > 0
    ensures seat in s.participants ==>
      && seat.auction in s.auctions
      && s.participants[seat].totalFees == s.auctions[seat.auction].terms.bidFee * s.participants[seat].bidCount
  {
    ReachableIsSound(s);
    hide Reachable, AuctionsSound, HoldsSound, ResultsSound, OrdersSound, KeysSound, EntriesSound, ChargesSound,
         PaymentsSound, LedgersSound, NoDuplicates, StatusesSound, TotalsSound, OnLadder;
    if seat in s.participants {
      assert SeatSound(s.auctions, s.bids, s.participants, seat);
      var fee := s.auctions[seat.auction].terms.bidFee;
      forall i | 0 <= i < |s.bids| && AtSeat(s.bids[i], seat)
        ensures s.bids[i].feeMinor == fee
      {
        assert BidSound(s.auctions, s.participants, s.bids[i]);
      }
      FeesAreProportional(s.bids, seat, fee);
    } else {
      NewSeatIsEmpty(s, seat);
      forall i | 0 <= i < |s.bids|
        ensures !AtSeat(s.bids[i], seat)
      {
        assert BidSound(s.auctions, s.participants, s.bids[i]);
        assert seat == Seat(seat.auction, seat.user);
      }
      FeesAreProportional(s.bids, seat, 0);
    }
  }

  // -------------------------------------------------------------------------
  // The ladder bounds what one user can place
  // -------------------------------------------------------------------------

  function AmountsAt(bids: seq<Bid>, seat: Seat): seq<int> {
    if bids == [] then []
    else
      var last := bids[|bids| - 1];
      AmountsAt(bids[..|bids| - 1], seat) + if AtSeat(last, seat) then [last.amountMinor] else []
  }

  lemma {:induction false} AmountsAtShape(bids: seq<Bid>, seat: Seat)
    requires NoDuplicates(bids)
    ensures |AmountsAt(bids, seat)| == CountSeat(bids, seat)
    ensures Distinct(AmountsAt(bids, seat))
    ensures forall x :: x in AmountsAt(bids, seat) ==>
      exists i :: 0 <= i < |bids| && AtSeat(bids[i], seat) && bids[i].amountMinor == x
    decreases |bids|
  {
    if bids != [] {
      var front, last := bids[..|bids| - 1], bids[|bids| - 1];
      AmountsAtShape(front, seat);
      if AtSeat(last, seat) {
        assert last.amountMinor !in AmountsAt(front, seat) by {
          forall i | 0 <= i < |front| && AtSeat(front[i], seat)
            ensures front[i].amountMinor != last.amountMinor
          {
            assert bids[i] == front[i] && bids[|bids| - 1] == last;
          }
        }
        DistinctStep(AmountsAt(front, seat), last.amountMinor);
      }
      forall x | x in AmountsAt(bids, seat)
        ensures exists i :: 0 <= i < |bids| && AtSeat(bids[i], seat) && bids[i].amountMinor == x
      {
        if x in AmountsAt(front, seat) {
          var i :| 0 <= i < |front| && AtSeat(front[i], seat) && front[i].amountMinor == x;
          assert bids[i] == front[i];
        }
      }
    }
  }

  /**
   * After any run a user's amounts in an auction are distinct rungs of its
   * ladder, so they number at most the user limit and at most the ladder's size.
   */
  lemma SeatFitsTheLadder(s: State, seat: Seat)
    requires Reachable(s) && seat in s.participants
    ensures seat.auction in s.auctions && s.auctions[seat.auction].terms.increment > 0
    ensures var amounts, terms := AmountsAt(s.bids, seat), s.auctions[seat.auction].terms;
      && |amounts| == s.participants[seat].bidCount
      && Distinct(amounts)
      && (forall x :: x in amounts ==> OnLadder(terms, x))
      && |amounts| <= terms.maxBidsPerUser
      && |amounts| <= LadderSize(terms)
  {
    hide Reachable, HoldsSound, ResultsSound, OrdersSound, KeysSound, EntriesSound, ChargesSound,
         PaymentsSound, LedgersSound, StatusesSound, TotalsSound, OnLadder, LadderSize;
    ReachableIsSound(s);
    assert SeatSound(s.auctions, s.bids, s.participants, seat);
    assert AuctionSound(s.auctions[seat.auction], s.now);
    var amounts, terms := AmountsAt(s.bids, seat), s.auctions[seat.auction].terms;
    AmountsAtShape(s.bids, seat);
    forall x | x in amounts
      ensures OnLadder(terms, x)
    {
      var i :| 0 <= i < |s.bids| && AtSeat(s.bids[i], seat) && s.bids[i].amountMinor == x;
      assert BidSound(s.auctions, s.participants, s.bids[i]);
    }
    AtMostLadderSize(terms, amounts);
  }

  /** Once anyone has bid, no continuation of the run can change the terms. */
  lemma TermsAreFinal(s: State, steps: seq<Step>, seat: Seat, terms: Terms)
    requires Reachable(s) && seat in s.participants
    ensures var later := Exec(s, steps);
      && seat.auction in s.auctions && seat.auction in later.auctions
      && later.auctions[seat.auction].terms == s.auctions[seat.auction].terms
      && UpdateTerms(later, seat.auction, terms) == Err(TermsImmutable)
  {
    hide Inv, Exec, Reachable, Next, FrozenFrom, Get;
    ReachableIsSound(s);
    var later := Exec(s, steps);
    RunIsPermanent(s, steps);
    RunsAreSound(s, steps);
    StatusesOf(s);
    StatusesOf(later);
    assert seat in later.participants;
    assert Underlying(later.auctions[seat.auction]) in AFTER_OPENING;
  }

  // -------------------------------------------------------------------------
  // Batches and the entries that paid for them
  // -------------------------------------------------------------------------

  /** What the ledger holds for one accepted request. */
  ghost predicate PaidOnce(s: State, k: string)
    requires k in s.keys && s.keys[k].snapshot.Some? && s.keys[k].request.auction in s.auctions
  {
    var answer := s.keys[k].snapshot.value;
    var row := s.auctions[s.keys[k].request.auction];
    var entries := Get(s.accounts, WalletId(s.keys[k].user, row.currency)).entries;
    var at := FindKey(entries, BidFeeKey(k));
    if row.terms.bidFee == 0 then at.None?
    else
      && at.Some?
      && entries[at.value].kind == BidFee
      && entries[at.value].amountMinor == -(row.terms.bidFee * answer.count) < 0
      && (forall i :: answer.firstBid <= i < answer.firstBid + answer.count && i < |s.bids| ==>
            s.bids[i].entry == Some(at.value + 1))
  }

  lemma PaymentEntry(s: State, k: string, i: nat)
    requires Inv(s) && i < |s.bids| && s.bids[i].key == k && s.bids[i].auction in s.auctions
    requires s.auctions[s.bids[i].auction].terms.bidFee != 0
    ensures var entries := Get(s.accounts, WalletId(s.bids[i].user, s.auctions[s.bids[i].auction].currency)).entries;
      FindKey(entries, BidFeeKey(k)).Some? && s.bids[i].entry == Some(FindKey(entries, BidFeeKey(k)).value + 1)
  {
    hide AuctionsSound, HoldsSound, ResultsSound, OrdersSound, KeysSound, EntriesSound, ChargesSound,
         NoDuplicates, StatusesSound, TotalsSound, OnLadder, Replays, SignsFollowTypes;
    assert PaidBySound(s.auctions, s.accounts, s.bids[i]);
    assert BidSound(s.auctions, s.participants, s.bids[i]);
    var w := WalletId(s.bids[i].user, s.auctions[s.bids[i].auction].currency);
    assert w in s.accounts ==> Sound(s.accounts[w]);
    KeyFoundAt(Get(s.accounts, w).entries, BidFeeKey(k), s.bids[i].entry.value - 1);
  }

  lemma KeyFacts(s: State, k: string)
    requires Inv(s) && k in s.keys
    ensures AnswerSound(s.auctions, s.bids, s.now, k, s.keys[k])
  {
    hide AuctionsSound, HoldsSound, ResultsSound, OrdersSound, EntriesSound, ChargesSound, PaymentsSound,
         NoDuplicates, StatusesSound, TotalsSound, SeatsSound, BidsSound, LedgersSound, AnswerSound;
  }

  lemma EntryFacts(s: State, w: WalletId, i: nat)
    requires Inv(s) && i < |Get(s.accounts, w).entries|
    ensures EntrySound(s, w, Get(s.accounts, w).entries[i])
    ensures Get(s.accounts, w).entries[i].amountMinor != 0
  {
    hide AuctionsSound, HoldsSound, ResultsSound, OrdersSound, ChargesSound, PaymentsSound, KeysSound,
         NoDuplicates, StatusesSound, TotalsSound, SeatsSound, BidsSound, EntrySound, Replays, KeysUnique;
    assert Sound(s.accounts[w]);
  }

  /**
   * Every accepted request, after any run: with a fee, its wallet holds one entry
   * under its key, of minus the fee times the batch size, and each of its bids
   * points at that entry; without a fee there is no entry.
   */
  lemma BatchesArePaidOnce(s: State, k: string)
    requires Reachable(s) && k in s.keys
    ensures s.keys[k].snapshot.Some? && s.keys[k].request.auction in s.auctions
    ensures PaidOnce(s, k)
  {
    hide Reachable, Inv, SortAmounts, FindKey, BidsByKey;
    ReachableIsSound(s);
    KeyFacts(s, k);
    var answer := s.keys[k].snapshot.value;
    var row := s.auctions[s.keys[k].request.auction];
    var w := WalletId(s.keys[k].user, row.currency);
    var entries := Get(s.accounts, w).entries;
    var at := FindKey(entries, BidFeeKey(k));
    if at.Some? {
      EntryFacts(s, w, at.value);
      assert entries[at.value].amountMinor == -answer.totalFee;
    }
    if row.terms.bidFee != 0 {
      forall i | answer.firstBid <= i < answer.firstBid + answer.count
        ensures at.Some? && s.bids[i].entry == Some(at.value + 1)
      {
        assert AtSeat(s.bids[i], Seat(s.keys[k].request.auction, s.keys[k].user));
        PaymentEntry(s, k, i);
      }
      assert AtSeat(s.bids[answer.firstBid], Seat(s.keys[k].request.auction, s.keys[k].user));
      PaymentEntry(s, k, answer.firstBid);
      BidFeePositive(s, s.keys[k].request.auction);
      ProductPositive(row.terms.bidFee, answer.count);
      EntryFacts(s, w, at.value);
      assert entries[at.value].key == Some(BidFeeKey(k));
      assert entries[at.value].kind == BidFee;
      assert entries[at.value].amountMinor == -(row.terms.bidFee * answer.count);
    }
  }

  lemma ProductPositive(x: int, y: int)
    requires x > 0 && y > 0
    ensures x * y > 0
  {
  }

  lemma BidFeePositive(s: State, a: AuctionId)
    requires Inv(s) && a in s.auctions
    ensures s.auctions[a].terms.bidFee >= 0
  {
    Here(s, a);
    hide Inv;
  }

  // -------------------------------------------------------------------------
  // What is accepted, and what the caller is told
  // -------------------------------------------------------------------------

  /** The rules of bidding, stated without the order they are checked in. */
  ghost predicate Acceptable(s: State, sub: Submission) {
    && 1 <= |sub.amounts| <= 100 && Distinct(sub.amounts) && sub.eligible
    && sub.auction in s.auctions
    && s.auctions[sub.auction].status == Live
    && s.auctions[sub.auction].terms.startsAt <= s.now < s.auctions[sub.auction].terms.endsAt
    && s.auctions[sub.auction].terms.increment > 0
    && (forall x :: x in sub.amounts ==> OnLadder(s.auctions[sub.auction].terms, x))
    && SeatOf(s.participants, Seat(sub.auction, sub.user)).bidCount + |sub.amounts|
         <= s.auctions[sub.auction].terms.maxBidsPerUser
    && !AlreadyHolds(s.bids, sub.auction, sub.user, sub.amounts)
    && sub.key !in s.keys
    && var wallet := Get(s.accounts, WalletId(sub.user, s.auctions[sub.auction].currency));
       var fee := s.auctions[sub.auction].terms.bidFee * |sub.amounts|;
       fee == 0 || (!wallet.frozen && fee <= wallet.available)
  }

  lemma CanPay(s: State, sub: Submission)
    requires sub.auction in s.auctions && s.auctions[sub.auction].terms.bidFee >= 0 && |sub.amounts| > 0
    requires FindKey(Get(s.accounts, WalletFor(s, sub)).entries, BidFeeKey(sub.key)).None?
    ensures ChargeFee(s, sub).Ok? <==>
      var wallet := Get(s.accounts, WalletId(sub.user, s.auctions[sub.auction].currency));
      var fee := s.auctions[sub.auction].terms.bidFee * |sub.amounts|;
      fee == 0 || (!wallet.frozen && fee <= wallet.available)
  {
    FeeSign(s, sub);
  }

  lemma PrechecksPass(s: State, sub: Submission)
    requires Acceptable(s, sub) && ValidConfig(s.auctions[sub.auction].terms)
    ensures Precheck(s, sub).None?
  {
    hide Distinct, AlreadyHolds;
    forall i | 0 <= i < |sub.amounts|
      ensures sub.amounts[i] > 0
    {
      assert sub.amounts[i] in sub.amounts;
    }
  }

  lemma LockedChecksPass(s: State, sub: Submission)
    requires Acceptable(s, sub) && Holds(s.stock, sub.auction)
    ensures LockedCheck(s, sub).None?
  {
    hide Distinct, AlreadyHolds, Holds, OnLadder;
  }

  lemma ChecksDecide(s: State, sub: Submission)
    requires Precheck(s, sub).None? && sub.auction in s.auctions && LockedCheck(s, sub).None? && sub.key !in s.keys
    ensures Accepts(s, sub) <==> ChargeFee(s, sub).Ok?
  {
    hide Precheck, LockedCheck, ChargeFee, Accepted, AnswerOf, IdRange;
  }

  /**
   * A well-formed request meets one of three answers from the auction's status:
   * what the public may not see is not found, what has not begun taking bids or
   * has stopped is not live, and only a live auction goes on to its ladder.
   */
  lemma StatusDecidesTheRefusal(s: State, sub: Submission)
    requires 1 <= |sub.amounts| <= 100 && Distinct(sub.amounts) && sub.eligible
    requires forall i :: 0 <= i < |sub.amounts| ==> sub.amounts[i] > 0
    ensures Precheck(s, sub) == Some(NotFound) <==>
      sub.auction !in s.auctions || s.auctions[sub.auction].status in {Draft, PendingApproval, Cancelled, Suspended}
    ensures Precheck(s, sub) == Some(AuctionNotLive) <==>
      sub.auction in s.auctions && s.auctions[sub.auction].status in {Scheduled, Closing, Calculating, Completed}
    ensures sub.auction in s.auctions && s.auctions[sub.auction].status == Live
            && ValidConfig(s.auctions[sub.auction].terms) ==>
      Precheck(s, sub) == LadderError(s.auctions[sub.auction].terms, sub.amounts)
  {
    if sub.auction in s.auctions && s.auctions[sub.auction].terms.increment > 0 {
      LadderRefusals(s.auctions[sub.auction].terms, sub.amounts);
    }
    if sub.auction in s.auctions {
      ShownOrHidden(s.auctions[sub.auction].status);
    }
    hide Distinct, LadderError;
  }

  lemma LadderRefusals(t: Terms, amounts: seq<int>)
    requires t.increment > 0
    ensures LadderError(t, amounts) != Some(NotFound) && LadderError(t, amounts) != Some(AuctionNotLive)
  {
  }

  lemma ShownOrHidden(status: Status)
    ensures status in PUBLICLY_VISIBLE <==> status !in {Draft, PendingApproval, Cancelled, Suspended}
  {
  }

  lemma AcceptedChecks(s: State, sub: Submission)
    requires Accepts(s, sub)
    ensures Precheck(s, sub).None? && sub.auction in s.auctions && LockedCheck(s, sub).None? && ChargeFee(s, sub).Ok?
    ensures |sub.amounts| <= MAX_BIDS_PER_REQUEST && sub.eligible
  {
    hide LockedCheck, ChargeFee, Accepted, AnswerOf, IdRange, BatchLadderError, Distinct;
  }

  /** After any run, a submission is accepted exactly when it meets every rule and can be paid for. */
  lemma AcceptedExactlyWhen(s: State, sub: Submission)
    requires Reachable(s)
    ensures Accepts(s, sub) <==> Acceptable(s, sub)
  {
    hide Inv, Reachable, Accepts, ChargeFee, Precheck, LockedCheck, AlreadyHolds, Distinct, OnLadder, Holds, Fee,
         WalletFor, EntriesSound, LedgersSound;
    ReachableIsSound(s);
    if Accepts(s, sub) {
      AcceptedChecks(s, sub);
      var _ := AcceptedPassed(s, sub);
    }
    if sub.auction in s.auctions && |sub.amounts| > 0 && sub.key !in s.keys {
      Here(s, sub.auction);
      MoneyIsSound(s);
      FeeKeyIsFresh(s, sub);
      CanPay(s, sub);
      if Acceptable(s, sub) {
        PrechecksPass(s, sub);
        HeldExactlyWhenOwed(s, sub.auction);
        LockedChecksPass(s, sub);
        ChecksDecide(s, sub);
      }
    }
  }

  lemma MoneyIsSound(s: State)
    requires Inv(s)
    ensures LedgersSound(s.accounts) && EntriesSound(s)
  {
    hide LedgersSound, EntriesSound;
  }

  lemma BalanceReported(s: State, sub: Submission, charge: Charge)
    requires Passed(s, sub, charge)
    requires FindKey(Get(s.accounts, WalletFor(s, sub)).entries, BidFeeKey(sub.key)).None?
    ensures WalletFor(s, sub) in charge.accounts
    ensures charge.balance == charge.accounts[WalletFor(s, sub)].available
    ensures charge.balance == Get(s.accounts, WalletFor(s, sub)).available - Fee(s, sub)
  {
    hide Holds, AlreadyHolds, Distinct, OnLadder;
  }

  /**
   * What an accepted caller is told is what the database then holds: the new
   * bids, the user's count and what is left of the limit, the balance after the
   * fee, and totals equal to a recount.
   */
  lemma AnswerTellsTheState(s: State, sub: Submission)
    requires Reachable(s) && Accepts(s, sub)
    ensures sub.auction in s.auctions
    ensures var (s', response) := SubmitBids(s, sub).value;
      var answer, seat := response.answer, Seat(sub.auction, sub.user);
      && answer.bidCount == CountSeat(s'.bids, seat) == CountSeat(s.bids, seat) + |sub.amounts|
      && answer.bidsRemaining == s.auctions[sub.auction].terms.maxBidsPerUser - answer.bidCount >= 0
      && answer.balance == Get(s'.accounts, WalletId(sub.user, s.auctions[sub.auction].currency)).available
      && answer.balance == Get(s.accounts, WalletId(sub.user, s.auctions[sub.auction].currency)).available - answer.totalFee
      && answer.submittedAt == s.now && !response.replayed
      && (answer.totalBids, answer.totalParticipants) == Recount(s'.bids, sub.auction)
      && s'.bids[..|s.bids|] == s.bids && |s'.bids| == |s.bids| + |sub.amounts|
      && (forall i: BidId :: i in response.bids <==> |s.bids| <= i < |s'.bids|)
      && (forall i :: 0 <= i < |sub.amounts| ==>
            var b := s'.bids[|s.bids| + i];
            AtSeat(b, seat) && b.amountMinor == sub.amounts[i] && b.key == sub.key)
  {
    hide Inv, Reachable, Passed, SubmitBids, EntriesSound, LedgersSound, Fee, Recount, Accepts, Accepted, AnswerOf,
         WalletFor, Batch, CountSeat;
    ReachableIsSound(s);
    var charge := AcceptedPassed(s, sub);
    AcceptedParts(s, sub, charge);
    MoneyIsSound(s);
    assert sub.key !in s.keys by { PassedBasics(s, sub, charge); }
    FeeKeyIsFresh(s, sub);
    BalanceReported(s, sub, charge);
    WalletIs(s, sub);
    var s' := Accepted(s, sub, charge);
    var seat := Seat(sub.auction, sub.user);
    var batch := Batch(sub, s.auctions[sub.auction].terms.bidFee, charge.entry);
    BatchShape(sub, s.auctions[sub.auction].terms.bidFee, charge.entry);
    CountAppend(s.bids, batch, seat, seat);
    SeatsMatchRows(s, seat);
    NextAccepted(s, sub);
    CountersMatchRecount(s', sub.auction);
    AcceptedBids(s, sub);
  }

  lemma WalletIs(s: State, sub: Submission)
    requires sub.auction in s.auctions
    ensures WalletFor(s, sub) == WalletId(sub.user, s.auctions[sub.auction].currency)
  {
  }

  /** The price of a batch is the auction's fee for each of its bids, paid once. */
  lemma AnswerTellsThePrice(s: State, sub: Submission)
    requires Reachable(s) && Accepts(s, sub)
    ensures sub.auction in s.auctions
    ensures SubmitBids(s, sub).value.1.answer.totalFee == s.auctions[sub.auction].terms.bidFee * |sub.amounts|
    ensures SubmitBids(s, sub).value.1.answer.count == |sub.amounts|
  {
    hide Inv, Reachable, Passed, Accepted;
    ReachableIsSound(s);
    var charge := AcceptedPassed(s, sub);
    PassedBasics(s, sub, charge);
  }

  lemma PassedBasics(s: State, sub: Submission, charge: Charge)
    requires Passed(s, sub, charge)
    ensures sub.auction in s.auctions && sub.key !in s.keys && |sub.amounts| > 0
  {
  }

  /** The columns an accepted submission writes, next to the answer it stores. */
  lemma AcceptedParts(s: State, sub: Submission, charge: Charge)
    requires Passed(s, sub, charge)
    ensures sub.auction in s.auctions
    ensures var s', answer := Accepted(s, sub, charge), AnswerOf(s, sub, charge);
      && s'.bids == s.bids + Batch(sub, s.auctions[sub.auction].terms.bidFee, charge.entry)
      && s'.accounts == charge.accounts
      && sub.auction in s'.auctions
      && s'.auctions[sub.auction].totalBids == answer.totalBids
      && s'.auctions[sub.auction].totalParticipants == answer.totalParticipants
      && answer.bidCount == SeatOf(s.participants, Seat(sub.auction, sub.user)).bidCount + |sub.amounts|
      && answer.bidsRemaining == s.auctions[sub.auction].terms.maxBidsPerUser - answer.bidCount >= 0
      && answer.balance == charge.balance
      && answer.totalFee == Fee(s, sub) && answer.submittedAt == s.now
  {
    hide Holds, AlreadyHolds, Distinct, OnLadder, ChargeFee, Batch, Fee, RequestOf;
  }

  lemma AcceptedBids(s: State, sub: Submission)
    requires Accepts(s, sub)
    ensures SubmitBids(s, sub).Ok? && SubmitBids(s, sub).value.1.bids == IdRange(|s.bids|, |sub.amounts|)
    ensures !SubmitBids(s, sub).value.1.replayed
  {
    hide LockedCheck, ChargeFee, Accepted, AnswerOf, Precheck;
  }

  lemma NextAccepted(s: State, sub: Submission)
    requires Reachable(s) && Accepts(s, sub)
    ensures SubmitBids(s, sub).Ok? && Reachable(SubmitBids(s, sub).value.0)
  {
    AcceptedBids(s, sub);
    hide Reachable, Next, SubmitBids;
    NextSubmitted(s, sub);
    ReachableOn(s, [Submitted(sub)]);
    assert Exec(s, [Submitted(sub)]) == Exec(Next(s, Submitted(sub)), []);
  }

  // -------------------------------------------------------------------------
  // Reservations
  // -------------------------------------------------------------------------

  /**
   * After any run an auction holds a unit exactly when it is live, closing,
   * calculating, suspended from live, or completed with a winner.
   */
  lemma HeldExactlyWhenOwed(s: State, a: AuctionId)
    requires Reachable(s)
    ensures Holds(s.stock, a) <==>
      && a in s.auctions
      && var row := s.auctions[a];
         || row.status in {Live, Closing, Calculating}
         || (row.status == Suspended && row.suspendedFrom == Some(Live))
         || (row.status == Completed && a in s.results && s.results[a].winner.Some?)
  {
    hide Reachable, Inv, Holds, ComputedResult, StockSound, ValidConfig;
    ReachableIsSound(s);
    HoldsAt(s, a);
    if a in s.auctions {
      Here(s, a);
      if a in s.results {
        ResultIsComputed(s, a);
        OutcomeMeansWinner(s.bids, a, s.auctions[a].status == Cancelled);
      }
    }
  }

  lemma HoldsAt(s: State, a: AuctionId)
    requires Inv(s)
    ensures Holds(s.stock, a) <==> OwedUnit(s.auctions, s.results, a)
  {
    hide EntriesSound, ChargesSound, PaymentsSound, KeysSound, StockSound, ResultsSound, OrdersSound, AuctionsSound,
         NoDuplicates, StatusesSound, TotalsSound, SeatsSound, BidsSound, LedgersSound, Holds, OwedUnit;
  }

  lemma ResultIsComputed(s: State, a: AuctionId)
    requires Inv(s) && a in s.results && a in s.auctions
    ensures s.results[a] == ComputedResult(s.bids, a, s.auctions[a].status == Cancelled)
  {
    hide EntriesSound, ChargesSound, PaymentsSound, KeysSound, HoldsSound, OrdersSound, AuctionsSound,
         NoDuplicates, StatusesSound, TotalsSound, SeatsSound, BidsSound, LedgersSound, ComputedResult;
  }

  lemma OutcomeMeansWinner(bids: seq<Bid>, a: AuctionId, cancelled: bool)
    ensures var r := ComputedResult(bids, a, cancelled); r.outcome == HasWinner <==> r.winner.Some?
  {
    hide Winner, CountFrozenBids, FrozenLines;
  }

  /** The cached reserved count is the sum of the held rows and never exceeds stock. */
  lemma ReservedMatchesRows(s: State, p: ProductId)
    requires Reachable(s) && p in s.stock.products
    ensures s.stock.products[p].reserved == SumHeld(s.stock.rows, p)
    ensures 0 <= s.stock.products[p].reserved <= s.stock.products[p].stock
  {
    ReachableIsSound(s);
    StockIsSound(s);
    hide Reachable, Inv;
  }

  /** A submission to a live auction is never refused for want of a reservation. */
  lemma LiveIsReserved(s: State, sub: Submission)
    requires Reachable(s) && Precheck(s, sub).None?
    ensures LockedCheck(s, sub).Some? ==>
      LockedCheck(s, sub).value in {AuctionNotStarted, AuctionEnded, BidLimitExceeded, DuplicateAmount}
  {
    HeldExactlyWhenOwed(s, sub.auction);
    hide Reachable, Holds, AlreadyHolds, BatchLadderError, Distinct;
  }

  /** Every suspension can be lifted, back to a status that may be suspended. */
  lemma SuspensionCanBeLifted(s: State, a: AuctionId)
    requires Reachable(s) && a in s.auctions && s.auctions[a].status == Suspended
    ensures ResumeAuction(s, a).Ok?
    ensures var s' := ResumeAuction(s, a).value;
      && a in s'.auctions && s'.auctions[a].status in RESUMABLE
      && (Holds(s.stock, a) <==> s'.auctions[a].status == Live)
  {
    ReachableIsSound(s);
    Here(s, a);
    HeldExactlyWhenOwed(s, a);
    hide Reachable, Inv, Holds, ValidConfig;
  }

  // -------------------------------------------------------------------------
  // Time
  // -------------------------------------------------------------------------

  /**
   * Every bid was decided inside its auction's window, and an auction that
   * stopped taking bids did so at or after its deadline, at the recorded instant.
   */
  lemma BidsFellInsideTheWindow(s: State, i: nat)
    requires Reachable(s) && i < |s.bids|
    ensures s.bids[i].key in s.keys && s.keys[s.bids[i].key].snapshot.Some? && s.bids[i].auction in s.auctions
    ensures var at := s.keys[s.bids[i].key].snapshot.value.submittedAt;
      var row := s.auctions[s.bids[i].auction];
      && row.terms.startsAt <= at < row.terms.endsAt
      && (row.status in {Closing, Calculating, Completed} ==>
            row.closingAt.Some? && at < row.terms.endsAt <= row.closingAt.value <= s.now)
      && (row.status in {Calculating, Completed} ==> row.closedAt == row.closingAt)
  {
    ReachableIsSound(s);
    KeyOfBid(s, i);
    KeyFacts(s, s.bids[i].key);
    Here(s, s.bids[i].auction);
    hide Reachable, Inv, SortAmounts, ValidConfig, Holds, StockSound;
  }

  lemma KeyOfBid(s: State, i: nat)
    requires Inv(s) && i < |s.bids|
    ensures s.bids[i].key in s.keys && s.bids[i].auction in s.auctions
  {
    hide AuctionsSound, HoldsSound, ResultsSound, OrdersSound, EntriesSound, ChargesSound, PaymentsSound,
         NoDuplicates, StatusesSound, TotalsSound, SeatsSound, LedgersSound, AnswerSound;
    assert BidSound(s.auctions, s.participants, s.bids[i]);
  }

  /** No auction is live before its start, nor stops taking bids before its deadline, however it got there. */
  lemma ClockIsRespected(s: State, a: AuctionId)
    requires Reachable(s) && a in s.auctions
    ensures Underlying(s.auctions[a]) == Live ==> s.auctions[a].terms.startsAt <= s.now
    ensures s.auctions[a].status in {Closing, Calculating, Completed} ==> s.auctions[a].terms.endsAt <= s.now
    ensures s.now < s.auctions[a].terms.startsAt ==> FrozenLines(s.bids, a) == []
  {
    hide Reachable, Inv, StockSound, Holds, ValidConfig, FrozenLines;
    ReachableIsSound(s);
    Here(s, a);
    if s.now < s.auctions[a].terms.startsAt {
      forall i | 0 <= i < |s.bids|
        ensures s.bids[i].auction != a
      {
        BidsFellInsideTheWindow(s, i);
        KeyOfBid(s, i);
        KeyFacts(s, s.bids[i].key);
      }
      NoLines(s.bids, a);
    }
  }

  /** From the moment an auction stops taking bids, nothing in any continuation changes its bid set or its terms. */
  lemma BidSetIsFinal(s: State, steps: seq<Step>, a: AuctionId)
    requires Reachable(s) && PastBidding(s, a)
    ensures var later := Exec(s, steps);
      && PastBidding(later, a)
      && FrozenLines(later.bids, a) == FrozenLines(s.bids, a)
      && later.auctions[a].terms == s.auctions[a].terms
      && (s.auctions[a].closingAt.Some? ==> later.auctions[a].closingAt == s.auctions[a].closingAt)
      && Recount(later.bids, a) == Recount(s.bids, a)
  {
    ReachableIsSound(s);
    RunIsPermanent(s, steps);
    hide Inv, Reachable, Exec, FrozenLines;
  }
}
