/**
 * The services as they run: tables changed statement by statement inside a
 * transaction, put back when it is refused. Every method is proved to have
 * exactly the effect of the corresponding function on the whole database.
 */
module Services {
  import opened Common
  import opened Ledger
  import opened Auctions
  import opened Catalog
  import BidRules
  import opened Lub
  import opened Platform
  import Lifecycle
  import Bidding
  import Closing
  import opened Invariants
  import BiddingKeeps

  /** A transaction whose answer is whether it changed anything. */
  ghost predicate Effect(before: State, spec: Result<State>, after: State, r: Result<bool>) {
    match spec
    case Err(e) => r == Err(e) && after == before
    case Ok(s') => after == s' && r.Ok? && (r.value <==> s' != before)
  }

  class Engine {
    var now: int
    var auctions: map<AuctionId, Auction>
    var bids: seq<Bid>
    var participants: map<Seat, Participant>
    var keys: map<string, KeyRow>
    var results: map<AuctionId, ResultRow>
    var orders: map<AuctionId, Order>
    const inventory: Inventory
    const wallets: Wallets

    function Rows(): State
      reads this, inventory, wallets
    {
      State(now, inventory.State(), auctions, bids, participants, keys, wallets.accounts, results, orders)
    }

    constructor ()
      ensures Rows() == Empty && fresh(inventory) && fresh(wallets)
    {
      now, bids := 0, [];
      auctions, participants, keys, results, orders := map[], map[], map[], map[], map[];
      inventory := new Inventory();
      wallets := new Wallets();
    }

    /** Undo everything a refused transaction wrote. */
    method Rollback(saved: State)
      modifies this, inventory, wallets
      ensures Rows() == saved
    {
      now, auctions, bids, participants := saved.now, saved.auctions, saved.bids, saved.participants;
      keys, results, orders := saved.keys, saved.results, saved.orders;
      inventory.products, inventory.rows := saved.stock.products, saved.stock.rows;
      wallets.accounts := saved.accounts;
    }

    // -----------------------------------------------------------------------
    // Bidding
    // -----------------------------------------------------------------------

    /** Insert the key, or read back what holds it. */
    method ClaimKey(sub: Bidding.Submission) returns (claim: Bidding.Claim)
      modifies this`keys
      ensures claim == Bidding.ClaimKey(old(keys), sub)
      ensures keys == if claim.Claimed? then old(keys)[sub.key := KeyRow(sub.user, Bidding.RequestOf(sub), None)]
                      else old(keys)
    {
      var requestHash := Bidding.RequestOf(sub);
      if sub.key !in keys {
        keys := keys[sub.key := KeyRow(sub.user, requestHash, None)];
        return Bidding.Claimed;
      }
      var existing := keys[sub.key];
      if existing.user != sub.user || existing.request != requestHash {
        return Bidding.Rejected(IdempotencyConflict);
      }
      if existing.snapshot.Some? {
        return Bidding.Replay(existing.snapshot.value);
      }
      return Bidding.Rejected(IdempotencyInProgress);
    }

    /** The rows a key produced, found by scanning. */
    method FindBidsByKey(a: AuctionId, u: UserId, key: string) returns (found: set<BidId>)
      ensures found == Bidding.BidsByKey(bids, a, u, key)
    {
      found := {};
      for i := 0 to |bids|
        invariant forall j: BidId :: j in found <==> j < i && bids[j].auction == a && bids[j].user == u && bids[j].key == key
      {
        if bids[i].auction == a && bids[i].user == u && bids[i].key == key {
          found := found + {i};
        }
      }
    }

    /** Take the participant row, creating it on a first bid. */
    method LockOrCreateParticipant(seat: Seat) returns (row: Participant, inserted: bool)
      modifies this`participants
      ensures inserted == (seat !in old(participants))
      ensures row == SeatOf(old(participants), seat)
      ensures participants == old(participants)[seat := row]
    {
      inserted := seat !in participants;
      if inserted {
        participants := participants[seat := Participant(0, 0)];
      }
      row := participants[seat];
    }

    /** The amounts among these that the user already holds in this auction. */
    method FindExistingAmounts(a: AuctionId, u: UserId, amounts: seq<int>) returns (held: seq<int>)
      ensures held == [] <==> !Bidding.AlreadyHolds(bids, a, u, amounts)
    {
      held := [];
      for i := 0 to |bids|
        invariant held == [] <==> !Bidding.AlreadyHolds(bids[..i], a, u, amounts)
      {
        assert bids[..i + 1][..i] == bids[..i] && bids[..i + 1][i] == bids[i];
        if bids[i].auction == a && bids[i].user == u && bids[i].amountMinor in amounts {
          held := held + [bids[i].amountMinor];
        }
      }
      assert bids[..|bids|] == bids;
    }

    /**
     * The batch insert under the unique index: a row that would repeat an
     * auction, user and amount is skipped. All of them land exactly when the
     * batch repeats nothing, in itself or already placed.
     */
    method InsertBids(sub: Bidding.Submission, fee: int) returns (inserted: nat)
      modifies this`bids
      ensures inserted <= |sub.amounts|
      ensures inserted == |sub.amounts| <==>
        BidRules.Distinct(sub.amounts) && !Bidding.AlreadyHolds(old(bids), sub.auction, sub.user, sub.amounts)
      ensures inserted == |sub.amounts| ==> bids == old(bids) + Bidding.Batch(sub, fee, None)
    {
      inserted := 0;
      var before := bids;
      for k := 0 to |sub.amounts|
        invariant inserted <= k && |before| <= |bids| && bids[..|before|] == before
        invariant inserted == k ==> bids == before + Bidding.Batch(sub, fee, None)[..k]
        invariant inserted == k <==>
          BidRules.Distinct(sub.amounts[..k]) && !Bidding.AlreadyHolds(before, sub.auction, sub.user, sub.amounts[..k])
        invariant forall x :: Held(bids, sub, x) <==> Held(before, sub, x) || x in sub.amounts[..k]
      {
        var amount := sub.amounts[k];
        var front := sub.amounts[..k];
        assert sub.amounts[..k + 1] == front + [amount];
        BidRules.DistinctStep(front, amount);
        HoldsOneMore(before, sub, front, amount);
        var batch := Bidding.Batch(sub, fee, None);
        BiddingKeeps.BatchShape(sub, fee, None);
        assert batch[..k + 1] == batch[..k] + [batch[k]];
        if !Bidding.AlreadyHolds(bids, sub.auction, sub.user, [amount]) {
          assert !Held(bids, sub, amount);
          var was := bids;
          var row := Bid(sub.auction, sub.user, amount, fee, sub.key, None);
          bids := bids + [row];
          inserted := inserted + 1;
          HeldAfter(was, sub, row);
        } else {
          assert Held(bids, sub, amount);
        }
      }
      assert sub.amounts[..|sub.amounts|] == sub.amounts;
      BiddingKeeps.BatchShape(sub, fee, None);
      assert Bidding.Batch(sub, fee, None)[..|sub.amounts|] == Bidding.Batch(sub, fee, None);
    }

    /** Point a range of bids at the entry that paid for them. */
    method AttachWalletEntry(first: nat, count: nat, entry: int)
      requires first + count <= |bids|
      modifies this`bids
      ensures |bids| == old(|bids|)
      ensures forall i :: 0 <= i < |bids| ==>
        bids[i] == if first <= i < first + count then old(bids[i]).(entry := Some(entry)) else old(bids[i])
    {
      for k := 0 to count
        invariant |bids| == old(|bids|)
        invariant forall i :: 0 <= i < |bids| ==>
          bids[i] == if first <= i < first + k then old(bids[i]).(entry := Some(entry)) else old(bids[i])
      {
        bids := bids[first + k := bids[first + k].(entry := Some(entry))];
      }
    }

    /** Charge for the batch just inserted; a free batch moves no money and writes no entry. */
    method ChargeFee(sub: Bidding.Submission, row: Auction, first: nat, feeMinor: int) returns (r: Result<int>)
      requires sub.auction in auctions && auctions[sub.auction] == row
      requires feeMinor == Bidding.Fee(Rows(), sub)
      requires first <= |bids| && bids == bids[..first] + Bidding.Batch(sub, row.terms.bidFee, None)
      modifies this`bids, wallets
      ensures match Bidding.ChargeFee(old(Rows()), sub)
        case Err(e) => r == Err(e)
        case Ok(charge) =>
          && r == Ok(charge.balance)
          && wallets.accounts == charge.accounts
          && bids == old(bids)[..first] + Bidding.Batch(sub, row.terms.bidFee, charge.entry)
    {
      var w := WalletId(sub.user, row.currency);
      var _ := wallets.EnsureWallet(w);
      if feeMinor == 0 {
        return Ok(wallets.accounts[w].available);
      }
      var m := Movement(feeMinor, Some(row.currency), BidFee, Some(sub.auction), Some(BidFeeKey(sub.key)));
      var movement := wallets.ApplyMovement(w, m);
      if movement.Err? {
        return Err(movement.error);
      }
      BiddingKeeps.BatchShape(sub, row.terms.bidFee, None);
      BiddingKeeps.BatchShape(sub, row.terms.bidFee, Some(movement.value.seqNo));
      AttachWalletEntry(first, |sub.amounts|, movement.value.seqNo);
      return Ok(movement.value.balanceAfter);
    }

    /** The first amount off the ladder, if any. */
    method AssertAmountsAllowed(t: Terms, amounts: seq<int>) returns (refused: Option<Error>)
      ensures refused == Bidding.BatchLadderError(t, amounts)
    {
      if t.increment <= 0 {
        return Some(InvalidConfig);
      }
      for k := 0 to |amounts|
        invariant BidRules.LadderError(t, amounts) == BidRules.LadderError(t, amounts[k..])
      {
        var wrong := BidRules.AmountError(t, amounts[k]);
        assert amounts[k..][0] == amounts[k] && amounts[k..][1..] == amounts[k + 1..];
        if wrong.Some? {
          return wrong;
        }
      }
      return None;
    }

    /** Everything decided under the auction lock, up to the insert; takes the participant row on the way. */
    method LockAndCheck(sub: Bidding.Submission) returns (r: Result<bool>)
      modifies this`participants
      requires sub.auction in auctions
      ensures match Bidding.LockedCheck(old(Rows()), sub)
        case Some(e) => r == Err(e)
        case None =>
          var seat := Seat(sub.auction, sub.user);
          && r == Ok(seat !in old(participants))
          && participants == old(participants)[seat := SeatOf(old(participants), seat)]
    {
      hide Bidding.BatchLadderError, Holds, Bidding.AlreadyHolds;
      var locked := auctions[sub.auction];
      if locked.status != Live {
        return Err(AuctionNotLive);
      }
      if now < locked.terms.startsAt {
        return Err(AuctionNotStarted);
      }
      if now >= locked.terms.endsAt {
        return Err(AuctionEnded);
      }
      var refused := AssertAmountsAllowed(locked.terms, sub.amounts);
      if refused.Some? {
        return Err(refused.value);
      }
      if !Holds(inventory.State(), sub.auction) {
        return Err(AuctionNotLive);
      }
      var participant, inserted := LockOrCreateParticipant(Seat(sub.auction, sub.user));
      if participant.bidCount + |sub.amounts| > locked.terms.maxBidsPerUser {
        return Err(BidLimitExceeded);
      }
      var alreadyHeld := FindExistingAmounts(sub.auction, sub.user, sub.amounts);
      if |alreadyHeld| > 0 {
        return Err(DuplicateAmount);
      }
      return Ok(inserted);
    }

    /** Insert, charge, count, and store the answer; `s` is the database as the transaction found it. */
    method WriteBatch(sub: Bidding.Submission, inserted: bool, ghost s: State) returns (r: Result<Bidding.Response>)
      requires sub.auction in auctions
      requires BidRules.Distinct(sub.amounts) && !Bidding.AlreadyHolds(bids, sub.auction, sub.user, sub.amounts)
      requires var seat := Seat(sub.auction, sub.user);
        && inserted == (seat !in s.participants)
        && Rows() == s.(
             participants := s.participants[seat := SeatOf(s.participants, seat)],
             keys := s.keys[sub.key := KeyRow(sub.user, Bidding.RequestOf(sub), None)])
      modifies this`auctions, this`bids, this`participants, this`keys, wallets
      ensures match Bidding.ChargeFee(s, sub)
        case Err(e) => r == Err(e)
        case Ok(charge) =>
          && r == Ok(Bidding.Response(Bidding.IdRange(|s.bids|, |sub.amounts|), Bidding.AnswerOf(s, sub, charge), false))
          && Rows() == Bidding.Accepted(s, sub, charge)
    {
      hide Bidding.AlreadyHolds, Bidding.ChargeFee, Bidding.Batch, Bidding.RequestOf, BidRules.Distinct,
           Bidding.Accepted, Bidding.AnswerOf, Bidding.IdRange;
      var locked := auctions[sub.auction];
      var seat := Seat(sub.auction, sub.user);
      var first := |bids|;
      var landed := InsertBids(sub, locked.terms.bidFee);
      if landed != |sub.amounts| {
        return Err(DuplicateAmount);
      }
      assert bids[..first] == s.bids;
      var feeMinor := locked.terms.bidFee * |sub.amounts|;
      SameCharge(s, Rows(), sub);
      var balance := ChargeFee(sub, locked, first, feeMinor);
      if balance.Err? {
        return Err(balance.error);
      }
      ghost var charge := Bidding.ChargeFee(s, sub).value;
      r := FinishBatch(sub, inserted, first, feeMinor, balance.value, s, charge);
    }

    /** Counters and the stored answer, once the bids and the fee are written. */
    method FinishBatch(sub: Bidding.Submission, inserted: bool, first: nat, feeMinor: int, balance: int,
                       ghost s: State, ghost charge: Bidding.Charge) returns (r: Result<Bidding.Response>)
      requires sub.auction in s.auctions && first == |s.bids| && feeMinor == Bidding.Fee(s, sub) && balance == charge.balance
      requires var seat := Seat(sub.auction, sub.user);
        && inserted == (seat !in s.participants)
        && Rows() == s.(
             bids := s.bids + Bidding.Batch(sub, s.auctions[sub.auction].terms.bidFee, charge.entry),
             accounts := charge.accounts,
             participants := s.participants[seat := SeatOf(s.participants, seat)],
             keys := s.keys[sub.key := KeyRow(sub.user, Bidding.RequestOf(sub), None)])
      modifies this`auctions, this`participants, this`keys
      ensures r == Ok(Bidding.Response(Bidding.IdRange(|s.bids|, |sub.amounts|), Bidding.AnswerOf(s, sub, charge), false))
      ensures Rows() == Bidding.Accepted(s, sub, charge)
    {
      hide Bidding.Fee, Bidding.RequestOf, Bidding.IdRange, Bidding.Batch, Bidding.Accepted, Bidding.AnswerOf;
      var seat := Seat(sub.auction, sub.user);
      var updated := AddParticipantBids(seat, |sub.amounts|, feeMinor);
      var totals := AddBidCounters(sub.auction, |sub.amounts|, if inserted then 1 else 0);
      var remaining := totals.terms.maxBidsPerUser - updated.bidCount;
      var snapshot := Snapshot(
        first, |sub.amounts|, feeMinor, updated.bidCount, if remaining > 0 then remaining else 0,
        balance, now, totals.totalBids, totals.totalParticipants);
      AnswerParts(s, sub, charge);
      assert snapshot == Bidding.AnswerOf(s, sub, charge);
      CompleteKey(sub.key, snapshot);
      AcceptedParts(s, sub, charge);
      assert auctions == Bidding.Accepted(s, sub, charge).auctions;
      assert participants == Bidding.Accepted(s, sub, charge).participants;
      assert keys == Bidding.Accepted(s, sub, charge).keys;
      r := Ok(Bidding.Response(Bidding.IdRange(first, |sub.amounts|), snapshot, false));
    }

    method AddParticipantBids(seat: Seat, addedBids: nat, addedFees: int) returns (row: Participant)
      requires seat in participants
      modifies this`participants
      ensures row == Participant(old(participants)[seat].bidCount + addedBids, old(participants)[seat].totalFees + addedFees)
      ensures participants == old(participants)[seat := row]
    {
      row := Participant(participants[seat].bidCount + addedBids, participants[seat].totalFees + addedFees);
      participants := participants[seat := row];
    }

    method AddBidCounters(a: AuctionId, addedBids: nat, addedParticipants: nat) returns (row: Auction)
      requires a in auctions
      modifies this`auctions
      ensures row == old(auctions)[a].(
        totalBids := old(auctions)[a].totalBids + addedBids,
        totalParticipants := old(auctions)[a].totalParticipants + addedParticipants)
      ensures auctions == old(auctions)[a := row]
    {
      row := auctions[a].(
        totalBids := auctions[a].totalBids + addedBids,
        totalParticipants := auctions[a].totalParticipants + addedParticipants);
      auctions := auctions[a := row];
    }

    /** Record the answer under the key claimed for it. */
    method CompleteKey(key: string, snapshot: Snapshot)
      requires key in keys
      modifies this`keys
      ensures keys == old(keys)[key := old(keys)[key].(snapshot := Some(snapshot))]
    {
      keys := keys[key := keys[key].(snapshot := Some(snapshot))];
    }

    /** The whole transaction, from the key to the stored answer. What a refusal leaves behind is the caller's to undo. */
    method PlaceBatch(sub: Bidding.Submission) returns (r: Result<Bidding.Response>)
      requires Bidding.Precheck(Rows(), sub).None?
      modifies this, wallets
      ensures match Bidding.SubmitBids(old(Rows()), sub)
        case Err(e) => r == Err(e)
        case Ok((s', response)) => r == Ok(response) && Rows() == s'
    {
      ghost var s := Rows();
      PrecheckedAmounts(s, sub);
      hide Bidding.Precheck, Bidding.LockedCheck, Bidding.ChargeFee, Bidding.RequestOf, Bidding.BidsByKey,
           Bidding.Accepted, Bidding.AnswerOf, Bidding.IdRange, Bidding.AlreadyHolds, BidRules.Distinct;
      var claim := ClaimKey(sub);
      if claim.Rejected? {
        return Err(claim.error);
      }
      if claim.Replay? {
        var found := FindBidsByKey(sub.auction, sub.user, sub.key);
        return Ok(Bidding.Response(found, claim.snapshot, true));
      }
      if sub.auction !in auctions {
        return Err(NotFound);
      }
      SameChecks(s, Rows(), sub);
      var checked := LockAndCheck(sub);
      if checked.Err? {
        return Err(checked.error);
      }
      NothingHeld(s, sub);
      r := WriteBatch(sub, checked.value, s);
    }

    /** Cheap checks first, then one transaction that commits whole or leaves nothing. */
    method SubmitBids(sub: Bidding.Submission) returns (r: Result<Bidding.Response>)
      modifies this, inventory, wallets
      ensures match Bidding.SubmitBids(old(Rows()), sub)
        case Err(e) => r == Err(e) && Rows() == old(Rows())
        case Ok((s', response)) => r == Ok(response) && Rows() == s'
    {
      hide Bidding.BatchLadderError, Bidding.LockedCheck, Bidding.ChargeFee, Bidding.ClaimKey, Bidding.Accepted,
           Bidding.AnswerOf, Bidding.BidsByKey, Bidding.IdRange, BidRules.Distinct;
      if |sub.amounts| == 0 {
        return Err(EmptyBatch);
      }
      if |sub.amounts| > BidRules.MAX_BIDS_PER_REQUEST {
        return Err(TooManyAmounts);
      }
      for k := 0 to |sub.amounts|
        invariant forall i :: 0 <= i < k ==> sub.amounts[i] > 0
        invariant Rows() == old(Rows())
      {
        if sub.amounts[k] <= 0 {
          return Err(AmountInvalid);
        }
      }
      var unique := BidRules.AssertNoRepeats(sub.amounts);
      if unique.Err? {
        return Err(unique.error);
      }
      if !sub.eligible {
        return Err(BidderNotEligible);
      }
      if sub.auction !in auctions || auctions[sub.auction].status !in PUBLICLY_VISIBLE {
        return Err(NotFound);
      }
      if auctions[sub.auction].status != Live {
        return Err(AuctionNotLive);
      }
      var refused := AssertAmountsAllowed(auctions[sub.auction].terms, sub.amounts);
      if refused.Some? {
        return Err(refused.value);
      }
      var saved := Rows();
      r := PlaceBatch(sub);
      if r.Err? {
        Rollback(saved);
      }
    }
  }

  /** The user holds this amount in the submission's auction. */
  predicate Held(bids: seq<Bid>, sub: Bidding.Submission, amount: int) {
    exists i :: 0 <= i < |bids|
      && bids[i].auction == sub.auction && bids[i].user == sub.user && bids[i].amountMinor == amount
  }

  lemma PrecheckedAmounts(s: State, sub: Bidding.Submission)
    requires Bidding.Precheck(s, sub).None?
    ensures BidRules.Distinct(sub.amounts)
  {
    hide BidRules.Distinct;
  }

  lemma AnswerParts(s: State, sub: Bidding.Submission, charge: Bidding.Charge)
    requires sub.auction in s.auctions
    ensures var row, seat := s.auctions[sub.auction], Seat(sub.auction, sub.user);
      var count := SeatOf(s.participants, seat).bidCount + |sub.amounts|;
      Bidding.AnswerOf(s, sub, charge) == Snapshot(
        |s.bids|, |sub.amounts|, Bidding.Fee(s, sub), count,
        if row.terms.maxBidsPerUser - count > 0 then row.terms.maxBidsPerUser - count else 0,
        charge.balance, s.now, row.totalBids + |sub.amounts|,
        row.totalParticipants + if seat in s.participants then 0 else 1)
  {
    hide Bidding.Fee;
  }

  /** A committed batch, written one column at a time. */
  lemma AcceptedParts(s: State, sub: Bidding.Submission, charge: Bidding.Charge)
    requires sub.auction in s.auctions
    ensures var row, seat := s.auctions[sub.auction], Seat(sub.auction, sub.user);
      var was, answer := SeatOf(s.participants, seat), Bidding.AnswerOf(s, sub, charge);
      var updated := Participant(was.bidCount + |sub.amounts|, was.totalFees + Bidding.Fee(s, sub));
      var claimed := KeyRow(sub.user, Bidding.RequestOf(sub), None);
      Bidding.Accepted(s, sub, charge) == s.(
        bids := s.bids + Bidding.Batch(sub, row.terms.bidFee, charge.entry),
        participants := s.participants[seat := was][seat := updated],
        auctions := s.auctions[sub.auction :=
          row.(totalBids := answer.totalBids, totalParticipants := answer.totalParticipants)],
        accounts := charge.accounts,
        keys := s.keys[sub.key := claimed][sub.key := claimed.(snapshot := Some(answer))])
  {
    hide Bidding.Fee, Bidding.RequestOf, Bidding.Batch, Bidding.AnswerOf;
    AnswerParts(s, sub, charge);
    var row, seat := s.auctions[sub.auction], Seat(sub.auction, sub.user);
    var was, answer := SeatOf(s.participants, seat), Bidding.AnswerOf(s, sub, charge);
    var updated := Participant(was.bidCount + |sub.amounts|, was.totalFees + Bidding.Fee(s, sub));
    var claimed := KeyRow(sub.user, Bidding.RequestOf(sub), None);
    assert s.participants[seat := was][seat := updated] == s.participants[seat := updated];
    assert s.keys[sub.key := claimed][sub.key := claimed.(snapshot := Some(answer))]
        == s.keys[sub.key := KeyRow(sub.user, Bidding.RequestOf(sub), Some(answer))];
  }

  /** The checks under the lock read everything but the keys. */
  lemma SameChecks(s: State, s': State, sub: Bidding.Submission)
    requires sub.auction in s.auctions && s' == s.(keys := s'.keys)
    ensures Bidding.LockedCheck(s', sub) == Bidding.LockedCheck(s, sub)
  {
    hide Bidding.BatchLadderError, Holds, Bidding.AlreadyHolds;
  }

  lemma NothingHeld(s: State, sub: Bidding.Submission)
    requires sub.auction in s.auctions && Bidding.LockedCheck(s, sub).None?
    ensures !Bidding.AlreadyHolds(s.bids, sub.auction, sub.user, sub.amounts)
  {
    hide Bidding.BatchLadderError, Holds, Bidding.AlreadyHolds;
  }

  /** What the fee does depends on the auctions and the accounts alone. */
  lemma SameCharge(s: State, s': State, sub: Bidding.Submission)
    requires s'.auctions == s.auctions && s'.accounts == s.accounts && sub.auction in s.auctions
    ensures Bidding.ChargeFee(s', sub) == Bidding.ChargeFee(s, sub)
    ensures Bidding.Fee(s', sub) == Bidding.Fee(s, sub)
  {
  }

  lemma HeldAfter(bids: seq<Bid>, sub: Bidding.Submission, row: Bid)
    requires row.auction == sub.auction && row.user == sub.user
    ensures forall x :: Held(bids + [row], sub, x) <==> Held(bids, sub, x) || x == row.amountMinor
  {
    forall x
      ensures Held(bids + [row], sub, x) <==> Held(bids, sub, x) || x == row.amountMinor
    {
      if Held(bids, sub, x) {
        var i :| 0 <= i < |bids|
          && bids[i].auction == sub.auction && bids[i].user == sub.user && bids[i].amountMinor == x;
        assert (bids + [row])[i] == bids[i];
      }
      assert (bids + [row])[|bids|] == row;
    }
  }

  lemma HoldsOneMore(bids: seq<Bid>, sub: Bidding.Submission, front: seq<int>, amount: int)
    ensures Bidding.AlreadyHolds(bids, sub.auction, sub.user, front + [amount])
       <==> Bidding.AlreadyHolds(bids, sub.auction, sub.user, front) || Held(bids, sub, amount)
    ensures Bidding.AlreadyHolds(bids, sub.auction, sub.user, [amount]) <==> Held(bids, sub, amount)
  {
    assert forall x :: x in front + [amount] <==> x in front || x == amount;
  }
}
