/** An accepted submission keeps the platform's invariants. */
module BiddingKeeps {
  import opened Common
  import opened Ledger
  import opened Auctions
  import opened Catalog
  import opened BidRules
  import opened Lub
  import opened Platform
  import opened Bidding
  import opened Closing
  import opened Invariants

  // -------------------------------------------------------------------------
  // Appending a batch to the bid table
  // -------------------------------------------------------------------------

  lemma CountAppend(bids: seq<Bid>, batch: seq<Bid>, at: Seat, seat: Seat)
    requires forall i :: 0 <= i < |batch| ==> AtSeat(batch[i], at)
    ensures CountSeat(bids + batch, seat) == CountSeat(bids, seat) + if seat == at then |batch| else 0
  {
    if batch == [] {
      assert bids + batch == bids;
    } else {
      CountAppend(bids, batch[..|batch| - 1], at, seat);
      assert (bids + batch)[..|bids + batch| - 1] == bids + batch[..|batch| - 1];
    }
  }

  lemma LinesAppend(bids: seq<Bid>, batch: seq<Bid>, at: AuctionId, a: AuctionId)
    requires forall i :: 0 <= i < |batch| ==> batch[i].auction == at
    ensures a != at ==> FrozenLines(bids + batch, a) == FrozenLines(bids, a)
    ensures a == at ==> |FrozenLines(bids + batch, a)| == |FrozenLines(bids, a)| + |batch|
  {
    if batch == [] {
      assert bids + batch == bids;
    } else {
      LinesAppend(bids, batch[..|batch| - 1], at, a);
      assert (bids + batch)[..|bids + batch| - 1] == bids + batch[..|batch| - 1];
    }
  }

  lemma UserIn(participants: map<Seat, Participant>, a: AuctionId, u: UserId)
    ensures u in UsersIn(participants, a) <==> Seat(a, u) in participants
  {
    assert forall seat :: seat in participants && seat.auction == a && seat.user == u ==> seat == Seat(a, u);
    assert Seat(a, u).auction == a && Seat(a, u).user == u;
  }

  lemma UsersJoin(participants: map<Seat, Participant>, seat: Seat, p: Participant, a: AuctionId)
    ensures |UsersIn(participants[seat := p], a)|
         == |UsersIn(participants, a)| + if a == seat.auction && seat !in participants then 1 else 0
  {
    var after := participants[seat := p];
    forall u ensures u in UsersIn(after, a) <==> u in UsersIn(participants, a) || Seat(a, u) == seat {
      UserIn(after, a, u);
      UserIn(participants, a, u);
    }
    hide UsersIn;
    if a == seat.auction {
      assert UsersIn(after, a) == UsersIn(participants, a) + {seat.user};
      UserIn(participants, a, seat.user);
      assert seat == Seat(a, seat.user);
    } else {
      assert UsersIn(after, a) == UsersIn(participants, a);
    }
  }

  // -------------------------------------------------------------------------
  // What acceptance establishes
  // -------------------------------------------------------------------------

  /** The checks an accepted submission has passed, and the state it produced. */
  ghost predicate Passed(s: State, sub: Submission, charge: Charge) {
    && sub.auction in s.auctions
    && s.auctions[sub.auction].status == Live
    && s.auctions[sub.auction].terms.startsAt <= s.now < s.auctions[sub.auction].terms.endsAt
    && s.auctions[sub.auction].terms.increment > 0
    && (forall x :: x in sub.amounts ==> OnLadder(s.auctions[sub.auction].terms, x))
    && |sub.amounts| > 0 && Distinct(sub.amounts)
    && Holds(s.stock, sub.auction)
    && SeatOf(s.participants, Seat(sub.auction, sub.user)).bidCount + |sub.amounts|
         <= s.auctions[sub.auction].terms.maxBidsPerUser
    && !AlreadyHolds(s.bids, sub.auction, sub.user, sub.amounts)
    && sub.key !in s.keys
    && ChargeFee(s, sub) == Ok(charge)
  }

  lemma AcceptedPassed(s: State, sub: Submission) returns (charge: Charge)
    requires Accepts(s, sub)
    ensures Passed(s, sub, charge)
    ensures SubmitBids(s, sub).value.0 == Accepted(s, sub, charge)
    ensures SubmitBids(s, sub).value.1.answer == AnswerOf(s, sub, charge)
  {
    hide Holds, AlreadyHolds, Accepted, AnswerOf, Distinct;
    charge := ChargeFee(s, sub).value;
  }

  // -------------------------------------------------------------------------
  // The fee
  // -------------------------------------------------------------------------

  lemma FeeSign(s: State, sub: Submission)
    requires sub.auction in s.auctions && s.auctions[sub.auction].terms.bidFee >= 0 && |sub.amounts| > 0
    ensures Fee(s, sub) >= 0
    ensures Fee(s, sub) == 0 <==> s.auctions[sub.auction].terms.bidFee == 0
  {
    var fee := s.auctions[sub.auction].terms.bidFee;
    if fee > 0 {
      assert fee * |sub.amounts| >= fee * 1;
    }
  }

  function FeeEntry(s: State, sub: Submission): Entry
    requires sub.auction in s.auctions
  {
    Booking(Get(s.accounts, WalletFor(s, sub)), FeeMovement(s, sub))
  }

  /** No earlier entry carries this request's key, so the debit is never mistaken for a replay. */
  lemma FeeKeyIsFresh(s: State, sub: Submission)
    requires sub.auction in s.auctions && EntriesSound(s) && sub.key !in s.keys
    ensures FindKey(Get(s.accounts, WalletFor(s, sub)).entries, BidFeeKey(sub.key)).None?
  {
    var w := WalletFor(s, sub);
    var found := FindKey(Get(s.accounts, w).entries, BidFeeKey(sub.key));
    assert found.Some? ==> EntrySound(s, w, s.accounts[w].entries[found.value]);
  }

  /** The charge either books exactly one fee entry or, when bidding is free, nothing. */
  lemma ChargeBooks(s: State, sub: Submission, charge: Charge)
    requires Passed(s, sub, charge)
    requires LedgersSound(s.accounts) && EntriesSound(s) && s.auctions[sub.auction].terms.bidFee >= 0
    ensures var w := WalletFor(s, sub);
      && LedgersSound(charge.accounts)
      && charge.accounts.Keys == s.accounts.Keys + {w}
      && (forall v :: v in s.accounts && v != w ==> charge.accounts[v] == s.accounts[v])
      && (if Fee(s, sub) == 0 then
            charge.accounts[w].entries == Get(s.accounts, w).entries && charge.entry == None
          else
            && charge.accounts[w].entries == Get(s.accounts, w).entries + [FeeEntry(s, sub)]
            && charge.entry == Some(|charge.accounts[w].entries|)
            && FeeEntry(s, sub).amountMinor == -Fee(s, sub))
  {
    hide EntriesSound, Sound, Holds, AlreadyHolds, Distinct;
    var w := WalletFor(s, sub);
    var acc := Get(s.accounts, w);
    FeeSign(s, sub);
    FeeKeyIsFresh(s, sub);
    assert Sound(acc) by {
      assert w !in s.accounts ==> acc == EmptyAccount;
      EmptySound();
    }
    if Fee(s, sub) != 0 {
      ApplyKeepsSound(acc, w, FeeMovement(s, sub));
      BookedLength(acc, w, FeeMovement(s, sub));
    }
  }

  lemma EmptySound()
    ensures Sound(EmptyAccount)
  {
  }

  lemma BookedLength(acc: Account, w: WalletId, m: Movement)
    requires Sound(acc) && Apply(acc, w, m).Ok? && !Apply(acc, w, m).value.1.replayed
    ensures Apply(acc, w, m).value.1.seqNo == |acc.entries| + 1
    ensures Apply(acc, w, m).value.0.entries == acc.entries + [Booking(acc, m)]
  {
  }

  // -------------------------------------------------------------------------
  // Table by table
  // -------------------------------------------------------------------------

  lemma BatchShape(sub: Submission, fee: int, entry: Option<int>)
    ensures var batch := Batch(sub, fee, entry);
      && |batch| == |sub.amounts|
      && (forall i :: 0 <= i < |batch| ==>
            batch[i] == Bid(sub.auction, sub.user, sub.amounts[i], fee, sub.key, entry))
      && (forall i :: 0 <= i < |batch| ==> AtSeat(batch[i], Seat(sub.auction, sub.user)))
  {
  }

  lemma Distribute(x: int, y: int, z: int)
    ensures x * (y + z) == x * y + x * z
  {
  }

  lemma SeatsGrow(s: State, sub: Submission, charge: Charge)
    requires Passed(s, sub, charge)
    requires SeatsSound(s.auctions, s.bids, s.participants) && BidsSound(s.auctions, s.bids, s.participants)
    ensures var s' := Accepted(s, sub, charge); SeatsSound(s'.auctions, s'.bids, s'.participants)
  {
    hide ChargeFee, Holds, AlreadyHolds, Distinct, OnLadder, BidsSound;
    var s' := Accepted(s, sub, charge);
    var terms := s.auctions[sub.auction].terms;
    var mine := Seat(sub.auction, sub.user);
    var batch := Batch(sub, terms.bidFee, charge.entry);
    BatchShape(sub, terms.bidFee, charge.entry);
    NewSeatIsEmpty(s, mine);
    Distribute(terms.bidFee, SeatOf(s.participants, mine).bidCount, |sub.amounts|);
    forall seat | seat in s'.participants
      ensures SeatSound(s'.auctions, s'.bids, s'.participants, seat)
    {
      CountAppend(s.bids, batch, mine, seat);
      assert seat in s.participants ==> SeatSound(s.auctions, s.bids, s.participants, seat);
    }
  }

  lemma BidsGrow(s: State, sub: Submission, charge: Charge)
    requires Passed(s, sub, charge) && BidsSound(s.auctions, s.bids, s.participants)
    ensures var s' := Accepted(s, sub, charge); BidsSound(s'.auctions, s'.bids, s'.participants)
  {
    hide ChargeFee, Holds, AlreadyHolds, Distinct, OnLadder;
    var s' := Accepted(s, sub, charge);
    var terms := s.auctions[sub.auction].terms;
    var batch := Batch(sub, terms.bidFee, charge.entry);
    BatchShape(sub, terms.bidFee, charge.entry);
    forall i | 0 <= i < |s'.bids|
      ensures BidSound(s'.auctions, s'.participants, s'.bids[i])
    {
      if i < |s.bids| {
        assert BidSound(s.auctions, s.participants, s.bids[i]);
      } else {
        assert s'.bids[i] == batch[i - |s.bids|];
        assert sub.amounts[i - |s.bids|] in sub.amounts;
      }
    }
  }

  /** A user without a participant row has no bids. */
  lemma NewSeatIsEmpty(s: State, seat: Seat)
    requires BidsSound(s.auctions, s.bids, s.participants)
    ensures seat !in s.participants ==> CountSeat(s.bids, seat) == 0
  {
    if seat !in s.participants {
      forall i | 0 <= i < |s.bids|
        ensures !AtSeat(s.bids[i], seat)
      {
        assert BidSound(s.auctions, s.participants, s.bids[i]);
        assert seat == Seat(seat.auction, seat.user);
      }
      CountNone(s.bids, seat);
    }
  }

  lemma CountNone(bids: seq<Bid>, seat: Seat)
    requires forall i :: 0 <= i < |bids| ==> !AtSeat(bids[i], seat)
    ensures CountSeat(bids, seat) == 0
  {
  }

  lemma NoDuplicatesGrow(s: State, sub: Submission, charge: Charge)
    requires Passed(s, sub, charge) && NoDuplicates(s.bids)
    ensures NoDuplicates(Accepted(s, sub, charge).bids)
  {
    hide ChargeFee, Holds;
    var terms := s.auctions[sub.auction].terms;
    var batch := Batch(sub, terms.bidFee, charge.entry);
    BatchShape(sub, terms.bidFee, charge.entry);
    var all := s.bids + batch;
    forall i, j | 0 <= i < j < |all| && all[i].auction == all[j].auction && all[i].user == all[j].user
      ensures all[i].amountMinor != all[j].amountMinor
    {
      if |s.bids| <= j {
        assert all[j] == batch[j - |s.bids|];
        assert sub.amounts[j - |s.bids|] in sub.amounts;
        if |s.bids| <= i {
          assert all[i] == batch[i - |s.bids|];
        }
      }
    }
  }

  lemma TotalsGrow(s: State, sub: Submission, charge: Charge)
    requires Passed(s, sub, charge) && TotalsSound(s.auctions, s.bids, s.participants)
    ensures var s' := Accepted(s, sub, charge); TotalsSound(s'.auctions, s'.bids, s'.participants)
  {
    hide ChargeFee, Holds, AlreadyHolds, Distinct;
    var s' := Accepted(s, sub, charge);
    var terms := s.auctions[sub.auction].terms;
    var mine := Seat(sub.auction, sub.user);
    BatchShape(sub, terms.bidFee, charge.entry);
    forall a | a in s'.auctions
      ensures s'.auctions[a].totalBids == |FrozenLines(s'.bids, a)|
      ensures s'.auctions[a].totalParticipants == |UsersIn(s'.participants, a)|
    {
      LinesAppend(s.bids, Batch(sub, terms.bidFee, charge.entry), sub.auction, a);
      UsersJoin(s.participants, mine, s'.participants[mine], a);
    }
  }

  lemma StatusesGrow(s: State, sub: Submission, charge: Charge)
    requires Passed(s, sub, charge)
    requires AuctionsSound(s.auctions, s.now) && StatusesSound(s.auctions, s.participants)
    requires HoldsSound(s.stock, s.auctions, s.results)
    requires OrdersSound(s.auctions, s.results, s.orders)
    ensures var s' := Accepted(s, sub, charge);
      && AuctionsSound(s'.auctions, s'.now) && StatusesSound(s'.auctions, s'.participants)
      && HoldsSound(s'.stock, s'.auctions, s'.results)
      && OrdersSound(s'.auctions, s'.results, s'.orders)
  {
    hide ChargeFee, AlreadyHolds, Distinct, StockSound, Holds, OnLadder, ValidConfig, Fee, Batch, RequestOf;
    var s' := Accepted(s, sub, charge);
    forall b ensures Holds(s'.stock, b) <==> OwedUnit(s'.auctions, s'.results, b) {
      assert Holds(s.stock, b) <==> OwedUnit(s.auctions, s.results, b);
    }
  }

  lemma ResultsGrow(s: State, sub: Submission, charge: Charge)
    requires Passed(s, sub, charge) && ResultsSound(s.auctions, s.bids, s.results)
    ensures var s' := Accepted(s, sub, charge); ResultsSound(s'.auctions, s'.bids, s'.results)
  {
    hide ChargeFee, AlreadyHolds, Distinct, Holds, DecideOutcome, CountFrozenBids, Winner;
    var s' := Accepted(s, sub, charge);
    var terms := s.auctions[sub.auction].terms;
    BatchShape(sub, terms.bidFee, charge.entry);
    forall a | a in s'.results
      ensures ComputedResult(s'.bids, a, s'.auctions[a].status == Cancelled)
           == ComputedResult(s.bids, a, s.auctions[a].status == Cancelled)
    {
      LinesAppend(s.bids, Batch(sub, terms.bidFee, charge.entry), sub.auction, a);
    }
  }

  lemma KeysGrow(s: State, sub: Submission, charge: Charge)
    requires Passed(s, sub, charge) && KeysSound(s.auctions, s.bids, s.now, s.keys)
    ensures var s' := Accepted(s, sub, charge); KeysSound(s'.auctions, s'.bids, s'.now, s'.keys)
  {
    hide ChargeFee, AlreadyHolds, Distinct, Holds, SortAmounts;
    var s' := Accepted(s, sub, charge);
    var terms := s.auctions[sub.auction].terms;
    var batch := Batch(sub, terms.bidFee, charge.entry);
    BatchShape(sub, terms.bidFee, charge.entry);
    forall k | k in s'.keys
      ensures AnswerSound(s'.auctions, s'.bids, s'.now, k, s'.keys[k])
    {
      if k == sub.key {
        assert forall i :: 0 <= i < |s.bids| ==> s.bids[i].key in s.keys;
        assert AmountsOf(s'.bids, |s.bids|, |sub.amounts|) == sub.amounts;
      } else {
        OldAnswerSound(s, sub, charge, k);
      }
    }
  }

  lemma OldAnswerSound(s: State, sub: Submission, charge: Charge, k: string)
    requires Passed(s, sub, charge) && k in s.keys && AnswerSound(s.auctions, s.bids, s.now, k, s.keys[k])
    ensures var s' := Accepted(s, sub, charge); AnswerSound(s'.auctions, s'.bids, s'.now, k, s.keys[k])
  {
    hide ChargeFee, AlreadyHolds, Distinct, Holds, SortAmounts;
    var s' := Accepted(s, sub, charge);
    var terms := s.auctions[sub.auction].terms;
    var batch := Batch(sub, terms.bidFee, charge.entry);
    BatchShape(sub, terms.bidFee, charge.entry);
    var answer := s.keys[k].snapshot.value;
    assert forall i :: |s.bids| <= i < |s'.bids| ==> s'.bids[i] == batch[i - |s.bids|];
    assert AmountsOf(s'.bids, answer.firstBid, answer.count) == AmountsOf(s.bids, answer.firstBid, answer.count);
  }

  /** Refunds only ever touch finished auctions, so an open auction's seats are free to grow. */
  lemma EntriesGrow(s: State, sub: Submission, charge: Charge)
    requires Passed(s, sub, charge)
    requires LedgersSound(s.accounts) && EntriesSound(s) && s.auctions[sub.auction].terms.bidFee >= 0
    requires ResultsSound(s.auctions, s.bids, s.results)
    ensures EntriesSound(Accepted(s, sub, charge))
  {
    hide ChargeFee, AlreadyHolds, Distinct, Holds, SortAmounts, Sound, LedgersSound, ComputedResult;
    ChargeBooks(s, sub, charge);
    var s' := Accepted(s, sub, charge);
    var mine := WalletFor(s, sub);
    forall w, i | w in s'.accounts && 0 <= i < |s'.accounts[w].entries|
      ensures EntrySound(s', w, s'.accounts[w].entries[i])
    {
      if w in s.accounts && i < |s.accounts[w].entries| {
        assert EntrySound(s, w, s.accounts[w].entries[i]);
        OldEntrySound(s, sub, charge, w, s.accounts[w].entries[i]);
      } else {
        assert w == mine && s'.accounts[w].entries[i] == FeeEntry(s, sub);
      }
    }
  }

  lemma OldEntrySound(s: State, sub: Submission, charge: Charge, w: WalletId, e: Entry)
    requires Passed(s, sub, charge) && EntrySound(s, w, e)
    requires ResultsSound(s.auctions, s.bids, s.results)
    ensures EntrySound(Accepted(s, sub, charge), w, e)
  {
    hide ChargeFee, AlreadyHolds, Distinct, Holds, SortAmounts, ComputedResult;
    if e.kind == BidFeeRefund {
      assert e.key.value.auction in s.results;
      assert e.key.value.auction != sub.auction;
    }
  }

  /** Before a user's first bid nothing has been charged to them for the auction. */
  lemma NothingCharged(s: State, seat: Seat, w: WalletId, entries: seq<Entry>)
    requires KeysSound(s.auctions, s.bids, s.now, s.keys) && BidsSound(s.auctions, s.bids, s.participants)
    requires forall i :: 0 <= i < |entries| ==> EntrySound(s, w, entries[i])
    requires seat !in s.participants && w.user == seat.user
    ensures BookedFor(entries, BidFee, seat.auction) == 0
  {
    hide SortAmounts;
    if entries != [] {
      NothingCharged(s, seat, w, entries[..|entries| - 1]);
      var last := entries[|entries| - 1];
      assert EntrySound(s, w, last);
      if last.kind == BidFee {
        var k := last.key.value.request;
        assert AnswerSound(s.auctions, s.bids, s.now, k, s.keys[k]);
        var first := s.bids[s.keys[k].snapshot.value.firstBid];
        assert AtSeat(first, Seat(s.keys[k].request.auction, s.keys[k].user));
        assert BidSound(s.auctions, s.participants, first);
        assert Seat(s.keys[k].request.auction, seat.user) in s.participants;
      }
    }
  }

  lemma BookedAppend(entries: seq<Entry>, e: Entry, kind: EntryType, a: AuctionId)
    ensures BookedFor(entries + [e], kind, a)
         == BookedFor(entries, kind, a) + if e.kind == kind && e.reference == Some(a) then e.amountMinor else 0
  {
    assert (entries + [e])[..|entries|] == entries;
  }

  /** The columns the fee concerns, after an accepted submission. */
  lemma AcceptedMoney(s: State, sub: Submission, charge: Charge)
    requires sub.auction in s.auctions
    ensures var s', mine := Accepted(s, sub, charge), Seat(sub.auction, sub.user);
      && s'.accounts == charge.accounts
      && s'.participants.Keys == s.participants.Keys + {mine}
      && s'.participants[mine].totalFees == SeatOf(s.participants, mine).totalFees + Fee(s, sub)
      && (forall seat :: seat in s.participants && seat != mine ==> s'.participants[seat] == s.participants[seat])
      && s'.auctions.Keys == s.auctions.Keys
      && (forall a :: a in s.auctions ==> s'.auctions[a].currency == s.auctions[a].currency)
  {
    hide Fee, RequestOf, Batch;
  }

  /** Appending the fee to the paying wallet changes the sum of that seat by the fee and of no other. */
  lemma ChargedAt(s: State, sub: Submission, charge: Charge, seat: Seat)
    requires sub.auction in s.auctions && seat.auction in s.auctions
    requires var w := WalletFor(s, sub); var before := Get(s.accounts, w).entries;
      && w in charge.accounts
      && (forall v :: v in s.accounts && v != w ==> v in charge.accounts && charge.accounts[v] == s.accounts[v])
      && (forall v :: v in charge.accounts ==> v in s.accounts || v == w)
      && charge.accounts[w].entries == (if Fee(s, sub) == 0 then before else before + [FeeEntry(s, sub)])
      && (Fee(s, sub) != 0 ==> FeeEntry(s, sub).amountMinor == -Fee(s, sub))
    ensures BookedFor(Get(charge.accounts, FeeWallet(s.auctions, seat)).entries, BidFee, seat.auction)
         == BookedFor(Get(s.accounts, FeeWallet(s.auctions, seat)).entries, BidFee, seat.auction)
            - if seat == Seat(sub.auction, sub.user) then Fee(s, sub) else 0
  {
    hide Fee, BookedFor;
    BookedAppend(Get(s.accounts, WalletFor(s, sub)).entries, FeeEntry(s, sub), BidFee, seat.auction);
  }

  lemma ChargesGrow(s: State, sub: Submission, charge: Charge)
    requires Passed(s, sub, charge)
    requires LedgersSound(s.accounts) && EntriesSound(s) && s.auctions[sub.auction].terms.bidFee >= 0
    requires KeysSound(s.auctions, s.bids, s.now, s.keys) && BidsSound(s.auctions, s.bids, s.participants)
    requires ChargesSound(s.auctions, s.participants, s.accounts)
    ensures var s' := Accepted(s, sub, charge); ChargesSound(s'.auctions, s'.participants, s'.accounts)
  {
    hide ChargeFee, AlreadyHolds, Distinct, Holds, SortAmounts, Sound, LedgersSound, KeysSound, BidsSound,
         EntrySound, Accepted, OnLadder, FeeEntry, Fee, BookedFor;
    ChargeBooks(s, sub, charge);
    AcceptedMoney(s, sub, charge);
    var s' := Accepted(s, sub, charge);
    var mine := Seat(sub.auction, sub.user);
    var w := WalletFor(s, sub);
    if mine !in s.participants {
      NothingCharged(s, mine, w, Get(s.accounts, w).entries);
    }
    forall seat | seat in s'.participants && seat.auction in s'.auctions
      ensures BookedFor(Get(s'.accounts, FeeWallet(s'.auctions, seat)).entries, BidFee, seat.auction)
           == -s'.participants[seat].totalFees
    {
      ChargedAt(s, sub, charge, seat);
      assert FeeWallet(s'.auctions, seat) == FeeWallet(s.auctions, seat);
    }
  }

  lemma PaymentsGrow(s: State, sub: Submission, charge: Charge)
    requires Passed(s, sub, charge)
    requires LedgersSound(s.accounts) && EntriesSound(s) && s.auctions[sub.auction].terms.bidFee >= 0
    requires PaymentsSound(s.auctions, s.bids, s.accounts)
    ensures var s' := Accepted(s, sub, charge); PaymentsSound(s'.auctions, s'.bids, s'.accounts)
  {
    hide ChargeFee, AlreadyHolds, Distinct, Holds, SortAmounts, Sound, LedgersSound, EntriesSound;
    ChargeBooks(s, sub, charge);
    FeeSign(s, sub);
    var s' := Accepted(s, sub, charge);
    var terms := s.auctions[sub.auction].terms;
    var batch := Batch(sub, terms.bidFee, charge.entry);
    BatchShape(sub, terms.bidFee, charge.entry);
    forall i | 0 <= i < |s'.bids|
      ensures PaidBySound(s'.auctions, s'.accounts, s'.bids[i])
    {
      if i < |s.bids| {
        assert PaidBySound(s.auctions, s.accounts, s.bids[i]);
      } else {
        assert s'.bids[i] == batch[i - |s.bids|];
      }
    }
  }

  /** An accepted submission keeps every invariant. */
  lemma SubmitKeeps(s: State, sub: Submission)
    requires Inv(s) && Accepts(s, sub)
    ensures Inv(SubmitBids(s, sub).value.0)
  {
    hide LedgersSound, SeatsSound, BidsSound, NoDuplicates, TotalsSound, StatusesSound, HoldsSound,
         ResultsSound, OrdersSound, KeysSound, EntriesSound, ChargesSound, PaymentsSound, SubmitBids, AnswerOf,
         Holds, AlreadyHolds, Distinct, ChargeFee;
    var charge := AcceptedPassed(s, sub);
    assert AuctionSound(s.auctions[sub.auction], s.now);
    ChargeBooks(s, sub, charge);
    SeatsGrow(s, sub, charge);
    BidsGrow(s, sub, charge);
    NoDuplicatesGrow(s, sub, charge);
    TotalsGrow(s, sub, charge);
    StatusesGrow(s, sub, charge);
    ResultsGrow(s, sub, charge);
    KeysGrow(s, sub, charge);
    EntriesGrow(s, sub, charge);
    ChargesGrow(s, sub, charge);
    PaymentsGrow(s, sub, charge);
  }
}
