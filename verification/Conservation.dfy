/**
 * Participation fees over whole runs: what an auction charged a user, what it
 * gave back, and exactly when the two meet.
 */
module Conservation {
  import opened Common
  import opened Ledger
  import opened Auctions
  import opened Lub
  import opened Platform
  import opened Bidding
  import opened Closing
  import opened Invariants
  import opened BiddingKeeps
  import opened ClosingKeeps
  import opened Runs

  function EntriesOf(s: State, u: UserId, c: Currency): seq<Entry> {
    Get(s.accounts, WalletId(u, c)).entries
  }

  /** The signed `bid_fee` entries of one wallet for one auction. */
  function Charged(s: State, a: AuctionId, u: UserId, c: Currency): int {
    BookedFor(EntriesOf(s, u, c), BidFee, a)
  }

  /** The signed `bid_fee_refund` entries of one wallet for one auction. */
  function Returned(s: State, a: AuctionId, u: UserId, c: Currency): int {
    BookedFor(EntriesOf(s, u, c), BidFeeRefund, a)
  }

  function Net(s: State, a: AuctionId, u: UserId, c: Currency): int {
    Charged(s, a, u, c) + Returned(s, a, u, c)
  }

  function FeesOwed(s: State, a: AuctionId, u: UserId): int {
    SeatOf(s.participants, Seat(a, u)).totalFees
  }

  // -------------------------------------------------------------------------
  // One wallet at a time
  // -------------------------------------------------------------------------

  /** Fees for an auction are only ever booked in wallets of its own currency. */
  lemma {:induction false} NothingForeign(s: State, w: WalletId, entries: seq<Entry>, a: AuctionId)
    requires forall i :: 0 <= i < |entries| ==> EntrySound(s, w, entries[i])
    requires a in s.auctions && w.currency != s.auctions[a].currency
    ensures BookedFor(entries, BidFee, a) == 0
    decreases |entries|
  {
    if entries != [] {
      NothingForeign(s, w, entries[..|entries| - 1], a);
      assert EntrySound(s, w, entries[|entries| - 1]);
    }
  }

  /** A wallet books at most one refund for an auction, and it is the owner's whole fee. */
  lemma {:induction false} RefundsBooked(s: State, w: WalletId, entries: seq<Entry>, a: AuctionId)
    requires forall i :: 0 <= i < |entries| ==> EntrySound(s, w, entries[i])
    requires KeysUnique(entries)
    ensures BookedFor(entries, BidFeeRefund, a)
         == if FindKey(entries, RefundKey(a, w.user)).Some? then FeesOwed(s, a, w.user) else 0
    ensures FindKey(entries, RefundKey(a, w.user)).Some? ==> w == RefundWallet(w.user)
    decreases |entries|
  {
    if entries != [] {
      var front, last := entries[..|entries| - 1], entries[|entries| - 1];
      RefundsBooked(s, w, front, a);
      assert EntrySound(s, w, last);
      if last.key == Some(RefundKey(a, w.user)) {
        assert forall i :: 0 <= i < |front| ==> entries[i].key != last.key;
      }
    }
  }

  lemma WalletFacts(s: State, w: WalletId)
    requires Inv(s)
    ensures KeysUnique(Get(s.accounts, w).entries)
    ensures forall i :: 0 <= i < |Get(s.accounts, w).entries| ==> EntrySound(s, w, Get(s.accounts, w).entries[i])
  {
    hide SeatsSound, BidsSound, NoDuplicates, TotalsSound, StatusesSound, HoldsSound, AuctionsSound,
         ResultsSound, OrdersSound, KeysSound, ChargesSound, PaymentsSound, EntrySound, Replays, SignsFollowTypes;
    assert w in s.accounts ==> Sound(s.accounts[w]);
  }

  lemma ChargedInOwnCurrency(s: State, a: AuctionId, u: UserId)
    requires Inv(s) && a in s.auctions
    ensures Charged(s, a, u, s.auctions[a].currency) == -FeesOwed(s, a, u)
  {
    hide SeatsSound, BidsSound, NoDuplicates, TotalsSound, StatusesSound, HoldsSound, AuctionsSound,
         ResultsSound, OrdersSound, KeysSound, LedgersSound, PaymentsSound, EntrySound, EntriesSound;
    var seat := Seat(a, u);
    if seat !in s.participants {
      var w := FeeWallet(s.auctions, seat);
      WalletFacts(s, w);
      NothingCharged(s, seat, w, Get(s.accounts, w).entries);
    } else {
      assert FeeWallet(s.auctions, seat) == WalletId(u, s.auctions[a].currency);
    }
  }

  lemma ChargedIs(s: State, a: AuctionId, u: UserId, c: Currency)
    ensures Charged(s, a, u, c) == BookedFor(Get(s.accounts, WalletId(u, c)).entries, BidFee, a)
  {
  }

  lemma RefundedIs(s: State, a: AuctionId, u: UserId)
    ensures Refunded(s, a, u) <==> FindKey(Get(s.accounts, WalletId(u, ETB)).entries, RefundKey(a, u)).Some?
  {
  }

  // -------------------------------------------------------------------------
  // Every run
  // -------------------------------------------------------------------------

  /**
   * After any run, in every one of a user's wallets: the auction's fees were
   * charged in full in its own currency and nowhere else, and were returned in
   * full, in birr, exactly when the refund has been booked.
   */
  lemma FeesAccounted(s: State, a: AuctionId, u: UserId, c: Currency)
    requires Reachable(s) && a in s.auctions
    ensures Charged(s, a, u, c) == if c == s.auctions[a].currency then -FeesOwed(s, a, u) else 0
    ensures Returned(s, a, u, c) == if c == ETB && Refunded(s, a, u) then FeesOwed(s, a, u) else 0
  {
    hide Inv, EntrySound, Reachable, Charged, Refunded, KeysUnique, FeesOwed;
    ReachableIsSound(s);
    var w := WalletId(u, c);
    assert Charged(s, a, u, c) == BookedFor(Get(s.accounts, w).entries, BidFee, a) by { ChargedIs(s, a, u, c); }
    WalletFacts(s, w);
    RefundedIs(s, a, u);
    RefundsBooked(s, w, Get(s.accounts, w).entries, a);
    if c == s.auctions[a].currency {
      ChargedInOwnCurrency(s, a, u);
    } else {
      NothingForeign(s, w, Get(s.accounts, w).entries, a);
    }
  }

  /** In a birr auction the fee wallet owes exactly the fees until the refund, and nothing after it. */
  lemma FeesConserved(s: State, a: AuctionId, u: UserId)
    requires Reachable(s) && a in s.auctions && s.auctions[a].currency == ETB
    ensures Net(s, a, u, ETB) == if Refunded(s, a, u) then 0 else -FeesOwed(s, a, u)
    ensures forall c :: c != ETB ==> Net(s, a, u, c) == 0
  {
    hide Reachable;
    forall c ensures Net(s, a, u, c)
      == if c == ETB && !Refunded(s, a, u) then -FeesOwed(s, a, u) else 0
    {
      FeesAccounted(s, a, u, c);
    }
  }

  /**
   * A refund settles every wallet exactly when the auction was in birr: a refund
   * names no currency, so it is booked in the default one.
   */
  lemma RefundSettlesExactlyInBirr(s: State, a: AuctionId, u: UserId)
    requires Reachable(s) && Refunded(s, a, u)
    ensures a in s.auctions
    ensures (forall c :: Net(s, a, u, c) == 0) <==> s.auctions[a].currency == ETB
  {
    RefundIsJustified(s, a, u);
    hide Reachable;
    FeesAccounted(s, a, u, s.auctions[a].currency);
    if s.auctions[a].currency == ETB {
      FeesConserved(s, a, u);
    } else {
      assert Net(s, a, u, s.auctions[a].currency) == -FeesOwed(s, a, u) != 0;
    }
  }

  /** Refunds go only to payers of an auction that ended without a unique bid or was cancelled, once each. */
  lemma RefundIsJustified(s: State, a: AuctionId, u: UserId)
    requires Reachable(s) && Refunded(s, a, u)
    ensures Refundable(s, a) && IsPayer(s, a, u) && a in s.auctions
    ensures var entries := EntriesOf(s, u, ETB);
      forall i, j :: 0 <= i < j < |entries| && entries[i].key == Some(RefundKey(a, u))
        ==> entries[j].key != Some(RefundKey(a, u))
  {
    ReachableIsSound(s);
    hide Inv, Reachable;
    var w := RefundWallet(u);
    WalletFacts(s, w);
    var p := FindKey(Get(s.accounts, w).entries, RefundKey(a, u)).value;
    assert EntrySound(s, w, Get(s.accounts, w).entries[p]);
    ResultHasAuction(s, a);
  }

  /**
   * Every refund entry in any ledger is in birr, for an auction whose result is
   * no unique bid or cancelled, of the whole fee its owner paid there, and the
   * only one of its kind.
   */
  lemma EveryRefundIsEarned(s: State, w: WalletId, i: nat)
    requires Reachable(s) && w in s.accounts && i < |s.accounts[w].entries|
    requires s.accounts[w].entries[i].kind == BidFeeRefund
    ensures var e := s.accounts[w].entries[i];
      && w.currency == ETB && e.reference.Some?
      && var a := e.reference.value;
         && a in s.results && (s.results[a].outcome == NoUniqueBid || s.results[a].outcome == WasCancelled)
         && Seat(a, w.user) in s.participants && e.amountMinor == s.participants[Seat(a, w.user)].totalFees > 0
         && forall j | 0 <= j < |s.accounts[w].entries| && s.accounts[w].entries[j].kind == BidFeeRefund ::
              j != i ==> s.accounts[w].entries[j].reference != Some(a)
  {
    ReachableIsSound(s);
    WalletFacts(s, w);
    hide Inv, Reachable;
    var entries := Get(s.accounts, w).entries;
    assert EntrySound(s, w, entries[i]);
    forall j | 0 <= j < |entries| && j != i && entries[j].kind == BidFeeRefund
      ensures entries[j].reference != entries[i].reference
    {
      assert EntrySound(s, w, entries[j]);
    }
  }

  lemma ResultHasAuction(s: State, a: AuctionId)
    requires Inv(s) && a in s.results
    ensures a in s.auctions
  {
    hide SeatsSound, BidsSound, NoDuplicates, TotalsSound, StatusesSound, HoldsSound, AuctionsSound, ComputedResult,
         OrdersSound, KeysSound, LedgersSound, PaymentsSound, EntriesSound, ChargesSound;
  }

  lemma NetIs(s: State, a: AuctionId, u: UserId, c: Currency)
    ensures Net(s, a, u, c) == Charged(s, a, u, c) + Returned(s, a, u, c)
  {
  }

  lemma RefundedStays(s: State, later: State, a: AuctionId, u: UserId)
    requires Permanent(s, later) && Refunded(s, a, u)
    ensures Refunded(later, a, u)
  {
    var p := FindKey(EntriesOf(s, u, ETB), RefundKey(a, u)).value;
    assert EntriesOf(s, u, ETB) <= EntriesOf(later, u, ETB);
    assert EntriesOf(later, u, ETB)[p].key == Some(RefundKey(a, u));
  }

  lemma RefundAgain(s: State, a: AuctionId, u: UserId)
    requires Reachable(s) && Refunded(s, a, u)
    ensures Next(s, FeeReturned(a, u)) == s
  {
    ReachableIsSound(s);
    RefundIsJustified(s, a, u);
    assert LedgersSound(s.accounts) && EntriesSound(s);
    hide Inv, LedgersSound, EntriesSound, Reachable, Next, RefundOne, Refunded;
    NextReturned(s, a, u);
    RefundSucceeds(s, a, u);
  }

  lemma FeesFinal(s: State, later: State, a: AuctionId, u: UserId)
    requires Inv(s) && Refundable(s, a) && FrozenFrom(s, later)
    ensures FeesOwed(later, a, u) == FeesOwed(s, a, u)
  {
    hide SeatsSound, BidsSound, NoDuplicates, TotalsSound, StatusesSound, HoldsSound, AuctionsSound, ComputedResult,
         OrdersSound, KeysSound, LedgersSound, PaymentsSound, EntriesSound, ChargesSound;
    assert PastBidding(s, a);
  }

  /** However the run continues, a refund already made is never made again, and the wallet's net is final. */
  lemma RefundNeverRepeats(s: State, steps: seq<Step>, a: AuctionId, u: UserId, c: Currency)
    requires Reachable(s) && Refunded(s, a, u)
    ensures var later := Exec(s, steps);
      && Refunded(later, a, u)
      && Next(later, FeeReturned(a, u)) == later
      && Net(later, a, u, c) == Net(s, a, u, c)
  {
    hide Inv, Reachable, Exec, Next, Refunded, FrozenFrom, Net;
    var later := Exec(s, steps);
    ReachableIsSound(s);
    RunIsPermanent(s, steps);
    ReachableOn(s, steps);
    RefundedStays(s, later, a, u);
    RefundAgain(later, a, u);
    RefundIsJustified(s, a, u);
    FeesFinal(s, later, a, u);
    assert a in later.auctions && SameGoods(s.auctions[a], later.auctions[a]);
    hide Permanent;
    NetIs(s, a, u, c);
    NetIs(later, a, u, c);
    FeesAccounted(s, a, u, c);
    FeesAccounted(later, a, u, c);
  }
}
