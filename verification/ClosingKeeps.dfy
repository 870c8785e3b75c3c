/** Deciding, refunding and every other wallet movement keep the platform's invariants. */
module ClosingKeeps {
  import opened Common
  import opened Ledger
  import opened Auctions
  import opened Catalog
  import opened Lub
  import opened Platform
  import opened Lifecycle
  import opened Closing
  import opened Invariants
  import opened LifecycleKeeps
  import opened BiddingKeeps

  // -------------------------------------------------------------------------
  // Money
  // -------------------------------------------------------------------------

  /** One account replaced by a sound one whose ledger grew by at most one non-fee entry. */
  ghost predicate SoundGrowth(s: State, w: WalletId, acc: Account) {
    && Sound(acc)
    && var was := Get(s.accounts, w).entries;
       || acc.entries == was
       || (exists e :: acc.entries == was + [e] && e.kind != BidFee && EntrySound(s, w, e))
  }

  lemma AccountKeeps(s: State, w: WalletId, acc: Account)
    requires Inv(s) && SoundGrowth(s, w, acc)
    ensures Inv(s.(accounts := s.accounts[w := acc]))
  {
    hide SeatsSound, BidsSound, NoDuplicates, TotalsSound, StatusesSound, HoldsSound, AuctionsSound,
         ResultsSound, OrdersSound, KeysSound, Sound;
    var s' := s.(accounts := s.accounts[w := acc]);
    forall v, i | v in s'.accounts && 0 <= i < |s'.accounts[v].entries|
      ensures EntrySound(s', v, s'.accounts[v].entries[i])
    {
      assert v in s.accounts && i < |s.accounts[v].entries| ==> EntrySound(s, v, s.accounts[v].entries[i]);
    }
    ChargesUnmoved(s, w, acc);
    PaymentsUnmoved(s, w, acc);
  }

  lemma ChargesUnmoved(s: State, w: WalletId, acc: Account)
    requires ChargesSound(s.auctions, s.participants, s.accounts) && SoundGrowth(s, w, acc)
    ensures ChargesSound(s.auctions, s.participants, s.accounts[w := acc])
  {
    hide Sound, EntrySound;
    var was := Get(s.accounts, w).entries;
    forall seat | seat in s.participants && seat.auction in s.auctions
      ensures BookedFor(Get(s.accounts[w := acc], FeeWallet(s.auctions, seat)).entries, BidFee, seat.auction)
           == -s.participants[seat].totalFees
    {
      if acc.entries != was {
        var e :| acc.entries == was + [e] && e.kind != BidFee && EntrySound(s, w, e);
        BookedAppend(was, e, BidFee, seat.auction);
      }
    }
  }

  lemma PaymentsUnmoved(s: State, w: WalletId, acc: Account)
    requires PaymentsSound(s.auctions, s.bids, s.accounts) && SoundGrowth(s, w, acc)
    ensures PaymentsSound(s.auctions, s.bids, s.accounts[w := acc])
  {
    hide Sound, EntrySound;
    forall i | 0 <= i < |s.bids|
      ensures PaidBySound(s.auctions, s.accounts[w := acc], s.bids[i])
    {
      assert PaidBySound(s.auctions, s.accounts, s.bids[i]);
    }
  }

  lemma GetSound(s: State, w: WalletId)
    requires LedgersSound(s.accounts)
    ensures Sound(Get(s.accounts, w))
  {
    EmptySound();
  }

  /** A movement whose own entry would be sound keeps the platform sound, refused or not. */
  lemma PostedKeeps(s: State, w: WalletId, m: Movement)
    requires Inv(s) && m.kind != BidFee
    requires EntrySound(s, w, Booking(Get(s.accounts, w), m))
    ensures Inv(s.(accounts := Posted(s.accounts, w, m).0))
  {
    hide SeatsSound, BidsSound, NoDuplicates, TotalsSound, StatusesSound, HoldsSound, AuctionsSound,
         ResultsSound, OrdersSound, KeysSound, Sound, EntrySound, EntriesSound, ChargesSound, PaymentsSound;
    var acc := Get(s.accounts, w);
    GetSound(s, w);
    var r := Apply(acc, w, m);
    if r.Ok? {
      ApplyKeepsSound(acc, w, m);
      AccountKeeps(s, w, r.value.0);
    } else {
      AccountKeeps(s, w, acc);
    }
  }

  /** What callers outside the bidding and results modules may book. */
  predicate Outside(m: Movement) {
    m.kind !in {BidFee, BidFeeRefund} && (m.key.None? || m.key.value.ClientKey?)
  }

  lemma OutsideKeeps(s: State, w: WalletId, m: Movement)
    requires Inv(s) && Outside(m)
    ensures Inv(s.(accounts := Posted(s.accounts, w, m).0))
  {
    hide Inv;
    PostedKeeps(s, w, m);
  }

  lemma FreezeKeeps(s: State, w: WalletId, frozen: bool)
    requires Inv(s) && w in s.accounts
    ensures Inv(s.(accounts := s.accounts[w := s.accounts[w].(frozen := frozen)]))
  {
    assert Sound(s.accounts[w]);
    hide Inv;
    AccountKeeps(s, w, s.accounts[w].(frozen := frozen));
  }

  // -------------------------------------------------------------------------
  // Refunds
  // -------------------------------------------------------------------------

  /** The refund has been booked. */
  predicate Refunded(s: State, a: AuctionId, u: UserId) {
    FindKey(Get(s.accounts, RefundWallet(u)).entries, RefundKey(a, u)).Some?
  }

  /**
   * A refund that is owed never fails: the first one books the whole fee, and
   * every later one is a replay that changes nothing.
   */
  lemma RefundSucceeds(s: State, a: AuctionId, u: UserId)
    requires LedgersSound(s.accounts) && EntriesSound(s) && IsPayer(s, a, u)
    ensures var (s', r) := RefundOne(s, a, u);
      && r.Ok?
      && r.value.replayed == Refunded(s, a, u)
      && (Refunded(s, a, u) ==> s' == s)
      && (!Refunded(s, a, u) ==>
            s'.accounts == s.accounts[RefundWallet(u) :=
              Booked(Get(s.accounts, RefundWallet(u)), RefundMovement(s, a, u))])
  {
    hide Sound, EntrySound;
    var w := RefundWallet(u);
    var acc := Get(s.accounts, w);
    var m := RefundMovement(s, a, u);
    var found := FindKey(acc.entries, RefundKey(a, u));
    assert acc.available >= 0 by {
      GetSound(s, w);
      SoundIsNonNegative(acc);
    }
    if found.Some? {
      RefundEntryFacts(s, w, acc.entries[found.value]);
      assert s.accounts[w := acc] == s.accounts;
    }
  }

  lemma SoundIsNonNegative(acc: Account)
    requires Sound(acc)
    ensures acc.available >= 0
  {
  }

  lemma RefundEntryFacts(s: State, w: WalletId, e: Entry)
    requires EntriesSound(s) && w in s.accounts && e in s.accounts[w].entries
    requires e.key.Some? && e.key.value.RefundKey?
    ensures var a, u := e.key.value.auction, e.key.value.user;
      && w == RefundWallet(u) && Refundable(s, a) && IsPayer(s, a, u)
      && SameMovement(e, RefundMovement(s, a, u))
  {
    var i :| 0 <= i < |s.accounts[w].entries| && s.accounts[w].entries[i] == e;
    assert EntrySound(s, w, s.accounts[w].entries[i]);
  }

  lemma RefundKeeps(s: State, a: AuctionId, u: UserId)
    requires Inv(s) && Refundable(s, a) && IsPayer(s, a, u)
    ensures Inv(RefundOne(s, a, u).0)
  {
    hide Inv;
    PostedKeeps(s, RefundWallet(u), RefundMovement(s, a, u));
  }

  // -------------------------------------------------------------------------
  // The decision
  // -------------------------------------------------------------------------

  lemma OutcomeIsWinner(bids: seq<Bid>, a: AuctionId, cancelled: bool)
    ensures var r := ComputedResult(bids, a, cancelled);
      && (r.outcome == HasWinner <==> r.winner.Some?)
      && (r.winner.Some? <==> r.winningAmount.Some?) && (r.winner.Some? <==> r.winningBid.Some?)
      && (r.outcome == WasCancelled <==> cancelled)
  {
    hide Winner, CountFrozenBids, FrozenLines;
  }

  /** Deciding an auction that already has its result changes nothing at all. */
  lemma DecideAgain(s: State, a: AuctionId)
    requires Inv(s) && a in s.results
    ensures Decide(s, a) == Ok(s)
  {
    hide SeatsSound, BidsSound, NoDuplicates, TotalsSound, StatusesSound, AuctionsSound, LedgersSound,
         KeysSound, EntriesSound, ChargesSound, PaymentsSound, ComputedResult;
    OutcomeIsWinner(s.bids, a, s.auctions[a].status == Cancelled);
    Here(s, a);
    ReleaseKeeps(s.stock, a);
    assert s.results[a := s.results[a]] == s.results;
  }

  function Finished(row: Auction): Auction {
    if row.status == Cancelled then row else row.(status := Completed)
  }

  function Released(stock: Stock, a: AuctionId): Stock {
    if Release(stock, a).Ok? then Release(stock, a).value else stock
  }

  /** What one decision changes: its result row, then the order or the unit, then the status. */
  function Decided(s: State, a: AuctionId): State
    requires a in s.auctions
  {
    var row := s.auctions[a];
    var result := ComputedResult(s.bids, a, row.status == Cancelled);
    var won := result.outcome == HasWinner && result.winner.Some? && result.winningAmount.Some?;
    s.(
      results := s.results[a := result],
      orders := if won then s.orders[a := OrderOf(row, result)] else s.orders,
      stock := if won then s.stock else Released(s.stock, a),
      auctions := s.auctions[a := Finished(row)])
  }

  lemma DecideFirst(s: State, a: AuctionId)
    requires Inv(s) && a in s.auctions && a !in s.results && s.auctions[a].status in {Calculating, Cancelled}
    ensures Decide(s, a) == Ok(Decided(s, a))
  {
    hide SeatsSound, BidsSound, NoDuplicates, TotalsSound, StatusesSound, AuctionsSound, LedgersSound,
         KeysSound, EntriesSound, ChargesSound, PaymentsSound, ComputedResult, HoldsSound, ResultsSound;
    OutcomeIsWinner(s.bids, a, s.auctions[a].status == Cancelled);
    Here(s, a);
    ReleaseKeeps(s.stock, a);
    assert s.auctions[a := s.auctions[a]] == s.auctions;
  }

  lemma DecidedResults(s: State, a: AuctionId)
    requires a in s.auctions && a !in s.results && s.auctions[a].status in {Calculating, Cancelled}
    requires ResultsSound(s.auctions, s.bids, s.results)
    ensures var s' := Decided(s, a); ResultsSound(s'.auctions, s'.bids, s'.results)
  {
    hide ComputedResult, Release, Released, OrderOf;
  }

  lemma DecidedOrders(s: State, a: AuctionId)
    requires a in s.auctions && a !in s.results && s.auctions[a].status in {Calculating, Cancelled}
    requires OrdersSound(s.auctions, s.results, s.orders)
    ensures var s' := Decided(s, a); OrdersSound(s'.auctions, s'.results, s'.orders)
  {
    hide ComputedResult, Release;
    OutcomeIsWinner(s.bids, a, s.auctions[a].status == Cancelled);
  }

  /** A decision touches neither bids, nor money, nor terms. */
  lemma DecidedFrame(s: State, a: AuctionId)
    requires a in s.auctions && a !in s.results
    ensures BidsUntouched(s, Decided(s, a))
  {
    hide ComputedResult, Release, Released, OrderOf;
    var s' := Decided(s, a);
    assert s'.auctions == s.auctions[a := Finished(s.auctions[a])];
    assert forall b :: Refundable(s, b) ==> b != a && s'.results[b] == s.results[b];
    assert forall b :: b in s.auctions ==> SameTrade(s.auctions[b], s'.auctions[b]);
  }

  lemma DecidedStatuses(s: State, a: AuctionId)
    requires a in s.auctions && s.auctions[a].status in {Calculating, Cancelled}
    requires AuctionsSound(s.auctions, s.now) && StatusesSound(s.auctions, s.participants)
    ensures AuctionsSound(s.auctions[a := Finished(s.auctions[a])], s.now)
    ensures StatusesSound(s.auctions[a := Finished(s.auctions[a])], s.participants)
  {
    hide ValidConfig;
    assert AuctionSound(s.auctions[a], s.now);
  }

  lemma DecidedHolds(s: State, a: AuctionId)
    requires a in s.auctions && a !in s.results && s.auctions[a].status in {Calculating, Cancelled}
    requires HoldsSound(s.stock, s.auctions, s.results)
    ensures var s' := Decided(s, a); HoldsSound(s'.stock, s'.auctions, s'.results)
  {
    hide ComputedResult, Release, StockSound, Holds;
    OutcomeIsWinner(s.bids, a, s.auctions[a].status == Cancelled);
    ReleaseKeeps(s.stock, a);
    var s' := Decided(s, a);
    forall b ensures Holds(s'.stock, b) <==> OwedUnit(s'.auctions, s'.results, b) {
      assert Holds(s.stock, b) <==> OwedUnit(s.auctions, s.results, b);
    }
  }

  lemma DecidedKeeps(s: State, a: AuctionId)
    requires Inv(s) && a in s.auctions && a !in s.results && s.auctions[a].status in {Calculating, Cancelled}
    ensures Inv(Decided(s, a))
  {
    hide SeatsSound, BidsSound, NoDuplicates, TotalsSound, LedgersSound, ComputedResult, Release,
         KeysSound, EntriesSound, ChargesSound, PaymentsSound, HoldsSound, ResultsSound, OrdersSound,
         AuctionsSound, StatusesSound, BidsUntouched;
    var s' := Decided(s, a);
    DecidedFrame(s, a);
    DecidedStatuses(s, a);
    RecordsFrame(s, s');
    TotalsFrame(s, s');
    KeysFrame(s, s');
    EntriesFrame(s, s');
    DecidedResults(s, a);
    DecidedOrders(s, a);
    DecidedHolds(s, a);
  }

  /** A decision gets through only from `calculating`, or on an auction already terminal. */
  lemma DecideCases(s: State, a: AuctionId)
    requires ResultsSound(s.auctions, s.bids, s.results) && Decide(s, a).Ok?
    ensures a in s.auctions
    ensures a in s.results || s.auctions[a].status in {Calculating, Cancelled}
  {
    hide ComputedResult, Release, OrderOf;
  }

  lemma DecideKeeps(s: State, a: AuctionId)
    requires Inv(s) && Decide(s, a).Ok?
    ensures Inv(Decide(s, a).value)
  {
    assert a in s.auctions && (a in s.results || s.auctions[a].status in {Calculating, Cancelled}) by {
      DecideCases(s, a);
    }
    hide Inv, Decide, Decided;
    if a in s.results {
      DecideAgain(s, a);
    } else {
      DecideFirst(s, a);
      DecidedKeeps(s, a);
    }
  }
}
