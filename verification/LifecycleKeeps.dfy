/** Every status change, edit and stock operation keeps the platform's invariants. */
module LifecycleKeeps {
  import opened Common
  import opened Ledger
  import opened Auctions
  import opened Catalog
  import opened Lub
  import opened Platform
  import opened Lifecycle
  import opened Closing
  import opened Invariants

  predicate SameTrade(row: Auction, row': Auction) {
    && row'.product == row.product
    && row'.currency == row.currency
    && row'.totalBids == row.totalBids
    && row'.totalParticipants == row.totalParticipants
  }

  ghost predicate NobodyIn(participants: map<Seat, Participant>, a: AuctionId) {
    forall u :: Seat(a, u) !in participants
  }

  /** The bids, their money and their answers are untouched; terms change only where nobody has bid. */
  ghost predicate BidsUntouched(s: State, s': State) {
    && s'.bids == s.bids && s'.participants == s.participants
    && s'.keys == s.keys && s'.accounts == s.accounts
    && s'.now >= s.now
    && (forall a :: Refundable(s, a) ==> Refundable(s', a))
    && (forall a :: a in s.auctions ==>
          && a in s'.auctions
          && SameTrade(s.auctions[a], s'.auctions[a])
          && (s'.auctions[a].terms == s.auctions[a].terms || NobodyIn(s.participants, a)))
    && (forall a :: a in s'.auctions && a !in s.auctions ==>
          s'.auctions[a].totalBids == 0 && s'.auctions[a].totalParticipants == 0)
  }

  lemma NoLines(bids: seq<Bid>, a: AuctionId)
    requires forall i :: 0 <= i < |bids| ==> bids[i].auction != a
    ensures FrozenLines(bids, a) == []
  {
  }

  lemma RecordsFrame(s: State, s': State)
    requires Inv(s) && BidsUntouched(s, s')
    ensures SeatsSound(s'.auctions, s'.bids, s'.participants)
    ensures BidsSound(s'.auctions, s'.bids, s'.participants)
    ensures ChargesSound(s'.auctions, s'.participants, s'.accounts)
    ensures PaymentsSound(s'.auctions, s'.bids, s'.accounts)
  {
    hide EntriesSound, KeysSound, HoldsSound, ResultsSound, OrdersSound, TotalsSound, LedgersSound, NoDuplicates;
    forall seat | seat in s'.participants
      ensures SeatSound(s'.auctions, s'.bids, s'.participants, seat)
    {
      assert SeatSound(s.auctions, s.bids, s.participants, seat);
      assert !NobodyIn(s.participants, seat.auction) by {
        assert seat == Seat(seat.auction, seat.user);
      }
    }
    forall i | 0 <= i < |s'.bids|
      ensures BidSound(s'.auctions, s'.participants, s'.bids[i])
      ensures PaidBySound(s'.auctions, s'.accounts, s'.bids[i])
    {
      assert BidSound(s.auctions, s.participants, s.bids[i]);
      assert PaidBySound(s.auctions, s.accounts, s.bids[i]);
    }
  }

  lemma TotalsFrame(s: State, s': State)
    requires Inv(s) && BidsUntouched(s, s')
    ensures TotalsSound(s'.auctions, s'.bids, s'.participants)
  {
    forall a | a in s'.auctions
      ensures s'.auctions[a].totalBids == |FrozenLines(s'.bids, a)|
      ensures s'.auctions[a].totalParticipants == |UsersIn(s'.participants, a)|
    {
      if a !in s.auctions {
        forall i | 0 <= i < |s.bids|
          ensures s.bids[i].auction != a
        {
          assert BidSound(s.auctions, s.participants, s.bids[i]);
        }
        NoLines(s.bids, a);
        assert UsersIn(s.participants, a) == {} by {
          forall seat | seat in s.participants
            ensures seat.auction != a
          {
            assert SeatSound(s.auctions, s.bids, s.participants, seat);
          }
        }
      }
    }
  }

  lemma KeysFrame(s: State, s': State)
    requires Inv(s) && BidsUntouched(s, s')
    ensures KeysSound(s'.auctions, s'.bids, s'.now, s'.keys)
  {
    hide EntriesSound, HoldsSound, ResultsSound, OrdersSound, TotalsSound, LedgersSound, NoDuplicates,
         SeatsSound, ChargesSound, PaymentsSound;
    forall k | k in s'.keys
      ensures AnswerSound(s'.auctions, s'.bids, s'.now, k, s'.keys[k])
    {
      assert AnswerSound(s.auctions, s.bids, s.now, k, s.keys[k]);
      var row := s.keys[k];
      var first := s.bids[row.snapshot.value.firstBid];
      assert AtSeat(first, Seat(row.request.auction, row.user));
      assert BidSound(s.auctions, s.participants, first);
    }
  }

  lemma EntriesFrame(s: State, s': State)
    requires Inv(s) && BidsUntouched(s, s')
    ensures EntriesSound(s')
  {
    hide KeysSound, HoldsSound, ResultsSound, OrdersSound, TotalsSound, LedgersSound, NoDuplicates,
         SeatsSound, ChargesSound, PaymentsSound, BidsSound;
    forall w, i | w in s'.accounts && 0 <= i < |s'.accounts[w].entries|
      ensures EntrySound(s', w, s'.accounts[w].entries[i])
    {
      assert EntrySound(s, w, s.accounts[w].entries[i]);
    }
  }

  /** What a single auction's move must show for itself; everything else follows. */
  ghost predicate SoundMove(s: State, a: AuctionId, row: Auction, stock: Stock) {
    && a in s.auctions
    && s.auctions[a].status !in {Completed, Cancelled} && row.status != Completed
    && SameTrade(s.auctions[a], row) && row.terms == s.auctions[a].terms
    && AuctionSound(row, s.now)
    && (Underlying(s.auctions[a]) in AFTER_OPENING ==> Underlying(row) in AFTER_OPENING)
    && StockSound(stock) && stock.products.Keys == s.stock.products.Keys
    && (forall b :: b != a ==> (Holds(stock, b) <==> Holds(s.stock, b)))
    && (Holds(stock, a) <==> Underlying(row) in {Live, Closing, Calculating})
  }

  lemma MoveKeepsResults(s: State, a: AuctionId, row: Auction)
    requires a in s.auctions && s.auctions[a].status !in {Completed, Cancelled} && row.status != Completed
    requires SameTrade(s.auctions[a], row)
    requires ResultsSound(s.auctions, s.bids, s.results) && OrdersSound(s.auctions, s.results, s.orders)
    ensures a !in s.results
    ensures ResultsSound(s.auctions[a := row], s.bids, s.results)
    ensures OrdersSound(s.auctions[a := row], s.results, s.orders)
  {
    hide ComputedResult;
  }

  lemma MoveKeepsHolds(s: State, a: AuctionId, row: Auction, stock: Stock)
    requires SoundMove(s, a, row, stock)
    requires HoldsSound(s.stock, s.auctions, s.results)
    ensures HoldsSound(stock, s.auctions[a := row], s.results)
  {
    forall b ensures Holds(stock, b) <==> OwedUnit(s.auctions[a := row], s.results, b) {
      assert Holds(s.stock, b) <==> OwedUnit(s.auctions, s.results, b);
    }
  }

  lemma MoveKeeps(s: State, a: AuctionId, row: Auction, stock: Stock)
    requires Inv(s) && SoundMove(s, a, row, stock)
    ensures Inv(SetAuction(s, a, row).(stock := stock))
  {
    hide KeysSound, HoldsSound, ResultsSound, OrdersSound, TotalsSound, LedgersSound, NoDuplicates,
         SeatsSound, ChargesSound, PaymentsSound, BidsSound, EntriesSound, StockSound, AuctionSound;
    var s' := SetAuction(s, a, row).(stock := stock);
    assert BidsUntouched(s, s');
    RecordsFrame(s, s');
    TotalsFrame(s, s');
    KeysFrame(s, s');
    EntriesFrame(s, s');
    MoveKeepsResults(s, a, row);
    MoveKeepsHolds(s, a, row, stock);
  }

  /** What a state says about one auction. */
  lemma Here(s: State, a: AuctionId)
    requires Inv(s) && a in s.auctions
    ensures StockSound(s.stock)
    ensures Holds(s.stock, a) <==> OwedUnit(s.auctions, s.results, a)
    ensures s.auctions[a].product in s.stock.products
    ensures AuctionSound(s.auctions[a], s.now)
  {
    hide KeysSound, ResultsSound, OrdersSound, TotalsSound, LedgersSound, NoDuplicates, SeatsSound,
         ChargesSound, PaymentsSound, BidsSound, EntriesSound, StatusesSound, StockSound;
  }

  lemma PlainKeeps(s: State, a: AuctionId, action: Action)
    requires Inv(s) && action in {Submit, Approve, Reject}
    requires PlainTransition(s, a, action).Ok?
    ensures Inv(PlainTransition(s, a, action).value)
  {
    hide KeysSound, ResultsSound, OrdersSound, TotalsSound, LedgersSound, NoDuplicates, SeatsSound,
         ChargesSound, PaymentsSound, BidsSound, EntriesSound, StatusesSound, HoldsSound, StockSound;
    if BeginTransition(s.auctions, a, action).Proceed? {
      Here(s, a);
      MoveKeeps(s, a, s.auctions[a].(status := TargetOf(action)), s.stock);
    }
  }

  lemma OpenKeeps(s: State, a: AuctionId)
    requires Inv(s) && OpenAuction(s, a).Ok?
    ensures Inv(OpenAuction(s, a).value)
  {
    hide KeysSound, ResultsSound, OrdersSound, TotalsSound, LedgersSound, NoDuplicates, SeatsSound,
         ChargesSound, PaymentsSound, BidsSound, EntriesSound, StatusesSound, HoldsSound, StockSound;
    if BeginTransition(s.auctions, a, Open).Proceed? {
      var row := s.auctions[a];
      Here(s, a);
      var reserved := Reserve(s.stock, row.product, a, 1);
      if reserved.Ok? {
        ReserveKeeps(s.stock, row.product, a, 1);
        MoveKeeps(s, a, row.(status := Live), reserved.value);
      } else {
        MoveKeeps(s, a, row.(status := Cancelled), s.stock);
      }
    }
  }

  lemma CloseBiddingKeeps(s: State, a: AuctionId)
    requires Inv(s) && CloseBidding(s, a).Ok?
    ensures Inv(CloseBidding(s, a).value)
  {
    hide KeysSound, ResultsSound, OrdersSound, TotalsSound, LedgersSound, NoDuplicates, SeatsSound,
         ChargesSound, PaymentsSound, BidsSound, EntriesSound, StatusesSound, HoldsSound, StockSound;
    if s.auctions[a].status == Live {
      Here(s, a);
      MoveKeeps(s, a, s.auctions[a].(status := Closing, closingAt := Some(s.now)), s.stock);
    }
  }

  lemma SuspendKeeps(s: State, a: AuctionId)
    requires Inv(s) && SuspendAuction(s, a).Ok?
    ensures Inv(SuspendAuction(s, a).value)
  {
    hide KeysSound, ResultsSound, OrdersSound, TotalsSound, LedgersSound, NoDuplicates, SeatsSound,
         ChargesSound, PaymentsSound, BidsSound, EntriesSound, StatusesSound, HoldsSound, StockSound;
    if BeginTransition(s.auctions, a, Suspend).Proceed? {
      var row := s.auctions[a];
      Here(s, a);
      MoveKeeps(s, a, row.(status := Suspended, suspendedFrom := Some(row.status)), s.stock);
    }
  }

  lemma ResumeKeeps(s: State, a: AuctionId)
    requires Inv(s) && ResumeAuction(s, a).Ok?
    ensures Inv(ResumeAuction(s, a).value)
  {
    hide KeysSound, ResultsSound, OrdersSound, TotalsSound, LedgersSound, NoDuplicates, SeatsSound,
         ChargesSound, PaymentsSound, BidsSound, EntriesSound, StatusesSound, HoldsSound, StockSound;
    var row := s.auctions[a];
    Here(s, a);
    MoveKeeps(s, a, row.(status := row.suspendedFrom.value, suspendedFrom := None), s.stock);
  }

  lemma CancelKeeps(s: State, a: AuctionId)
    requires Inv(s) && CancelAuction(s, a).Ok?
    ensures Inv(CancelAuction(s, a).value)
  {
    hide KeysSound, ResultsSound, OrdersSound, TotalsSound, LedgersSound, NoDuplicates, SeatsSound,
         ChargesSound, PaymentsSound, BidsSound, EntriesSound, StatusesSound, HoldsSound, StockSound;
    if BeginTransition(s.auctions, a, Cancel).Proceed? {
      var row := s.auctions[a];
      Here(s, a);
      ReleaseKeeps(s.stock, a);
      if HoldsInventory(row.status) {
        MoveKeeps(s, a, row.(status := Cancelled), Release(s.stock, a).value);
      } else {
        MoveKeeps(s, a, row.(status := Cancelled), s.stock);
      }
    }
  }

  lemma BeginResultKeeps(s: State, a: AuctionId)
    requires Inv(s) && BeginResult(s, a).Ok?
    ensures Inv(BeginResult(s, a).value)
  {
    hide KeysSound, ResultsSound, OrdersSound, TotalsSound, LedgersSound, NoDuplicates, SeatsSound,
         ChargesSound, PaymentsSound, BidsSound, EntriesSound, StatusesSound, HoldsSound, StockSound;
    if s.auctions[a].status == Closing {
      Here(s, a);
      MoveKeeps(s, a, Calculated(s, s.auctions[a]), s.stock);
    }
  }

  /** A draft or editable row at `a`, replacing an editable one if there was one. */
  predicate DraftRow(s: State, a: AuctionId, row: Auction) {
    if a in s.auctions then s.auctions[a].status !in TERMS_LOCKED && row == s.auctions[a].(terms := row.terms)
    else row.status == Draft && row.suspendedFrom.None? && row.totalBids == 0 && row.totalParticipants == 0 && row.product in s.stock.products
  }

  lemma DraftKeepsResults(s: State, a: AuctionId, row: Auction)
    requires ResultsSound(s.auctions, s.bids, s.results) && OrdersSound(s.auctions, s.results, s.orders)
    requires DraftRow(s, a, row)
    ensures a !in s.results
    ensures ResultsSound(s.auctions[a := row], s.bids, s.results)
    ensures OrdersSound(s.auctions[a := row], s.results, s.orders)
  {
    hide ComputedResult;
  }

  lemma DraftKeepsHolds(s: State, a: AuctionId, row: Auction)
    requires HoldsSound(s.stock, s.auctions, s.results)
    requires DraftRow(s, a, row) && a !in s.results
    ensures HoldsSound(s.stock, s.auctions[a := row], s.results)
  {
    hide StockSound;
    forall b ensures Holds(s.stock, b) <==> OwedUnit(s.auctions[a := row], s.results, b) {
      assert Holds(s.stock, b) <==> OwedUnit(s.auctions, s.results, b);
    }
  }

  /** A draft added, or an editable auction's terms replaced: neither can hold a unit or a result. */
  lemma DraftKeeps(s: State, a: AuctionId, row: Auction)
    requires Inv(s)
    requires DraftRow(s, a, row) && ValidConfig(row.terms)
    requires a in s.auctions ==> NobodyIn(s.participants, a)
    ensures Inv(SetAuction(s, a, row))
  {
    hide KeysSound, TotalsSound, LedgersSound, NoDuplicates, SeatsSound, ChargesSound, PaymentsSound,
         BidsSound, EntriesSound, StockSound, HoldsSound, ResultsSound, OrdersSound, ValidConfig;
    var s' := SetAuction(s, a, row);
    assert BidsUntouched(s, s');
    RecordsFrame(s, s');
    TotalsFrame(s, s');
    KeysFrame(s, s');
    EntriesFrame(s, s');
    DraftKeepsResults(s, a, row);
    DraftKeepsHolds(s, a, row);
  }

  lemma CreateKeeps(s: State, a: AuctionId, p: ProductId, currency: Currency, terms: Terms)
    requires Inv(s) && CreateAuction(s, a, p, currency, terms).Ok?
    ensures Inv(CreateAuction(s, a, p, currency, terms).value)
  {
    hide Inv;
    DraftKeeps(s, a, Auction(p, currency, terms, Draft, None, None, None, 0, 0));
  }

  /** An auction whose terms may still be edited has no participant. */
  lemma EditableIsEmpty(s: State, a: AuctionId)
    requires StatusesSound(s.auctions, s.participants)
    requires a in s.auctions && s.auctions[a].status !in TERMS_LOCKED
    ensures NobodyIn(s.participants, a)
  {
    forall u ensures Seat(a, u) !in s.participants {
      assert Seat(a, u) in s.participants ==> Underlying(s.auctions[Seat(a, u).auction]) in AFTER_OPENING;
    }
  }

  lemma EditKeeps(s: State, a: AuctionId, terms: Terms)
    requires Inv(s) && UpdateTerms(s, a, terms).Ok?
    ensures Inv(UpdateTerms(s, a, terms).value)
  {
    hide KeysSound, TotalsSound, LedgersSound, NoDuplicates, SeatsSound, ChargesSound, PaymentsSound,
         BidsSound, EntriesSound, HoldsSound, ResultsSound, OrdersSound, StatusesSound;
    EditableIsEmpty(s, a);
    DraftKeeps(s, a, s.auctions[a].(terms := terms));
  }

  /** A stock operation that leaves the reservation rows alone. */
  lemma StockKeeps(s: State, stock: Stock)
    requires Inv(s) && StockSound(stock)
    requires stock.rows == s.stock.rows && s.stock.products.Keys <= stock.products.Keys
    ensures Inv(s.(stock := stock))
  {
    hide KeysSound, TotalsSound, LedgersSound, NoDuplicates, SeatsSound, ChargesSound, PaymentsSound,
         BidsSound, EntriesSound, ResultsSound, OrdersSound, StockSound;
    var s' := s.(stock := stock);
    assert BidsUntouched(s, s');
    EntriesFrame(s, s');
    assert forall b :: Holds(stock, b) <==> Holds(s.stock, b);
    assert HoldsSound(s'.stock, s'.auctions, s'.results);
  }

  /** Time only moves forward, and nothing stored depends on how far. */
  lemma AdvanceKeeps(s: State, elapsed: nat)
    requires Inv(s)
    ensures Inv(s.(now := s.now + elapsed))
  {
    hide KeysSound, TotalsSound, LedgersSound, NoDuplicates, SeatsSound, ChargesSound, PaymentsSound,
         BidsSound, EntriesSound, ResultsSound, OrdersSound, HoldsSound;
    var s' := s.(now := s.now + elapsed);
    assert BidsUntouched(s, s');
    KeysFrame(s, s');
    EntriesFrame(s, s');
    assert forall a :: a in s.auctions ==> AuctionSound(s.auctions[a], s.now);
  }
}
