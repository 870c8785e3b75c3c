/**
 * Closing an auction as the whole sequence of transactions it is: count,
 * decide, pay back one wallet at a time. The sequence may stop anywhere and be
 * started again from the top; these lemmas say where it always ends.
 */
module Settlement {
  import opened Common
  import opened Ledger
  import opened Auctions
  import opened Catalog
  import opened Lub
  import opened Platform
  import opened Lifecycle
  import opened Bidding
  import opened Closing
  import opened Invariants
  import opened LifecycleKeeps
  import opened ClosingKeeps
  import opened Runs

  // -------------------------------------------------------------------------
  // Who paid
  // -------------------------------------------------------------------------

  predicate Ascending(users: seq<UserId>) {
    forall i, j :: 0 <= i < j < |users| ==> users[i] < users[j]
  }

  /** `listFeePayers`: the participants who paid a fee, by user id. */
  ghost predicate ListsPayers(users: seq<UserId>, s: State, a: AuctionId) {
    Ascending(users) && forall u :: u in users <==> IsPayer(s, a, u)
  }

  /** The order makes the listing unique. */
  lemma {:induction false} AscendingIsUnique(x: seq<UserId>, y: seq<UserId>)
    requires Ascending(x) && Ascending(y)
    requires forall u :: u in x <==> u in y
    ensures x == y
    decreases |x|
  {
    if x == [] {
      assert forall i :: 0 <= i < |y| ==> y[i] in x;
    } else {
      assert x[0] in y && y != [] && y[0] in x;
      assert x[0] == y[0];
      forall u ensures u in x[1..] <==> u in y[1..] {
        assert u in x <==> u == x[0] || u in x[1..];
        assert u in y <==> u == y[0] || u in y[1..];
      }
      AscendingIsUnique(x[1..], y[1..]);
    }
  }

  // -------------------------------------------------------------------------
  // The refund pass
  // -------------------------------------------------------------------------

  /** What one pass did, as its caller is told. */
  datatype RefundOutcome = RefundOutcome(eligible: nat, refunded: nat, alreadyRefunded: nat, totalRefunded: int)

  /** One wallet after another, stopping at the first failure. */
  function RefundAll(s: State, a: AuctionId, payers: seq<UserId>): (State, Option<Error>)
    decreases |payers|
  {
    if payers == [] then (s, None)
    else
      var (s', r) := RefundOne(s, a, payers[0]);
      if r.Err? then (s', Some(r.error)) else RefundAll(s', a, payers[1..])
  }

  function Returns(a: AuctionId, payers: seq<UserId>): seq<Step> {
    seq(|payers|, i requires 0 <= i < |payers| => FeeReturned(a, payers[i]))
  }

  ghost predicate AllPayers(s: State, a: AuctionId, users: seq<UserId>) {
    forall i :: 0 <= i < |users| ==> IsPayer(s, a, users[i])
  }

  lemma MoneySound(s: State)
    requires Inv(s)
    ensures LedgersSound(s.accounts) && EntriesSound(s)
  {
    hide LedgersSound, EntriesSound;
  }

  /** A refund that went through is on the ledger, and only accounts have changed. */
  lemma RefundRecorded(s: State, a: AuctionId, u: UserId)
    requires RefundOne(s, a, u).1.Ok?
    ensures Refunded(RefundOne(s, a, u).0, a, u)
  {
    var w, m := RefundWallet(u), RefundMovement(s, a, u);
    var acc := Get(s.accounts, w);
    var acc' := Apply(acc, w, m).value.0;
    assert acc' == acc || acc'.entries == acc.entries + [Booking(acc, m)];
  }

  lemma RefundFrame(s: State, a: AuctionId, u: UserId)
    ensures RefundOne(s, a, u).0 == s.(accounts := RefundOne(s, a, u).0.accounts)
  {
    hide Posted;
  }

  lemma RefundStep(s: State, a: AuctionId, u: UserId)
    requires Inv(s) && Refundable(s, a) && IsPayer(s, a, u)
    ensures var (s', r) := RefundOne(s, a, u);
      && Inv(s') && r.Ok? && Next(s, FeeReturned(a, u)) == s'
      && r.value.replayed == Refunded(s, a, u)
      && Refunded(s', a, u)
      && s' == s.(accounts := s'.accounts)
      && (Refunded(s, a, u) ==> s' == s)
  {
    hide Inv, Next, LedgersSound, EntriesSound, Refundable, IsPayer, RefundOne, Refunded;
    MoneySound(s);
    NextReturned(s, a, u);
    RefundKeeps(s, a, u);
    RefundSucceeds(s, a, u);
    RefundRecorded(s, a, u);
    RefundFrame(s, a, u);
  }

  /** A refund touches one user's wallet, so what others were paid back stands. */
  lemma RefundLeavesOthers(s: State, a: AuctionId, u: UserId, b: AuctionId, v: UserId)
    requires Refunded(s, b, v)
    ensures Refunded(RefundOne(s, a, u).0, b, v)
  {
    hide Apply;
    PostedGrows(s.accounts, RefundWallet(u), RefundMovement(s, a, u));
    var s' := RefundOne(s, a, u).0;
    var p := FindKey(Get(s.accounts, RefundWallet(v)).entries, RefundKey(b, v)).value;
    assert Get(s.accounts, RefundWallet(v)).entries <= Get(s'.accounts, RefundWallet(v)).entries;
    assert Get(s'.accounts, RefundWallet(v)).entries[p].key == Some(RefundKey(b, v));
  }

  lemma {:induction false} RefundedSurvives(s: State, a: AuctionId, payers: seq<UserId>, b: AuctionId, v: UserId)
    requires Refunded(s, b, v)
    ensures Refunded(RefundAll(s, a, payers).0, b, v)
    decreases |payers|
  {
    hide RefundOne, Refunded;
    if payers != [] {
      RefundLeavesOthers(s, a, payers[0], b, v);
      if RefundOne(s, a, payers[0]).1.Ok? {
        RefundedSurvives(RefundOne(s, a, payers[0]).0, a, payers[1..], b, v);
      }
    }
  }

  /** A pass over payers of a refundable auction never fails and leaves each of them paid back. */
  lemma {:induction false} RefundAllPays(s: State, a: AuctionId, payers: seq<UserId>)
    requires Inv(s) && Refundable(s, a) && AllPayers(s, a, payers)
    ensures var (s', failed) := RefundAll(s, a, payers);
      && failed.None? && Inv(s') && s' == Exec(s, Returns(a, payers))
      && s' == s.(accounts := s'.accounts)
      && (forall i :: 0 <= i < |payers| ==> Refunded(s', a, payers[i]))
    decreases |payers|
  {
    hide Inv, Next, RefundOne, Refunded;
    if payers == [] {
      assert Returns(a, payers) == [];
    } else {
      var u := payers[0];
      RefundStep(s, a, u);
      var s1 := RefundOne(s, a, u).0;
      assert AllPayers(s1, a, payers[1..]) by {
        forall i | 0 <= i < |payers[1..]|
          ensures IsPayer(s1, a, payers[1..][i])
        {
          assert IsPayer(s, a, payers[i + 1]);
        }
      }
      RefundAllPays(s1, a, payers[1..]);
      assert Returns(a, payers)[1..] == Returns(a, payers[1..]);
      var s' := RefundAll(s1, a, payers[1..]).0;
      RefundedSurvives(s1, a, payers[1..], a, u);
      forall i | 0 <= i < |payers|
        ensures Refunded(s', a, payers[i])
      {
        assert i > 0 ==> payers[i] == payers[1..][i - 1];
      }
    }
  }

  /** A refund books one user's key for one auction and no other. */
  lemma RefundOnlyThis(s: State, a: AuctionId, u: UserId, b: AuctionId, v: UserId)
    requires (a, u) != (b, v)
    ensures Refunded(RefundOne(s, a, u).0, b, v) <==> Refunded(s, b, v)
  {
    var w, m := RefundWallet(u), RefundMovement(s, a, u);
    var acc := Get(s.accounts, w);
    if Apply(acc, w, m).Ok? && !Apply(acc, w, m).value.1.replayed {
      assert (acc.entries + [Booking(acc, m)])[..|acc.entries|] == acc.entries;
    }
  }

  /** The payers a pass will move money for. */
  function Owing(s: State, a: AuctionId, payers: seq<UserId>): (r: seq<UserId>)
    ensures |r| <= |payers|
  {
    if payers == [] then []
    else
      var last := payers[|payers| - 1];
      Owing(s, a, payers[..|payers| - 1]) + if Refunded(s, a, last) then [] else [last]
  }

  function SumOwed(s: State, a: AuctionId, users: seq<UserId>): int {
    if users == [] then 0
    else SumOwed(s, a, users[..|users| - 1]) + SeatOf(s.participants, Seat(a, users[|users| - 1])).totalFees
  }

  /** One more payer at the end of a pass. */
  lemma {:induction false} RefundAllAppend(s: State, a: AuctionId, front: seq<UserId>, u: UserId)
    ensures var (s', failed) := RefundAll(s, a, front);
      RefundAll(s, a, front + [u]) ==
        if failed.Some? then (s', failed)
        else
          var (s2, r) := RefundOne(s', a, u);
          if r.Err? then (s2, Some(r.error)) else (s2, None)
    decreases |front|
  {
    hide RefundOne;
    if front == [] {
      assert front + [u] == [u] && [u][1..] == [];
    } else {
      assert (front + [u])[1..] == front[1..] + [u];
      if RefundOne(s, a, front[0]).1.Ok? {
        RefundAllAppend(RefundOne(s, a, front[0]).0, a, front[1..], u);
      }
    }
  }

  /** A pass that fails part way is the pass up to its failure. */
  lemma {:induction false} RefundAllStops(s: State, a: AuctionId, front: seq<UserId>, rest: seq<UserId>)
    requires RefundAll(s, a, front).1.Some?
    ensures RefundAll(s, a, front + rest) == RefundAll(s, a, front)
    decreases |front|
  {
    hide RefundOne;
    assert (front + rest)[1..] == front[1..] + rest;
    if RefundOne(s, a, front[0]).1.Ok? {
      RefundAllStops(RefundOne(s, a, front[0]).0, a, front[1..], rest);
    }
  }

  /** A pass changes no refund but those of its own auction and payers, and nothing but accounts. */
  lemma {:induction false} RefundAllOnly(s: State, a: AuctionId, payers: seq<UserId>, b: AuctionId, v: UserId)
    requires a != b || v !in payers
    ensures var s' := RefundAll(s, a, payers).0;
      && (Refunded(s', b, v) <==> Refunded(s, b, v))
      && s' == s.(accounts := s'.accounts)
    decreases |payers|
  {
    hide Refunded, Posted;
    if payers != [] {
      RefundOnlyThis(s, a, payers[0], b, v);
      if RefundOne(s, a, payers[0]).1.Ok? {
        RefundAllOnly(RefundOne(s, a, payers[0]).0, a, payers[1..], b, v);
      }
    }
  }

  // -------------------------------------------------------------------------
  // The whole workflow
  // -------------------------------------------------------------------------

  /** Money goes back only after `no_unique_bid` and `cancelled`. */
  function SettleMoney(s: State, a: AuctionId, payers: seq<UserId>): State {
    if Refundable(s, a) then RefundAll(s, a, payers).0 else s
  }

  /** `closeAuction`: T1, then T2 unless already completed, then the money. */
  function CloseAuction(s: State, a: AuctionId, payers: seq<UserId>): Result<State> {
    match BeginResult(s, a)
    case Err(e) => Err(e)
    case Ok(s1) =>
      if a in s.auctions && s.auctions[a].status == Completed then
        if a in s1.results then Ok(SettleMoney(s1, a, payers)) else Err(ResultNotFound)
      else
        match Decide(s1, a)
        case Err(e) => Err(e)
        case Ok(s2) => Ok(SettleMoney(s2, a, payers))
  }

  function Closed(s: State, a: AuctionId, payers: seq<UserId>): State {
    Committed(s, CloseAuction(s, a, payers))
  }

  /** The same work as the transactions it commits, in order. */
  function CloseScript(a: AuctionId, payers: seq<UserId>): seq<Step> {
    [ResultBegun(a), ResultDecided(a)] + Returns(a, payers)
  }

  lemma NextClosing(s: State, a: AuctionId)
    ensures Next(s, ResultBegun(a)) == Committed(s, BeginResult(s, a))
    ensures Next(s, ResultDecided(a)) == Committed(s, Decide(s, a))
    ensures Next(s, BiddingClosed(a)) == Committed(s, CloseBidding(s, a))
    ensures Next(s, Opened(a)) == Committed(s, OpenAuction(s, a))
  {
    hide BeginResult, Decide, CloseBidding, OpenAuction;
  }

  /** Everyone who paid has been paid back. */
  ghost predicate PaidBack(s: State, a: AuctionId) {
    forall u :: IsPayer(s, a, u) ==> Refunded(s, a, u)
  }

  /** Counting is past, the result is in, and nothing is owed. */
  ghost predicate Settled(s: State, a: AuctionId) {
    && a in s.results
    && a in s.auctions && s.auctions[a].status in {Completed, Cancelled}
    && (Refundable(s, a) ==> PaidBack(s, a))
  }

  lemma ResultFacts(s: State, a: AuctionId)
    requires Inv(s) && a in s.results
    ensures a in s.auctions && s.auctions[a].status in {Completed, Cancelled}
    ensures s.results[a] == ComputedResult(s.bids, a, s.auctions[a].status == Cancelled)
  {
    hide SeatsSound, BidsSound, NoDuplicates, TotalsSound, StatusesSound, HoldsSound, AuctionsSound, ComputedResult,
         OrdersSound, KeysSound, LedgersSound, PaymentsSound, EntriesSound, ChargesSound;
  }

  lemma CompletedHasResult(s: State, a: AuctionId)
    requires Inv(s) && a in s.auctions && s.auctions[a].status == Completed
    ensures a in s.results
  {
    hide SeatsSound, BidsSound, NoDuplicates, TotalsSound, StatusesSound, HoldsSound, AuctionsSound, ComputedResult,
         OrdersSound, KeysSound, LedgersSound, PaymentsSound, EntriesSound, ChargesSound;
  }

  /** T1 and T2 from any closable status: neither is refused, and the auction ends with its result. */
  lemma DecidesFromAnywhere(s: State, a: AuctionId)
    requires Inv(s) && a in s.auctions && s.auctions[a].status in CLOSABLE
    ensures BeginResult(s, a).Ok?
    ensures var s1 := BeginResult(s, a).value;
      && Inv(s1) && Decide(s1, a).Ok?
      && (s.auctions[a].status == Completed ==> s1 == s && Decide(s1, a) == Ok(s))
      && var s2 := Decide(s1, a).value;
         && Inv(s2) && a in s2.results
         && s2.participants == s.participants && s2.bids == s.bids && s2.now == s.now
         && s2.accounts == s.accounts
         && (forall b :: b != a ==> SameElsewhere(s, s2, b))
  {
    hide Inv, Decide, Decided;
    BeginResultKeeps(s, a);
    var s1 := BeginResult(s, a).value;
    if a in s1.results {
      DecideAgain(s1, a);
    } else {
      if s1.auctions[a].status == Completed {
        CompletedHasResult(s1, a);
      }
      DecideFirst(s1, a);
      DecidedKeeps(s1, a);
      DecidedElsewhere(s1, a);
    }
    if s.auctions[a].status == Completed {
      CompletedHasResult(s, a);
      DecideAgain(s, a);
    }
    var s2 := Decide(s1, a).value;
    forall b | b != a
      ensures SameElsewhere(s, s2, b)
    {
      BeginElsewhere(s, a, b);
      ElsewhereChains(s, s1, s2, b);
    }
  }

  lemma BeginElsewhere(s: State, a: AuctionId, b: AuctionId)
    requires BeginResult(s, a).Ok? && b != a
    ensures SameElsewhere(s, BeginResult(s, a).value, b)
  {
  }

  lemma ElsewhereChains(s: State, s1: State, s2: State, b: AuctionId)
    requires SameElsewhere(s, s1, b) && SameElsewhere(s1, s2, b)
    ensures SameElsewhere(s, s2, b)
  {
  }

  /** The parts of the state that speak of auction `b`. */
  predicate SameElsewhere(s: State, s': State, b: AuctionId) {
    && (b in s.auctions <==> b in s'.auctions) && (b in s.auctions ==> s'.auctions[b] == s.auctions[b])
    && (b in s.results <==> b in s'.results) && (b in s.results ==> s'.results[b] == s.results[b])
  }

  lemma DecidedElsewhere(s: State, a: AuctionId)
    requires a in s.auctions
    ensures var s' := Decided(s, a);
      && a in s'.results
      && s'.participants == s.participants && s'.bids == s.bids && s'.now == s.now && s'.accounts == s.accounts
      && (forall b :: b != a ==> SameElsewhere(s, s', b))
  {
    hide ComputedResult, Release, Released, OrderOf;
  }

  lemma PayersCarry(s: State, s': State, a: AuctionId, payers: seq<UserId>)
    requires s'.participants == s.participants
    requires ListsPayers(payers, s, a)
    ensures ListsPayers(payers, s', a) && AllPayers(s', a, payers)
  {
    forall u ensures IsPayer(s', a, u) <==> IsPayer(s, a, u) {
    }
  }

  /** Settling leaves everything but the money alone, and leaves nobody owed. */
  lemma MoneySettles(s: State, a: AuctionId, payers: seq<UserId>)
    requires Inv(s) && a in s.results && ListsPayers(payers, s, a)
    ensures var s' := SettleMoney(s, a, payers);
      && Inv(s') && s' == s.(accounts := s'.accounts) && Settled(s', a)
      && s' == Exec(s, Returns(a, payers))
  {
    hide Inv, RefundAll, Refunded, Next;
    ResultFacts(s, a);
    PayersCarry(s, s, a, payers);
    if Refundable(s, a) {
      RefundAllPays(s, a, payers);
      var s' := SettleMoney(s, a, payers);
      PayersCarry(s, s', a, payers);
      assert PaidBack(s', a) by {
        forall u | IsPayer(s', a, u)
          ensures Refunded(s', a, u)
        {
          assert u in payers;
        }
      }
    } else {
      NothingReturned(s, a, payers);
    }
  }

  lemma {:induction false} NothingReturned(s: State, a: AuctionId, payers: seq<UserId>)
    requires !Refundable(s, a)
    ensures Exec(s, Returns(a, payers)) == s
    decreases |payers|
  {
    hide Next, Refundable;
    if payers == [] {
      assert Returns(a, payers) == [];
    } else {
      NextReturned(s, a, payers[0]);
      assert Returns(a, payers)[1..] == Returns(a, payers[1..]);
      NothingReturned(s, a, payers[1..]);
    }
  }

  /** Closing a closable auction succeeds, commits exactly its script, and settles everything. */
  lemma CloseAuctionSettles(s: State, a: AuctionId, payers: seq<UserId>)
    requires Inv(s) && a in s.auctions && s.auctions[a].status in CLOSABLE
    requires ListsPayers(payers, s, a)
    ensures CloseAuction(s, a, payers).Ok?
    ensures var s' := Closed(s, a, payers);
      && Inv(s') && Settled(s', a)
      && s' == Exec(s, CloseScript(a, payers))
      && s'.participants == s.participants && s'.now == s.now
      && (forall b :: b != a ==> SameElsewhere(s, s', b))
  {
    hide Inv, Next, Decide, BeginResult, SettleMoney, Returns, Settled, Refundable;
    DecidesFromAnywhere(s, a);
    var s1 := BeginResult(s, a).value;
    var s2 := Decide(s1, a).value;
    NextClosing(s, a);
    NextClosing(s1, a);
    PayersCarry(s, s2, a, payers);
    MoneySettles(s2, a, payers);
    ScriptInParts(s, a, payers);
    var s' := SettleMoney(s2, a, payers);
    forall b | b != a
      ensures SameElsewhere(s, s', b)
    {
      assert SameElsewhere(s, s2, b);
    }
  }

  lemma ScriptInParts(s: State, a: AuctionId, payers: seq<UserId>)
    ensures Exec(s, CloseScript(a, payers))
         == Exec(Next(Next(s, ResultBegun(a)), ResultDecided(a)), Returns(a, payers))
  {
    hide Next, Returns;
    var script := CloseScript(a, payers);
    assert script[1..][0] == ResultDecided(a);
    assert script[1..][1..] == Returns(a, payers);
  }

  // -------------------------------------------------------------------------
  // Interruption and repetition
  // -------------------------------------------------------------------------

  /** A closing transaction that has already had its effect. */
  ghost predicate Spent(s: State, a: AuctionId, step: Step) {
    match step
    case ResultBegun(b) => b == a && a in s.auctions && s.auctions[a].status in {Calculating, Completed, Cancelled}
    case ResultDecided(b) => b == a && a in s.results
    case FeeReturned(b, u) => b == a && (!Refundable(s, a) || !IsPayer(s, a, u) || Refunded(s, a, u)) && a in s.results
    case _ => false
  }

  lemma SpentDoesNothing(s: State, a: AuctionId, step: Step)
    requires Inv(s) && Spent(s, a, step)
    ensures Next(s, step) == s
  {
    hide Inv, Next, Decide, Refunded, IsPayer, Refundable, RefundOne;
    match step
    case ResultBegun(b) => NextClosing(s, a);
    case ResultDecided(b) => NextClosing(s, a); DecideAgain(s, a);
    case FeeReturned(b, u) =>
      NextReturned(s, a, u);
      if Refundable(s, a) && IsPayer(s, a, u) { RefundStep(s, a, u); }
  }

  lemma {:induction false} SpentScriptDoesNothing(s: State, a: AuctionId, steps: seq<Step>)
    requires Inv(s) && forall i :: 0 <= i < |steps| ==> Spent(s, a, steps[i])
    ensures Exec(s, steps) == s
    decreases |steps|
  {
    hide Inv, Next, Spent;
    if steps != [] {
      SpentDoesNothing(s, a, steps[0]);
      SpentScriptDoesNothing(s, a, steps[1..]);
    }
  }

  /** What has had its effect stays so, however the run continues. */
  lemma SpentIsPermanent(s: State, later: State, a: AuctionId, step: Step)
    requires Inv(s) && Permanent(s, later) && FrozenFrom(s, later) && Inv(later)
    requires Spent(s, a, step)
    requires a in s.auctions && s.auctions[a].status in {Calculating, Completed, Cancelled}
    requires a in later.auctions && later.auctions[a].status in {Calculating, Completed, Cancelled}
    ensures Spent(later, a, step)
  {
    hide Inv;
    if step.FeeReturned? {
      var u := step.user;
      assert PastBidding(s, a);
      assert SeatOf(later.participants, Seat(a, u)) == SeatOf(s.participants, Seat(a, u));
      if Refunded(s, a, u) {
        var w := RefundWallet(u);
        var p := FindKey(Get(s.accounts, w).entries, RefundKey(a, u)).value;
        assert Get(s.accounts, w).entries <= Get(later.accounts, w).entries;
        assert Get(later.accounts, w).entries[p].key == Some(RefundKey(a, u));
      }
    }
  }

  /** After any prefix of the script, every transaction in that prefix is spent. */
  lemma {:induction false} PrefixIsSpent(s: State, a: AuctionId, payers: seq<UserId>, k: nat)
    requires Inv(s) && a in s.auctions && s.auctions[a].status in CLOSABLE
    requires ListsPayers(payers, s, a) && k <= |CloseScript(a, payers)|
    ensures var s' := Exec(s, CloseScript(a, payers)[..k]);
      && Inv(s')
      && s'.participants == s.participants
      && a in s'.auctions && s'.auctions[a].status in CLOSABLE
      && (k >= 1 ==> s'.auctions[a].status in {Calculating, Completed, Cancelled})
      && (forall i :: 0 <= i < k ==> Spent(s', a, CloseScript(a, payers)[i]))
    decreases k
  {
    hide Inv, Next, Spent;
    var script := CloseScript(a, payers);
    if k == 0 {
      assert script[..0] == [];
    } else {
      var before := Exec(s, script[..k - 1]);
      PrefixIsSpent(s, a, payers, k - 1);
      PayersCarry(s, before, a, payers);
      ExecConcat(s, script[..k - 1], [script[k - 1]]);
      assert script[..k] == script[..k - 1] + [script[k - 1]];
      assert Exec(before, [script[k - 1]]) == Exec(Next(before, script[k - 1]), []);
      var after := Next(before, script[k - 1]);
      OneScriptStep(before, a, payers, k - 1);
      StepIsPermanent(before, script[k - 1]);
      forall i | 0 <= i < k
        ensures Spent(after, a, script[i])
      {
        if i < k - 1 {
          SpentIsPermanent(before, after, a, script[i]);
        }
      }
    }
  }

  lemma OneScriptStep(s: State, a: AuctionId, payers: seq<UserId>, k: nat)
    requires Inv(s) && a in s.auctions && s.auctions[a].status in CLOSABLE && k < |CloseScript(a, payers)|
    requires k >= 1 ==> s.auctions[a].status in {Calculating, Completed, Cancelled}
    requires k >= 2 ==> Spent(s, a, ResultDecided(a)) && AllPayers(s, a, payers)
    ensures var s' := Next(s, CloseScript(a, payers)[k]);
      && Inv(s') && s'.participants == s.participants
      && a in s'.auctions && s'.auctions[a].status in {Calculating, Completed, Cancelled}
      && Spent(s', a, CloseScript(a, payers)[k])
  {
    hide Inv, Next, Decide, Refunded, RefundOne, IsPayer, Refundable;
    var step := CloseScript(a, payers)[k];
    NextKeeps(s, step);
    if k <= 1 {
      NextClosing(s, a);
      DecidesFromAnywhere(s, a);
      if k == 1 {
        assert BeginResult(s, a) == Ok(s);
        ResultFacts(Decide(s, a).value, a);
      }
    } else {
      var u := payers[k - 2];
      assert step == FeeReturned(a, u);
      NextReturned(s, a, u);
      if Refundable(s, a) {
        assert IsPayer(s, a, u);
        RefundStep(s, a, u);
      }
    }
  }

  /**
   * Interrupted after any number of its transactions and run again from the top,
   * a closing ends in the very state it would have ended in without interruption.
   */
  lemma ClosingResumes(s: State, a: AuctionId, payers: seq<UserId>, k: nat)
    requires Reachable(s) && a in s.auctions && s.auctions[a].status in CLOSABLE
    requires ListsPayers(payers, s, a) && k <= |CloseScript(a, payers)|
    ensures var s' := Exec(s, CloseScript(a, payers)[..k]);
      && ListsPayers(payers, s', a)
      && CloseAuction(s', a, payers).Ok?
      && Closed(s', a, payers) == Closed(s, a, payers)
  {
    hide Inv, Next, Spent, Closed, CloseAuction, Settled, CloseScript, ListsPayers, SameElsewhere, Exec, AllPayers,
         Reachable;
    ReachableIsSound(s);
    var script := CloseScript(a, payers);
    var s' := Exec(s, script[..k]);
    PrefixIsSpent(s, a, payers, k);
    PayersCarry(s, s', a, payers);
    CloseAuctionSettles(s, a, payers);
    CloseAuctionSettles(s', a, payers);
    assert forall i :: 0 <= i < |script[..k]| ==> Spent(s', a, script[..k][i]);
    SpentScriptDoesNothing(s', a, script[..k]);
    ExecConcat(s, script[..k], script[k..]);
    ExecConcat(s', script[..k], script[k..]);
    assert script == script[..k] + script[k..];
  }

  /** Closing an auction that is settled changes nothing at all. */
  lemma ClosingTwiceIsOnce(s: State, a: AuctionId, payers: seq<UserId>)
    requires Reachable(s) && a in s.auctions && s.auctions[a].status in CLOSABLE
    requires ListsPayers(payers, s, a)
    ensures var s' := Closed(s, a, payers); Closed(s', a, payers) == s'
  {
    hide Inv, Next, Closed, Settled, CloseScript, ListsPayers, SameElsewhere, Exec, Reachable;
    ReachableIsSound(s);
    var script := CloseScript(a, payers);
    CloseAuctionSettles(s, a, payers);
    ClosingResumes(s, a, payers, |script|);
    assert script[..|script|] == script;
  }

  /** A closing begun again and again, each time stopped after some number of its transactions. */
  function Interrupted(s: State, script: seq<Step>, stops: seq<nat>): State
    requires forall i :: 0 <= i < |stops| ==> stops[i] <= |script|
    decreases |stops|
  {
    if stops == [] then s else Interrupted(Exec(s, script[..stops[0]]), script, stops[1..])
  }

  /** However often and wherever it was stopped before, the next complete closing ends in the same state. */
  lemma {:induction false} ClosingResumesAnyNumberOfTimes(s: State, a: AuctionId, payers: seq<UserId>, stops: seq<nat>)
    requires Reachable(s) && a in s.auctions && s.auctions[a].status in CLOSABLE
    requires ListsPayers(payers, s, a)
    requires forall i :: 0 <= i < |stops| ==> stops[i] <= |CloseScript(a, payers)|
    ensures Closed(Interrupted(s, CloseScript(a, payers), stops), a, payers) == Closed(s, a, payers)
    decreases |stops|
  {
    hide Inv, Next, Closed, CloseAuction, CloseScript, Exec, Reachable, ListsPayers, Spent;
    if stops != [] {
      var script := CloseScript(a, payers);
      ReachableIsSound(s);
      PrefixIsSpent(s, a, payers, stops[0]);
      ReachableOn(s, script[..stops[0]]);
      ClosingResumes(s, a, payers, stops[0]);
      ClosingResumesAnyNumberOfTimes(Exec(s, script[..stops[0]]), a, payers, stops[1..]);
    }
  }
}
