/**
 * The sweeper: four passes that ask the database what is outstanding and run
 * the same services the scheduled jobs run. One pass over a backlog that fits
 * its batch finishes everything a crash may have left behind.
 */
module Sweep {
  import opened Common
  import opened Ledger
  import opened Auctions
  import opened Catalog
  import opened Platform
  import opened Lifecycle
  import opened Closing
  import opened Invariants
  import opened LifecycleKeeps
  import opened ClosingKeeps
  import opened Runs
  import opened Conservation
  import opened Settlement

  const SWEEP_BATCH := 100

  // -------------------------------------------------------------------------
  // What the sweeper asks for
  // -------------------------------------------------------------------------

  predicate DueToOpen(s: State, a: AuctionId) {
    a in s.auctions && s.auctions[a].status == Scheduled && s.auctions[a].terms.startsAt <= s.now
  }

  predicate DueToClose(s: State, a: AuctionId) {
    a in s.auctions && s.auctions[a].status == Live && s.auctions[a].terms.endsAt <= s.now
  }

  predicate HasParticipants(participants: map<Seat, Participant>, a: AuctionId) {
    exists seat :: seat in participants && seat.auction == a
  }

  /** Past bidding, with bids or a status that owe a result, and none written. */
  predicate AwaitingResult(s: State, a: AuctionId) {
    && a in s.auctions && a !in s.results
    && (|| s.auctions[a].status in {Closing, Calculating}
        || (s.auctions[a].status == Cancelled && HasParticipants(s.participants, a)))
  }

  /** Any entry of the user's that returned a fee of this auction, in any wallet. */
  predicate HasRefundEntry(s: State, a: AuctionId, u: UserId) {
    exists w, i :: w in s.accounts && w.user == u && 0 <= i < |s.accounts[w].entries|
      && s.accounts[w].entries[i].kind == BidFeeRefund && s.accounts[w].entries[i].reference == Some(a)
  }

  predicate UnpaidRefunds(s: State, a: AuctionId) {
    Refundable(s, a)
    && exists seat :: seat in s.participants && seat.auction == a && s.participants[seat].totalFees > 0
                      && !HasRefundEntry(s, a, seat.user)
  }

  function OpenSet(s: State): set<AuctionId> {
    set a | a in s.auctions && DueToOpen(s, a)
  }

  function CloseSet(s: State): set<AuctionId> {
    set a | a in s.auctions && DueToClose(s, a)
  }

  function AwaitingSet(s: State): set<AuctionId> {
    set a | a in s.auctions && AwaitingResult(s, a)
  }

  function UnpaidSet(s: State): set<AuctionId> {
    set a | a in s.results && UnpaidRefunds(s, a)
  }

  /** A query's answer: eligible rows, none twice, as many as there are up to the limit. */
  predicate Listed(ids: seq<AuctionId>, due: set<AuctionId>, limit: nat) {
    && (forall i, j :: 0 <= i < j < |ids| ==> ids[i] != ids[j])
    && (forall i :: 0 <= i < |ids| ==> ids[i] in due)
    && |ids| == if |due| < limit then |due| else limit
  }

  /** The ledger query finds exactly the payers whose refund key is not booked. */
  lemma LedgerKnowsWhoIsOwed(s: State, a: AuctionId, u: UserId)
    requires Inv(s)
    ensures HasRefundEntry(s, a, u) <==> Refunded(s, a, u)
  {
    hide Inv;
    var own := Get(s.accounts, RefundWallet(u)).entries;
    var at := FindKey(own, RefundKey(a, u));
    if at.Some? {
      WalletFacts(s, RefundWallet(u));
      assert EntrySound(s, RefundWallet(u), own[at.value]);
    }
    if HasRefundEntry(s, a, u) {
      var w, i :| w in s.accounts && w.user == u && 0 <= i < |s.accounts[w].entries|
        && s.accounts[w].entries[i].kind == BidFeeRefund && s.accounts[w].entries[i].reference == Some(a);
      WalletFacts(s, w);
      assert EntrySound(s, w, Get(s.accounts, w).entries[i]);
    }
  }

  lemma UnpaidIsOwed(s: State, a: AuctionId)
    requires Inv(s)
    ensures UnpaidRefunds(s, a) <==> Refundable(s, a) && !PaidBack(s, a)
  {
    hide Inv, HasRefundEntry, Refunded, Refundable;
    forall u ensures HasRefundEntry(s, a, u) <==> Refunded(s, a, u) {
      LedgerKnowsWhoIsOwed(s, a, u);
    }
    if UnpaidRefunds(s, a) {
      var seat :| seat in s.participants && seat.auction == a && s.participants[seat].totalFees > 0
        && !HasRefundEntry(s, a, seat.user);
      assert seat == Seat(a, seat.user) && IsPayer(s, a, seat.user);
    }
    if !PaidBack(s, a) {
      var u :| IsPayer(s, a, u) && !Refunded(s, a, u);
      assert Seat(a, u) in s.participants && !HasRefundEntry(s, a, Seat(a, u).user);
    }
  }

  // -------------------------------------------------------------------------
  // The payers of an auction, in order
  // -------------------------------------------------------------------------

  function InsertUser(u: UserId, users: seq<UserId>): seq<UserId> {
    if users == [] || u < users[0] then [u] + users else [users[0]] + InsertUser(u, users[1..])
  }

  lemma {:induction false} InsertUserKeeps(u: UserId, users: seq<UserId>)
    requires Ascending(users) && u !in users
    ensures Ascending(InsertUser(u, users))
    ensures forall v :: v in InsertUser(u, users) <==> v == u || v in users
    decreases |users|
  {
    if users != [] && u >= users[0] {
      InsertUserKeeps(u, users[1..]);
      assert users == [users[0]] + users[1..];
      var rest := InsertUser(u, users[1..]);
      forall i | 0 <= i < |rest|
        ensures users[0] < rest[i]
      {
        assert rest[i] in rest;
      }
    }
  }

  ghost function SortedUsers(users: set<UserId>): (r: seq<UserId>)
    ensures Ascending(r)
    ensures forall v :: v in r <==> v in users
    decreases |users|
  {
    if users == {} then []
    else
      var u :| u in users;
      var rest := SortedUsers(users - {u});
      InsertUserKeeps(u, rest);
      InsertUser(u, rest)
  }

  ghost function PayersOf(s: State, a: AuctionId): (r: seq<UserId>)
    ensures ListsPayers(r, s, a)
  {
    var paid := set seat | seat in s.participants && seat.auction == a && s.participants[seat].totalFees > 0 :: seat.user;
    assert forall u :: u in paid <==> IsPayer(s, a, u) by {
      forall u ensures u in paid <==> IsPayer(s, a, u) {
        assert IsPayer(s, a, u) ==> Seat(a, u) in s.participants && Seat(a, u).user == u;
        if u in paid {
          var seat :| seat in s.participants && seat.auction == a && s.participants[seat].totalFees > 0 && seat.user == u;
          assert seat == Seat(a, u);
        }
      }
    }
    SortedUsers(paid)
  }

  // -------------------------------------------------------------------------
  // The jobs
  // -------------------------------------------------------------------------

  datatype Job = OpenJob | CloseJob | DecideJob | PayJob

  /** One item of a pass. A refusal is logged and the pass moves on. */
  ghost function Do(s: State, job: Job, a: AuctionId): State {
    match job
    case OpenJob => Committed(s, OpenAuction(s, a))
    case CloseJob =>
      (match CloseBidding(s, a)
       case Err(_) => s
       case Ok(s1) => Closed(s1, a, PayersOf(s1, a)))
    case DecideJob => Closed(s, a, PayersOf(s, a))
    case PayJob => RefundAll(s, a, PayersOf(s, a)).0
  }

  /** What the pass's query promises of an item when its turn comes. */
  predicate Ready(s: State, job: Job, a: AuctionId) {
    match job
    case OpenJob => DueToOpen(s, a)
    case CloseJob => DueToClose(s, a)
    case DecideJob => AwaitingResult(s, a)
    case PayJob => Refundable(s, a)
  }

  ghost function DoEach(s: State, job: Job, ids: seq<AuctionId>): State
    decreases |ids|
  {
    if ids == [] then s else DoEach(Do(s, job, ids[0]), job, ids[1..])
  }

  /** What working on other auctions leaves alone. */
  ghost predicate Around(s: State, s': State, touched: set<AuctionId>) {
    && s'.participants == s.participants && s'.now == s.now
    && s'.auctions.Keys == s.auctions.Keys
    && (forall b :: b !in touched ==> SameElsewhere(s, s', b))
    && (forall b, u :: Refunded(s, b, u) ==> Refunded(s', b, u))
    && (forall b, u :: b !in touched && Refunded(s', b, u) ==> Refunded(s, b, u))
  }

  lemma AroundChains(s: State, s1: State, s2: State, x: set<AuctionId>, y: set<AuctionId>)
    requires Around(s, s1, x) && Around(s1, s2, y)
    ensures Around(s, s2, x + y)
  {
    forall b | b !in x + y
      ensures SameElsewhere(s, s2, b)
    {
      assert SameElsewhere(s, s1, b) && SameElsewhere(s1, s2, b);
    }
  }

  /** A wallet table whose ledgers only grew has lost no refund. */
  lemma GrowthKeepsRefunds(s: State, s': State)
    requires forall w :: Get(s.accounts, w).entries <= Get(s'.accounts, w).entries
    ensures forall b, u :: Refunded(s, b, u) ==> Refunded(s', b, u)
  {
    forall b, u | Refunded(s, b, u)
      ensures Refunded(s', b, u)
    {
      var w := RefundWallet(u);
      var p := FindKey(Get(s.accounts, w).entries, RefundKey(b, u)).value;
      assert Get(s.accounts, w).entries <= Get(s'.accounts, w).entries;
      assert Get(s'.accounts, w).entries[p].key == Some(RefundKey(b, u));
    }
  }

  // -------------------------------------------------------------------------
  // One job
  // -------------------------------------------------------------------------

  /** Nothing that is due can be refused its opening. */
  lemma OpenOne(s: State, a: AuctionId)
    requires Inv(s) && DueToOpen(s, a)
    ensures OpenAuction(s, a).Ok?
    ensures var s' := Do(s, OpenJob, a);
      && Inv(s') && Around(s, s', {a})
      && s'.auctions[a].status in {Live, Cancelled}
      && a !in s'.results && s'.accounts == s.accounts
      && !HasParticipants(s'.participants, a)
  {
    hide Inv, Holds, Refunded, StockSound;
    Here(s, a);
    OpenKeeps(s, a);
    StatusesOf(s);
    EditableIsEmpty(s, a);
    var s' := Do(s, OpenJob, a);
    NobodyParticipates(s, a);
    NoResultYet(s, a);
    forall b, u ensures Refunded(s', b, u) <==> Refunded(s, b, u) {
      SameAccounts(s, s', b, u);
    }
    SameKeys(s, s', a);
  }

  lemma NobodyParticipates(s: State, a: AuctionId)
    requires NobodyIn(s.participants, a)
    ensures !HasParticipants(s.participants, a)
  {
    forall seat | seat in s.participants
      ensures seat.auction != a
    {
      assert seat == Seat(seat.auction, seat.user);
    }
  }

  lemma NoResultYet(s: State, a: AuctionId)
    requires Inv(s) && a in s.auctions && s.auctions[a].status !in {Completed, Cancelled}
    ensures a !in s.results
  {
    hide Inv;
    if a in s.results {
      ResultFacts(s, a);
    }
  }

  lemma CloseOneBidding(s: State, a: AuctionId)
    requires Inv(s) && DueToClose(s, a)
    ensures CloseBidding(s, a).Ok?
    ensures var s' := CloseBidding(s, a).value;
      Inv(s') && a in s'.auctions && s'.auctions[a].status == Closing && Around(s, s', {a})
  {
    hide Inv, Refunded;
    CloseBiddingKeeps(s, a);
    forall b, u ensures Refunded(CloseBidding(s, a).value, b, u) <==> Refunded(s, b, u) {
      SameAccounts(s, CloseBidding(s, a).value, b, u);
    }
    SameKeys(s, CloseBidding(s, a).value, a);
  }

  lemma SettleOne(s: State, a: AuctionId)
    requires Inv(s) && a in s.auctions && s.auctions[a].status in CLOSABLE
    ensures CloseAuction(s, a, PayersOf(s, a)).Ok?
    ensures var s' := Closed(s, a, PayersOf(s, a)); Inv(s') && Settled(s', a) && Around(s, s', {a})
  {
    hide Inv, Refunded, CloseAuction, Closed, Settled, CloseScript, Exec, Next, SameElsewhere;
    var payers := PayersOf(s, a);
    CloseAuctionSettles(s, a, payers);
    RunIsPermanent(s, CloseScript(a, payers));
    GrowthKeepsRefunds(s, Closed(s, a, payers));
    forall b, u | b !in {a} && Refunded(Closed(s, a, payers), b, u)
      ensures Refunded(s, b, u)
    {
      ClosedOnly(s, a, payers, b, u);
    }
    SameKeys(s, Closed(s, a, payers), a);
  }

  /** Closing one auction books no other auction's refunds. */
  lemma ClosedOnly(s: State, a: AuctionId, payers: seq<UserId>, b: AuctionId, v: UserId)
    requires Inv(s) && a in s.auctions && s.auctions[a].status in CLOSABLE && b != a
    ensures Refunded(Closed(s, a, payers), b, v) ==> Refunded(s, b, v)
  {
    hide Inv, Refunded, Decide, RefundAll, BeginResult;
    DecidesFromAnywhere(s, a);
    var s1 := BeginResult(s, a).value;
    var s2 := Decide(s1, a).value;
    RefundAllOnly(s2, a, payers, b, v);
    SameAccounts(s2, s, b, v);
    assert s.auctions[a].status == Completed ==> s1 == s && s2 == s;
  }

  lemma SameAccounts(s: State, s': State, b: AuctionId, v: UserId)
    requires s'.accounts == s.accounts
    ensures Refunded(s', b, v) <==> Refunded(s, b, v)
  {
  }

  lemma SameKeys(s: State, s': State, a: AuctionId)
    requires a in s.auctions && a in s'.auctions && forall b :: b != a ==> SameElsewhere(s, s', b)
    ensures s'.auctions.Keys == s.auctions.Keys
  {
    forall b ensures b in s'.auctions <==> b in s.auctions {
      assert b != a ==> SameElsewhere(s, s', b);
    }
  }

  lemma PayOne(s: State, a: AuctionId)
    requires Inv(s) && Refundable(s, a)
    ensures RefundAll(s, a, PayersOf(s, a)).1.None?
    ensures var s' := Do(s, PayJob, a); Inv(s') && Settled(s', a) && Around(s, s', {a})
  {
    hide Inv, Refunded, Settled, Exec, Next, RefundAll;
    var payers := PayersOf(s, a);
    PayersCarry(s, s, a, payers);
    RefundAllPays(s, a, payers);
    MoneySettles(s, a, payers);
    RunIsPermanent(s, Returns(a, payers));
    GrowthKeepsRefunds(s, Do(s, PayJob, a));
    forall b, u | b !in {a} && Refunded(Do(s, PayJob, a), b, u)
      ensures Refunded(s, b, u)
    {
      RefundAllOnly(s, a, payers, b, u);
    }
  }

  /** An auction's remaining distance from being finished. */
  ghost function Work(s: State, a: AuctionId): nat {
    if DueToOpen(s, a) then 4
    else if DueToClose(s, a) then 3
    else if AwaitingResult(s, a) then 2
    else if UnpaidRefunds(s, a) then 1
    else 0
  }

  lemma SettledIsNoWork(s: State, a: AuctionId)
    requires Inv(s) && Settled(s, a)
    ensures Work(s, a) == 0
  {
    hide Inv, PaidBack;
    UnpaidIsOwed(s, a);
  }

  lemma UntouchedWork(s: State, s': State, touched: set<AuctionId>, b: AuctionId)
    requires Inv(s) && Inv(s') && Around(s, s', touched) && b !in touched
    ensures Work(s', b) == Work(s, b)
    ensures Settled(s, b) ==> Settled(s', b)
    ensures DueToOpen(s', b) <==> DueToOpen(s, b)
    ensures DueToClose(s', b) <==> DueToClose(s, b)
    ensures AwaitingResult(s', b) <==> AwaitingResult(s, b)
    ensures Refundable(s', b) <==> Refundable(s, b)
    ensures UnpaidRefunds(s', b) <==> UnpaidRefunds(s, b)
  {
    hide Inv, Refunded, HasRefundEntry, UnpaidRefunds, HasParticipants;
    assert SameElsewhere(s, s', b);
    UnpaidIsOwed(s, b);
    UnpaidIsOwed(s', b);
    assert forall u :: IsPayer(s', b, u) <==> IsPayer(s, b, u);
  }

  /** One item whose turn has come: nothing is refused, and its work drops, to nothing if it was past opening. */
  lemma JobDone(s: State, job: Job, a: AuctionId)
    requires Inv(s) && Ready(s, job, a)
    ensures var s' := Do(s, job, a);
      && Inv(s') && Around(s, s', {a})
      && (job == OpenJob ==> Work(s', a) <= 3 && !AwaitingResult(s', a) && !UnpaidRefunds(s', a))
      && (job != OpenJob ==> Settled(s', a) && Work(s', a) == 0)
  {
    hide Inv, OpenAuction, CloseBidding, Closed, RefundAll, Around, Settled, CloseAuction, HasParticipants;
    match job
    case OpenJob =>
      OpenOne(s, a);
    case CloseJob =>
      CloseOneBidding(s, a);
      var s1 := CloseBidding(s, a).value;
      SettleOne(s1, a);
      AroundChains(s, s1, Closed(s1, a, PayersOf(s1, a)), {a}, {a});
      assert {a} + {a} == {a};
      SettledIsNoWork(Do(s, job, a), a);
    case DecideJob =>
      SettleOne(s, a);
      SettledIsNoWork(Do(s, job, a), a);
    case PayJob =>
      PayOne(s, a);
      SettledIsNoWork(Do(s, job, a), a);
  }

  // -------------------------------------------------------------------------
  // One pass
  // -------------------------------------------------------------------------

  ghost predicate AllReady(s: State, job: Job, ids: seq<AuctionId>) {
    && (forall i, j :: 0 <= i < j < |ids| ==> ids[i] != ids[j])
    && (forall i :: 0 <= i < |ids| ==> Ready(s, job, ids[i]))
  }

  function Members(ids: seq<AuctionId>): set<AuctionId> {
    set a | a in ids
  }

  lemma ReadyCarries(s: State, s': State, job: Job, a: AuctionId, b: AuctionId)
    requires Inv(s) && Inv(s') && Around(s, s', {a}) && b != a && Ready(s, job, b)
    ensures Ready(s', job, b)
  {
    hide Inv, Around, DueToOpen, DueToClose, AwaitingResult, Refundable;
    UntouchedWork(s, s', {a}, b);
  }

  /** A whole pass: every listed item is done, and every other auction is left as it was. */
  lemma {:induction false} PassDone(s: State, job: Job, ids: seq<AuctionId>)
    requires Inv(s) && AllReady(s, job, ids)
    ensures var s' := DoEach(s, job, ids);
      && Inv(s') && Around(s, s', Members(ids))
      && (forall a :: a in ids ==>
            if job == OpenJob then Work(s', a) <= 3 && !AwaitingResult(s', a) && !UnpaidRefunds(s', a)
            else Settled(s', a) && Work(s', a) == 0)
    decreases |ids|
  {
    hide Inv, Do, Around, Settled, Ready, AwaitingResult, UnpaidRefunds, Work;
    if ids == [] {
      AroundSelf(s);
      assert Members(ids) == {};
    } else {
      var a, rest := ids[0], ids[1..];
      var s1 := Do(s, job, a);
      var s' := DoEach(s1, job, rest);
      JobDone(s, job, a);
      forall i | 0 <= i < |rest|
        ensures Ready(s1, job, rest[i])
      {
        assert rest[i] == ids[i + 1];
        ReadyCarries(s, s1, job, a, rest[i]);
      }
      PassDone(s1, job, rest);
      AroundChains(s, s1, s', {a}, Members(rest));
      assert Members(ids) == {a} + Members(rest) by {
        assert ids == [a] + rest;
      }
      assert a !in rest;
      UntouchedWork(s1, s', Members(rest), a);
      forall b | b in ids && b != a
        ensures b in rest
      {
        assert ids == [a] + rest;
      }
    }
  }

  lemma AroundSelf(s: State)
    ensures Around(s, s, {})
  {
  }

  // -------------------------------------------------------------------------
  // One sweep
  // -------------------------------------------------------------------------

  /**
   * What the four queries answered. The two due lists are both read before
   * anything is opened; the other two when their pass begins.
   */
  datatype Findings =
    Findings(opens: seq<AuctionId>, closes: seq<AuctionId>, awaiting: seq<AuctionId>, unpaid: seq<AuctionId>)

  ghost function AfterOpens(s: State, f: Findings): State { DoEach(s, OpenJob, f.opens) }

  ghost function AfterCloses(s: State, f: Findings): State { DoEach(AfterOpens(s, f), CloseJob, f.closes) }

  ghost function AfterDecides(s: State, f: Findings): State { DoEach(AfterCloses(s, f), DecideJob, f.awaiting) }

  ghost function Swept(s: State, f: Findings): State { DoEach(AfterDecides(s, f), PayJob, f.unpaid) }

  ghost predicate Found(s: State, f: Findings, limit: nat) {
    && Listed(f.opens, OpenSet(s), limit)
    && Listed(f.closes, CloseSet(s), limit)
    && Listed(f.awaiting, AwaitingSet(AfterCloses(s, f)), limit)
    && Listed(f.unpaid, UnpaidSet(AfterDecides(s, f)), limit)
  }

  /** The first two passes: what they finished, and what they left alone. */
  lemma BiddingPasses(s: State, f: Findings, limit: nat)
    requires Inv(s) && Listed(f.opens, OpenSet(s), limit) && Listed(f.closes, CloseSet(s), limit)
    ensures var s1, s2 := AfterOpens(s, f), AfterCloses(s, f);
      && Inv(s1) && Inv(s2)
      && Around(s, s1, Members(f.opens)) && Around(s1, s2, Members(f.closes))
      && (forall a :: a in f.opens ==> Work(s1, a) <= 3 && !AwaitingResult(s1, a) && !UnpaidRefunds(s1, a) && a !in f.closes)
      && (forall a :: a in f.closes ==> Settled(s2, a) && Work(s2, a) == 0 && a !in f.opens)
  {
    hide Inv, Around, Work, Settled, AwaitingResult, UnpaidRefunds, DoEach;
    var s1 := AfterOpens(s, f);
    assert AllReady(s, OpenJob, f.opens) by {
      assert forall i :: 0 <= i < |f.opens| ==> f.opens[i] in OpenSet(s);
    }
    PassDone(s, OpenJob, f.opens);
    forall a | a in f.opens ensures a !in f.closes {
      assert a in OpenSet(s);
      assert a in f.closes ==> a in CloseSet(s);
    }
    forall i | 0 <= i < |f.closes|
      ensures Ready(s1, CloseJob, f.closes[i])
    {
      assert f.closes[i] in CloseSet(s);
      UntouchedWork(s, s1, Members(f.opens), f.closes[i]);
    }
    PassDone(s1, CloseJob, f.closes);
  }

  lemma DecidingPass(s: State, ids: seq<AuctionId>, limit: nat)
    requires Inv(s) && Listed(ids, AwaitingSet(s), limit)
    ensures var s' := DoEach(s, DecideJob, ids);
      && Inv(s') && Around(s, s', Members(ids))
      && (forall a :: a in ids ==> Settled(s', a) && Work(s', a) == 0)
  {
    hide Inv, Around, Work, Settled, AwaitingResult, DoEach;
    forall i | 0 <= i < |ids| ensures Ready(s, DecideJob, ids[i]) {
      assert ids[i] in AwaitingSet(s);
    }
    PassDone(s, DecideJob, ids);
  }

  lemma PayingPass(s: State, ids: seq<AuctionId>, limit: nat)
    requires Inv(s) && Listed(ids, UnpaidSet(s), limit)
    ensures var s' := DoEach(s, PayJob, ids);
      && Inv(s') && Around(s, s', Members(ids))
      && (forall a :: a in ids ==> Settled(s', a) && Work(s', a) == 0)
  {
    hide Inv, Around, Work, Settled, DoEach, HasRefundEntry, Refundable;
    forall i | 0 <= i < |ids| ensures Ready(s, PayJob, ids[i]) {
      assert ids[i] in UnpaidSet(s);
    }
    PassDone(s, PayJob, ids);
  }

  /** A listing no longer than its limit allows is everything there is. */
  lemma {:induction false} ListsEverything(ids: seq<AuctionId>, due: set<AuctionId>)
    requires forall i, j :: 0 <= i < j < |ids| ==> ids[i] != ids[j]
    requires forall i :: 0 <= i < |ids| ==> ids[i] in due
    requires |ids| == |due|
    ensures forall a :: a in due ==> a in ids
    decreases |ids|
  {
    if ids != [] {
      var rest := ids[1..];
      forall i | 0 <= i < |rest| ensures rest[i] in due - {ids[0]} {
        assert rest[i] == ids[i + 1];
      }
      ListsEverything(rest, due - {ids[0]});
      forall a | a in due ensures a in ids {
        assert ids == [ids[0]] + rest;
        assert a != ids[0] ==> a in due - {ids[0]};
      }
    }
  }

  lemma SmallBacklogIsListed(ids: seq<AuctionId>, due: set<AuctionId>, bound: set<AuctionId>, limit: nat, a: AuctionId)
    requires Listed(ids, due, limit) && due <= bound && |bound| <= limit && a in due
    ensures a in ids
  {
    assert |bound - due| == |bound| - |due|;
    ListsEverything(ids, due);
  }

  /** Passes only shorten the list of auctions still awaiting a result. */
  lemma AwaitingShrinks(s: State, f: Findings, limit: nat)
    requires Inv(s) && Listed(f.opens, OpenSet(s), limit) && Listed(f.closes, CloseSet(s), limit)
    ensures AwaitingSet(AfterCloses(s, f)) <= AwaitingSet(s)
  {
    hide Inv, Around, Work, Settled, AwaitingResult, UnpaidRefunds, AfterOpens, AfterCloses, Listed;
    BiddingPasses(s, f, limit);
    var s1, s2 := AfterOpens(s, f), AfterCloses(s, f);
    forall a | a in AwaitingSet(s2)
      ensures a in AwaitingSet(s)
    {
      if a in f.closes {
        NotAwaiting(s2, a);
      } else {
        UntouchedWork(s1, s2, Members(f.closes), a);
        if a !in f.opens {
          UntouchedWork(s, s1, Members(f.opens), a);
        }
      }
      AwaitingIsKnown(s, a);
    }
  }

  lemma NotAwaiting(s: State, a: AuctionId)
    requires Settled(s, a)
    ensures !AwaitingResult(s, a)
  {
  }

  lemma AwaitingIsKnown(s: State, a: AuctionId)
    ensures AwaitingResult(s, a) ==> a in s.auctions
  {
  }

  lemma UnpaidIsKnown(s: State, a: AuctionId)
    ensures UnpaidRefunds(s, a) ==> a in s.results
  {
  }

  /** Passes only shorten the list of auctions that still owe a refund. */
  lemma UnpaidShrinks(s: State, f: Findings, limit: nat)
    requires Inv(s) && Found(s, f, limit)
    ensures UnpaidSet(AfterDecides(s, f)) <= UnpaidSet(s)
  {
    hide Inv, Around, Work, Settled, AwaitingResult, UnpaidRefunds, AfterOpens, AfterCloses, Listed;
    BiddingPasses(s, f, limit);
    var s1, s2, s3 := AfterOpens(s, f), AfterCloses(s, f), AfterDecides(s, f);
    DecidingPass(s2, f.awaiting, limit);
    forall a | a in UnpaidSet(s3)
      ensures a in UnpaidSet(s)
    {
      if a in f.awaiting {
        NotUnpaid(s3, a);
      } else {
        UntouchedWork(s2, s3, Members(f.awaiting), a);
        if a in f.closes {
          NotUnpaid(s2, a);
        } else {
          UntouchedWork(s1, s2, Members(f.closes), a);
          if a !in f.opens {
            UntouchedWork(s, s1, Members(f.opens), a);
          }
        }
      }
      UnpaidIsKnown(s, a);
    }
  }

  lemma NotUnpaid(s: State, a: AuctionId)
    requires Inv(s) && Settled(s, a)
    ensures !UnpaidRefunds(s, a)
  {
    hide Inv, PaidBack;
    UnpaidIsOwed(s, a);
  }

  /** Live and due, closing, calculating, or cancelled with participants. */
  predicate Concerned(s: State, a: AuctionId) {
    && a in s.auctions
    && (|| DueToClose(s, a)
        || s.auctions[a].status in {Closing, Calculating}
        || (s.auctions[a].status == Cancelled && HasParticipants(s.participants, a)))
  }

  lemma WhereConcernedStands(s: State, a: AuctionId)
    requires Inv(s) && Concerned(s, a)
    ensures DueToClose(s, a) || AwaitingResult(s, a) || UnpaidRefunds(s, a) || Settled(s, a)
  {
    hide Inv, PaidBack, HasRefundEntry;
    if a in s.results {
      ResultFacts(s, a);
      UnpaidIsOwed(s, a);
    }
  }

  /** Once settled, an auction stays settled through the passes that remain. */
  lemma StaysSettled(s: State, f: Findings, limit: nat, a: AuctionId)
    requires Inv(s) && Found(s, f, limit)
    ensures Settled(AfterCloses(s, f), a) ==> Settled(AfterDecides(s, f), a)
    ensures Settled(AfterDecides(s, f), a) ==> Settled(Swept(s, f), a)
    ensures Settled(s, a) ==> Settled(AfterCloses(s, f), a)
  {
    hide Inv, Around, Work, Settled, AwaitingResult, UnpaidRefunds, AfterOpens, AfterCloses, AfterDecides, Listed;
    BiddingPasses(s, f, limit);
    var s1, s2, s3 := AfterOpens(s, f), AfterCloses(s, f), AfterDecides(s, f);
    DecidesAndPays(s, f, limit);
    if a !in f.awaiting {
      UntouchedWork(s2, s3, Members(f.awaiting), a);
    }
    if a !in f.unpaid {
      UntouchedWork(s3, Swept(s, f), Members(f.unpaid), a);
    }
    if Settled(s, a) {
      NotOpenable(s, a);
      if a in f.opens {
        ListedIn(f.opens, OpenSet(s), limit, a);
      }
      UntouchedWork(s, s1, Members(f.opens), a);
      if a !in f.closes {
        UntouchedWork(s1, s2, Members(f.closes), a);
      }
    }
  }

  lemma ListedIn(ids: seq<AuctionId>, due: set<AuctionId>, limit: nat, a: AuctionId)
    requires Listed(ids, due, limit) && a in ids
    ensures a in due
  {
  }

  lemma NotOpenable(s: State, a: AuctionId)
    requires Settled(s, a)
    ensures a !in OpenSet(s)
  {
  }

  lemma DecidesAndPays(s: State, f: Findings, limit: nat)
    requires Inv(s) && Found(s, f, limit)
    ensures var s2, s3, s4 := AfterCloses(s, f), AfterDecides(s, f), Swept(s, f);
      && Inv(s2) && Inv(s3) && Inv(s4)
      && Around(s2, s3, Members(f.awaiting)) && Around(s3, s4, Members(f.unpaid))
      && (forall a :: a in f.awaiting ==> Settled(s3, a) && Work(s3, a) == 0)
      && (forall a :: a in f.unpaid ==> Settled(s4, a) && Work(s4, a) == 0)
  {
    hide Inv, Around, Work, Settled, AwaitingResult, UnpaidRefunds, AfterOpens, AfterCloses, Listed, DoEach;
    BiddingPasses(s, f, limit);
    DecidingPass(AfterCloses(s, f), f.awaiting, limit);
    PayingPass(AfterDecides(s, f), f.unpaid, limit);
  }

  /** Still awaiting, or still owing, when the query for it is asked. */
  lemma StillThere(s: State, f: Findings, limit: nat, a: AuctionId)
    requires Inv(s) && Found(s, f, limit)
    ensures DueToClose(s, a) ==> a in CloseSet(s)
    ensures AwaitingResult(s, a) ==> a in AwaitingSet(AfterCloses(s, f))
  {
    hide Inv, Around, Work, Settled, UnpaidRefunds, AfterOpens, AfterCloses, Listed, HasParticipants;
    BiddingPasses(s, f, limit);
    var s1, s2 := AfterOpens(s, f), AfterCloses(s, f);
    if AwaitingResult(s, a) {
      if a in f.opens {
        ListedIn(f.opens, OpenSet(s), limit, a);
      }
      if a in f.closes {
        ListedIn(f.closes, CloseSet(s), limit, a);
      }
      UntouchedWork(s, s1, Members(f.opens), a);
      UntouchedWork(s1, s2, Members(f.closes), a);
    }
  }

  /** An unpaid auction with its result is either listed by the last query or settled before it is asked. */
  lemma UnpaidIsReached(s: State, f: Findings, limit: nat, a: AuctionId)
    requires Inv(s) && Found(s, f, limit) && UnpaidRefunds(s, a)
    ensures a in UnpaidSet(AfterDecides(s, f)) || Settled(AfterDecides(s, f), a)
  {
    hide Inv, Work, PaidBack, UnpaidRefunds, HasRefundEntry, AfterOpens, AfterCloses, AfterDecides, Listed, HasParticipants;
    BiddingPasses(s, f, limit);
    DecidesAndPays(s, f, limit);
    UnpaidIsOwed(s, a);
    ResultFacts(s, a);
    var s1, s2, s3 := AfterOpens(s, f), AfterCloses(s, f), AfterDecides(s, f);
    if a in f.opens {
      ListedIn(f.opens, OpenSet(s), limit, a);
    }
    if a in f.closes {
      ListedIn(f.closes, CloseSet(s), limit, a);
    }
    assert SameElsewhere(s, s1, a) && SameElsewhere(s1, s2, a);
    if a in f.awaiting {
    } else {
      assert SameElsewhere(s2, s3, a);
      UnpaidIsOwed(s3, a);
    }
  }

  /**
   * From any reachable state, wherever a crash left it, one sweep over a backlog
   * that fits the batch gives every auction that was live and due, closing,
   * calculating, or cancelled with participants its result, and leaves none of
   * its payers unpaid.
   */
  lemma SweepFinishesEverything(s: State, f: Findings, a: AuctionId)
    requires Reachable(s) && Found(s, f, SWEEP_BATCH)
    requires |CloseSet(s)| <= SWEEP_BATCH && |AwaitingSet(s)| <= SWEEP_BATCH && |UnpaidSet(s)| <= SWEEP_BATCH
    requires Concerned(s, a)
    ensures Settled(Swept(s, f), a)
    ensures !UnpaidRefunds(Swept(s, f), a)
  {
    hide Inv, Reachable, Settled, Work, Around, UnpaidRefunds, AfterOpens, AfterCloses, AfterDecides, Swept, Listed,
         Concerned, OpenSet, CloseSet, AwaitingSet, UnpaidSet, Found;
    ReachableIsSound(s);
    WhereConcernedStands(s, a);
    FoundParts(s, f, SWEEP_BATCH);
    BiddingPasses(s, f, SWEEP_BATCH);
    DecidesAndPays(s, f, SWEEP_BATCH);
    StaysSettled(s, f, SWEEP_BATCH, a);
    StillThere(s, f, SWEEP_BATCH, a);
    AwaitingShrinks(s, f, SWEEP_BATCH);
    UnpaidShrinks(s, f, SWEEP_BATCH);
    if DueToClose(s, a) {
      SmallBacklogIsListed(f.closes, CloseSet(s), CloseSet(s), SWEEP_BATCH, a);
    } else if AwaitingResult(s, a) {
      SmallBacklogIsListed(f.awaiting, AwaitingSet(AfterCloses(s, f)), AwaitingSet(s), SWEEP_BATCH, a);
    } else if UnpaidRefunds(s, a) {
      UnpaidIsReached(s, f, SWEEP_BATCH, a);
      if a in UnpaidSet(AfterDecides(s, f)) {
        SmallBacklogIsListed(f.unpaid, UnpaidSet(AfterDecides(s, f)), UnpaidSet(s), SWEEP_BATCH, a);
      }
    }
    NotUnpaid(Swept(s, f), a);
  }

  lemma FoundParts(s: State, f: Findings, limit: nat)
    requires Found(s, f, limit)
    ensures Listed(f.opens, OpenSet(s), limit) && Listed(f.closes, CloseSet(s), limit)
    ensures Listed(f.awaiting, AwaitingSet(AfterCloses(s, f)), limit)
    ensures Listed(f.unpaid, UnpaidSet(AfterDecides(s, f)), limit)
  {
  }

  // -------------------------------------------------------------------------
  // Progress, whatever the backlog
  // -------------------------------------------------------------------------

  const LEVELS := {1, 2, 3, 4}

  /** One token for each unit of work left. */
  ghost function Tokens(s: State): set<(AuctionId, int)> {
    set a, j | a in s.auctions && j in LEVELS && j <= Work(s, a) :: (a, j)
  }

  ghost function Outstanding(s: State): nat {
    |Tokens(s)|
  }

  lemma LessWorkFewerTokens(s: State, s': State)
    requires s'.auctions.Keys == s.auctions.Keys
    requires forall a :: a in s.auctions ==> Work(s', a) <= Work(s, a)
    ensures Outstanding(s') <= Outstanding(s)
    ensures (exists a :: a in s.auctions && Work(s', a) < Work(s, a)) ==> Outstanding(s') < Outstanding(s)
  {
    hide Work;
    assert Tokens(s') <= Tokens(s);
    assert |Tokens(s) - Tokens(s')| == |Tokens(s)| - |Tokens(s')|;
    if exists a :: a in s.auctions && Work(s', a) < Work(s, a) {
      var a :| a in s.auctions && Work(s', a) < Work(s, a);
      WorkIsBounded(s, a);
      assert Work(s, a) in LEVELS;
      assert (a, Work(s, a) as int) in Tokens(s) - Tokens(s');
    }
  }

  lemma WorkIsBounded(s: State, a: AuctionId)
    ensures 0 <= Work(s, a) <= 4
    ensures Work(s, a) == 0 ==> !DueToOpen(s, a) && !DueToClose(s, a) && !AwaitingResult(s, a) && !UnpaidRefunds(s, a)
  {
  }

  /** Nothing outstanding is nothing to find. */
  lemma NothingOutstanding(s: State)
    requires Inv(s) && Outstanding(s) == 0
    ensures OpenSet(s) == {} && CloseSet(s) == {} && AwaitingSet(s) == {} && UnpaidSet(s) == {}
  {
    hide Inv, Work, UnpaidRefunds, AwaitingResult, DueToOpen, DueToClose;
    forall a | a in s.auctions
      ensures Work(s, a) == 0
    {
      WorkIsBounded(s, a);
      assert Work(s, a) >= 1 ==> (a, 1) in Tokens(s);
    }
    forall a
      ensures a in s.auctions ==> !DueToOpen(s, a) && !DueToClose(s, a) && !AwaitingResult(s, a) && !UnpaidRefunds(s, a)
      ensures a in s.results ==> a in s.auctions
    {
      WorkIsBounded(s, a);
      if a in s.results {
        ResultFacts(s, a);
      }
    }
  }

  /** No pass adds work anywhere. */
  lemma PassesNeverAddWork(s: State, f: Findings, limit: nat, a: AuctionId)
    requires Inv(s) && Found(s, f, limit)
    ensures Inv(Swept(s, f))
    ensures Work(AfterOpens(s, f), a) <= Work(s, a)
    ensures Work(AfterCloses(s, f), a) <= Work(AfterOpens(s, f), a)
    ensures Work(AfterDecides(s, f), a) <= Work(AfterCloses(s, f), a)
    ensures Work(Swept(s, f), a) <= Work(AfterDecides(s, f), a)
  {
    hide Inv, Around, Work, Settled, AwaitingResult, UnpaidRefunds, AfterOpens, AfterCloses, AfterDecides, Swept, Listed;
    BiddingPasses(s, f, limit);
    DecidesAndPays(s, f, limit);
    var s1, s2, s3 := AfterOpens(s, f), AfterCloses(s, f), AfterDecides(s, f);
    if a in f.opens {
      ListedIn(f.opens, OpenSet(s), limit, a);
      OpenableWork(s, a);
    } else {
      UntouchedWork(s, s1, Members(f.opens), a);
    }
    if a !in f.closes {
      UntouchedWork(s1, s2, Members(f.closes), a);
    }
    if a !in f.awaiting {
      UntouchedWork(s2, s3, Members(f.awaiting), a);
    }
    if a !in f.unpaid {
      UntouchedWork(s3, Swept(s, f), Members(f.unpaid), a);
    }
  }

  lemma OpenableWork(s: State, a: AuctionId)
    ensures a in OpenSet(s) ==> Work(s, a) == 4
    ensures a in CloseSet(s) ==> Work(s, a) == 3
    ensures a in AwaitingSet(s) ==> Work(s, a) == 2
  {
  }

  lemma UnpaidWork(s: State, a: AuctionId)
    requires Inv(s) && a in UnpaidSet(s)
    ensures Work(s, a) == 1
  {
    hide Inv, UnpaidRefunds;
    ResultFacts(s, a);
  }

  /** The first item of the first pass that has one ends with less work than it began with. */
  lemma SomethingFinished(s: State, f: Findings, limit: nat) returns (a: AuctionId)
    requires Inv(s) && Found(s, f, limit) && limit >= 1
    requires OpenSet(s) + CloseSet(s) + AwaitingSet(s) + UnpaidSet(s) != {}
    ensures a in s.auctions && Work(Swept(s, f), a) < Work(s, a)
  {
    hide Inv, Around, Work, Settled, AwaitingResult, UnpaidRefunds, DueToOpen, DueToClose;
    BiddingPasses(s, f, limit);
    DecidesAndPays(s, f, limit);
    if OpenSet(s) != {} {
      a := f.opens[0];
      assert a in f.opens && a in OpenSet(s);
    } else if CloseSet(s) != {} {
      a := f.closes[0];
      assert a in f.closes && a in CloseSet(s);
    } else if AwaitingSet(s) != {} {
      a := f.awaiting[0];
      assert AfterCloses(s, f) == s;
      assert a in f.awaiting && a in AwaitingSet(s);
    } else {
      assert AfterDecides(s, f) == s;
      a := f.unpaid[0];
      assert a in f.unpaid && a in UnpaidSet(s);
      UnpaidWork(s, a);
      ResultFacts(s, a);
    }
    OpenableWork(s, a);
    PassesNeverAddWork(s, f, limit, a);
  }

  /**
   * Whatever the size of the backlog, a sweep that finds anything outstanding
   * leaves strictly less of it, and a sweep that finds nothing changes nothing.
   */
  lemma SweepMakesProgress(s: State, f: Findings, limit: nat)
    requires Reachable(s) && Found(s, f, limit) && limit >= 1
    ensures Outstanding(s) > 0 ==> Outstanding(Swept(s, f)) < Outstanding(s)
    ensures Outstanding(s) == 0 ==> Swept(s, f) == s
  {
    hide Inv, Reachable, Around, Work, Settled, AwaitingResult, UnpaidRefunds, DueToOpen, DueToClose, Outstanding, Swept,
         AfterOpens, AfterCloses, AfterDecides, Found;
    ReachableIsSound(s);
    if Outstanding(s) == 0 {
      NothingOutstanding(s);
      EmptySweep(s, f, limit);
    } else {
      SomethingIsFound(s);
      var a := SomethingFinished(s, f, limit);
      forall b ensures Work(Swept(s, f), b) <= Work(s, b) {
        PassesNeverAddWork(s, f, limit, b);
      }
      SameAuctions(s, f, limit);
      LessWorkFewerTokens(s, Swept(s, f));
    }
  }

  lemma SameAuctions(s: State, f: Findings, limit: nat)
    requires Inv(s) && Found(s, f, limit)
    ensures Swept(s, f).auctions.Keys == s.auctions.Keys
  {
    hide Inv, Work, Settled, AwaitingResult, UnpaidRefunds, AfterOpens, AfterCloses, AfterDecides, Swept, Listed,
         SameElsewhere, Refunded;
    BiddingPasses(s, f, limit);
    DecidesAndPays(s, f, limit);
  }

  lemma EmptySweep(s: State, f: Findings, limit: nat)
    requires Found(s, f, limit)
    requires OpenSet(s) == {} && CloseSet(s) == {} && AwaitingSet(s) == {} && UnpaidSet(s) == {}
    ensures Swept(s, f) == s
  {
    hide OpenSet, CloseSet, AwaitingSet, UnpaidSet, Do;
  }

  lemma SomethingIsFound(s: State)
    requires Outstanding(s) > 0
    ensures OpenSet(s) + CloseSet(s) + AwaitingSet(s) + UnpaidSet(s) != {}
  {
    hide UnpaidRefunds, AwaitingResult, DueToOpen, DueToClose;
    assert Tokens(s) != {};
    var token :| token in Tokens(s);
    var a := token.0;
    assert Work(s, a) >= 1;
    AwaitingIsKnown(s, a);
    UnpaidIsKnown(s, a);
    assert a in OpenSet(s) || a in CloseSet(s) || a in AwaitingSet(s) || a in UnpaidSet(s);
  }
}
