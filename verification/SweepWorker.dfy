/** The worker's jobs and its sweeper, over the running tables. */
module SweepWorker {
  import opened Common
  import opened Ledger
  import opened Auctions
  import opened Lub
  import opened Platform
  import Lifecycle
  import opened Closing
  import opened Invariants
  import opened ClosingKeeps
  import opened Runs
  import opened Settlement
  import opened Sweep
  import opened Queries
  import opened Recovery
  import opened Services
  import LifecycleServices
  import ResultServices

  // -------------------------------------------------------------------------
  // Jobs
  // -------------------------------------------------------------------------

  /** A job that fires early is not a failure. */
  method RunOpen(e: Engine, a: AuctionId) returns (r: Result<bool>)
    modifies e`auctions, e.inventory
    ensures match Lifecycle.OpenAuction(old(e.Rows()), a)
      case Err(error) => e.Rows() == old(e.Rows()) && r == if error == NotDue then Ok(false) else Err(error)
      case Ok(s') => e.Rows() == s' && r == Ok(s' != old(e.Rows()))
  {
    hide Lifecycle.OpenAuction;
    r := LifecycleServices.Open(e, a);
    if r == Err(NotDue) {
      r := Ok(false);
    }
  }

  method RunDecide(e: Engine, a: AuctionId) returns (r: Result<bool>)
    modifies e, e.inventory, e.wallets
    ensures var s := old(e.Rows());
      match Settlement.CloseAuction(s, a, PayersOf(s, a))
      case Err(error) => r == Err(error)
      case Ok(s') =>
        && e.Rows() == s' && a in s.auctions
        && r == Ok(s.auctions[a].status != Completed && a !in s.results)
  {
    hide Settlement.CloseAuction, PayersOf;
    var outcome := ResultServices.CloseAuction(e, a);
    if outcome.Err? {
      return Err(outcome.error);
    }
    return Ok(outcome.value.decided);
  }

  /** Stop the bidding, then decide; a job that fires early stops after the refusal. */
  method RunClose(e: Engine, a: AuctionId) returns (r: Result<bool>)
    modifies e, e.inventory, e.wallets
    ensures var s := old(e.Rows());
      match Lifecycle.CloseBidding(s, a)
      case Err(error) => e.Rows() == s && r == if error == NotDue then Ok(false) else Err(error)
      case Ok(s1) =>
        match Settlement.CloseAuction(s1, a, PayersOf(s1, a))
        case Err(error) => r == Err(error)
        case Ok(s') =>
          && e.Rows() == s' && a in s1.auctions
          && r == Ok(s1.auctions[a].status != Completed && a !in s1.results)
  {
    hide Settlement.CloseAuction, PayersOf, Lifecycle.CloseBidding;
    var closed := LifecycleServices.Close(e, a);
    if closed == Err(NotDue) {
      return Ok(false);
    }
    if closed.Err? {
      return Err(closed.error);
    }
    r := RunDecide(e, a);
  }

  // -------------------------------------------------------------------------
  // Taking a pass one item at a time
  // -------------------------------------------------------------------------

  lemma {:induction false} DoEachAppend(s: State, job: Job, front: seq<AuctionId>, a: AuctionId)
    ensures DoEach(s, job, front + [a]) == Do(DoEach(s, job, front), job, a)
    decreases |front|
  {
    hide Do;
    if front == [] {
      assert front + [a] == [a] && [a][1..] == [];
    } else {
      assert (front + [a])[1..] == front[1..] + [a];
      DoEachAppend(Do(s, job, front[0]), job, front[1..], a);
    }
  }

  /** Every item is still ready when its turn comes. */
  lemma TurnComes(s: State, job: Job, ids: seq<AuctionId>, k: nat)
    requires Inv(s) && AllReady(s, job, ids) && k < |ids|
    ensures var mid := DoEach(s, job, ids[..k]);
      && Inv(mid) && Ready(mid, job, ids[k])
      && (UnpaidRefunds(mid, ids[k]) <==> UnpaidRefunds(s, ids[k]))
      && DoEach(s, job, ids[..k + 1]) == Do(mid, job, ids[k])
  {
    hide Inv, Do, DoEach, Around, Settled, DueToOpen, DueToClose, AwaitingResult, UnpaidRefunds, Work, Refundable;
    assert AllReady(s, job, ids[..k]);
    PassDone(s, job, ids[..k]);
    assert ids[k] !in ids[..k];
    UntouchedWork(s, DoEach(s, job, ids[..k]), Members(ids[..k]), ids[k]);
    assert ids[..k + 1] == ids[..k] + [ids[k]];
    DoEachAppend(s, job, ids[..k], ids[k]);
  }

  lemma OpenTurn(s: State, a: AuctionId)
    requires Inv(s) && DueToOpen(s, a)
    ensures Lifecycle.OpenAuction(s, a).Ok?
    ensures Do(s, OpenJob, a) == Lifecycle.OpenAuction(s, a).value != s
  {
    hide Inv, Lifecycle.OpenAuction, Around;
    OpenOne(s, a);
  }

  lemma CloseTurn(s: State, a: AuctionId)
    requires Inv(s) && DueToClose(s, a)
    ensures Lifecycle.CloseBidding(s, a).Ok?
    ensures var s1 := Lifecycle.CloseBidding(s, a).value;
      && Settlement.CloseAuction(s1, a, PayersOf(s1, a)).Ok?
      && Do(s, CloseJob, a) == Settlement.CloseAuction(s1, a, PayersOf(s1, a)).value
      && a in s1.auctions && s1.auctions[a].status != Completed && a !in s1.results
  {
    hide Inv, Lifecycle.CloseBidding, Around, Settlement.CloseAuction, Settled, PayersOf;
    CloseOneBidding(s, a);
    var s1 := Lifecycle.CloseBidding(s, a).value;
    SettleOne(s1, a);
    NoResultYet(s1, a);
  }

  lemma DecideTurn(s: State, a: AuctionId)
    requires Inv(s) && AwaitingResult(s, a)
    ensures Settlement.CloseAuction(s, a, PayersOf(s, a)).Ok?
    ensures Do(s, DecideJob, a) == Settlement.CloseAuction(s, a, PayersOf(s, a)).value
    ensures a in s.auctions && s.auctions[a].status != Completed && a !in s.results
  {
    hide Inv, Around, Settlement.CloseAuction, Settled, PayersOf, HasParticipants;
    SettleOne(s, a);
  }

  /** An auction the ledger query reports has someone left to pay, and paying cannot fail. */
  lemma PayTurn(s: State, a: AuctionId)
    requires Inv(s) && UnpaidRefunds(s, a)
    ensures RefundAll(s, a, PayersOf(s, a)).1.None?
    ensures |Owing(s, a, PayersOf(s, a))| > 0
  {
    hide Inv, Around, RefundAll, Settled, Refunded, IsPayer, HasRefundEntry, UnpaidRefunds;
    UnpaidIsOwed(s, a);
    PayOne(s, a);
    var u :| IsPayer(s, a, u) && !Refunded(s, a, u);
    var payers := PayersOf(s, a);
    assert u in payers;
    OwingHas(s, a, payers, u);
  }

  lemma {:induction false} OwingHas(s: State, a: AuctionId, payers: seq<UserId>, u: UserId)
    requires u in payers && !Refunded(s, a, u)
    ensures |Owing(s, a, payers)| > 0
    decreases |payers|
  {
    hide Refunded;
    var front, last := payers[..|payers| - 1], payers[|payers| - 1];
    assert payers == front + [last];
    if u in front {
      OwingHas(s, a, front, u);
    }
  }

  // -------------------------------------------------------------------------
  // The sweeper
  // -------------------------------------------------------------------------

  function Starts(s: State): map<AuctionId, int> {
    map a | a in s.auctions :: s.auctions[a].terms.startsAt
  }

  function Ends(s: State): map<AuctionId, int> {
    map a | a in s.auctions :: s.auctions[a].terms.endsAt
  }

  datatype SweepResult =
    SweepResult(openCount: nat, closed: nat, decided: nat, refunded: nat, examined: nat, failures: int)

  method OpenPass(e: Engine, ids: seq<AuctionId>) returns (openCount: nat, failures: int)
    requires Inv(e.Rows()) && AllReady(e.Rows(), OpenJob, ids)
    modifies e`auctions, e.inventory
    ensures e.Rows() == DoEach(old(e.Rows()), OpenJob, ids)
    ensures openCount == |ids| && failures == 0
  {
    hide Inv, Do, DoEach, AllReady, Lifecycle.OpenAuction, UnpaidRefunds;
    ghost var s := e.Rows();
    openCount, failures := 0, 0;
    assert DoEach(s, OpenJob, ids[..0]) == s by { NothingDone(s, OpenJob, ids[..0]); }
    for k := 0 to |ids|
      invariant e.Rows() == DoEach(s, OpenJob, ids[..k])
      invariant openCount == k && failures == 0
    {
      TurnComes(s, OpenJob, ids, k);
      OpenTurn(e.Rows(), ids[k]);
      var result := RunOpen(e, ids[k]);
      if result.Err? {
        failures := failures + 1;
      } else if result.value {
        openCount := openCount + 1;
      }
    }
    assert ids[..|ids|] == ids;
  }

  lemma NothingDone(s: State, job: Job, ids: seq<AuctionId>)
    requires ids == []
    ensures DoEach(s, job, ids) == s
  {
  }

  method ClosePass(e: Engine, ids: seq<AuctionId>) returns (closed: nat, failures: int)
    requires Inv(e.Rows()) && AllReady(e.Rows(), CloseJob, ids)
    modifies e, e.inventory, e.wallets
    ensures e.Rows() == DoEach(old(e.Rows()), CloseJob, ids)
    ensures closed == |ids| && failures == 0
  {
    hide Inv, Do, DoEach, AllReady, Lifecycle.CloseBidding, Settlement.CloseAuction, PayersOf, UnpaidRefunds;
    ghost var s := e.Rows();
    closed, failures := 0, 0;
    assert DoEach(s, CloseJob, ids[..0]) == s by { NothingDone(s, CloseJob, ids[..0]); }
    for k := 0 to |ids|
      invariant e.Rows() == DoEach(s, CloseJob, ids[..k])
      invariant closed == k && failures == 0
    {
      TurnComes(s, CloseJob, ids, k);
      CloseTurn(e.Rows(), ids[k]);
      var result := RunClose(e, ids[k]);
      if result.Err? {
        failures := failures + 1;
      } else if result.value {
        closed := closed + 1;
      }
    }
    assert ids[..|ids|] == ids;
  }

  method DecidePass(e: Engine, ids: seq<AuctionId>) returns (decided: nat, failures: int)
    requires Inv(e.Rows()) && AllReady(e.Rows(), DecideJob, ids)
    modifies e, e.inventory, e.wallets
    ensures e.Rows() == DoEach(old(e.Rows()), DecideJob, ids)
    ensures decided == |ids| && failures == 0
  {
    hide Inv, Do, DoEach, AllReady, Settlement.CloseAuction, PayersOf, UnpaidRefunds, AwaitingResult;
    ghost var s := e.Rows();
    decided, failures := 0, 0;
    assert DoEach(s, DecideJob, ids[..0]) == s by { NothingDone(s, DecideJob, ids[..0]); }
    for k := 0 to |ids|
      invariant e.Rows() == DoEach(s, DecideJob, ids[..k])
      invariant decided == k && failures == 0
    {
      TurnComes(s, DecideJob, ids, k);
      DecideTurn(e.Rows(), ids[k]);
      var result := RunDecide(e, ids[k]);
      if result.Err? {
        failures := failures + 1;
      } else if result.value {
        decided := decided + 1;
      }
    }
    assert ids[..|ids|] == ids;
  }

  /** Finish the refunds a previous pass did not; a failure on one auction does not stop the others. */
  method SweepOutstandingRefunds(e: Engine, limit: nat) returns (outcomes: seq<RefundOutcome>, ghost ids: seq<AuctionId>)
    requires Inv(e.Rows())
    modifies e.wallets
    ensures Listed(ids, UnpaidSet(old(e.Rows())), limit)
    ensures |ids| <= limit && forall a :: a in ids ==> OwesRefund(old(e.Rows()), a)
    ensures |ids| < limit ==> forall a :: OwesRefund(old(e.Rows()), a) ==> a in ids
    ensures e.Rows() == DoEach(old(e.Rows()), PayJob, ids)
    ensures |outcomes| == |ids| && forall i :: 0 <= i < |outcomes| ==> outcomes[i].refunded > 0
  {
    hide Inv, Do, DoEach, PayersOf, UnpaidRefunds, RefundAll, Owing, Refundable;
    ghost var s := e.Rows();
    var due := UnpaidSet(e.Rows());
    var auctionIds := Earliest(due, map a | a in due :: a, limit);
    ids := auctionIds;
    ShortListIsWhole(ids, due, limit);
    UnpaidInColumns(s);
    forall i | 0 <= i < |ids| ensures Ready(s, PayJob, ids[i]) && UnpaidRefunds(s, ids[i]) {
      assert ids[i] in due;
      UnpaidIsRefundable(s, ids[i]);
    }
    outcomes := [];
    assert DoEach(s, PayJob, ids[..0]) == s by { NothingDone(s, PayJob, ids[..0]); }
    for k := 0 to |auctionIds|
      invariant e.Rows() == DoEach(s, PayJob, ids[..k])
      invariant e.Rows() == s.(accounts := e.wallets.accounts)
      invariant |outcomes| == k && forall i :: 0 <= i < k ==> outcomes[i].refunded > 0
    {
      TurnComes(s, PayJob, ids, k);
      PayTurn(e.Rows(), ids[k]);
      DoPays(e.Rows(), ids[k]);
      var outcome := ResultServices.RefundParticipationFees(e, auctionIds[k]);
      if outcome.Ok? {
        outcomes := outcomes + [outcome.value];
      }
    }
    assert ids[..|ids|] == ids;
  }

  lemma DoPays(s: State, a: AuctionId)
    ensures Do(s, PayJob, a) == RefundAll(s, a, PayersOf(s, a)).0
  {
  }

  lemma UnpaidIsRefundable(s: State, a: AuctionId)
    ensures UnpaidRefunds(s, a) ==> Refundable(s, a)
  {
  }

  /**
   * One sweep. In a sound database nothing it tries is refused: it does exactly
   * the four passes over what its queries found, and counts every item as done.
   */
  method RunSweep(e: Engine) returns (out: SweepResult, ghost f: Findings)
    requires Inv(e.Rows())
    modifies e, e.inventory, e.wallets
    ensures Found(old(e.Rows()), f, SWEEP_BATCH)
    ensures e.Rows() == Swept(old(e.Rows()), f)
    ensures out == SweepResult(|f.opens|, |f.closes|, |f.awaiting|, |f.unpaid|,
                               |f.opens| + |f.closes| + |f.awaiting| + |f.unpaid|, 0)
    ensures var s, s' := old(e.Rows()), e.Rows();
      |set a | a in s.auctions && s.auctions[a].status == Scheduled && s.auctions[a].terms.startsAt <= s.now| <= 100 ==>
        forall a :: a in s.auctions && s.auctions[a].status == Scheduled && s.auctions[a].terms.startsAt <= s.now ==>
          a in s'.auctions && (s'.auctions[a].status == Live || s'.auctions[a].status == Cancelled)
    ensures var s, s' := old(e.Rows()), e.Rows();
      |set a | a in s.auctions && s.auctions[a].status == Live && s.auctions[a].terms.endsAt <= s.now| <= 100 ==>
        forall a :: a in s.auctions && s.auctions[a].status == Live && s.auctions[a].terms.endsAt <= s.now ==>
          a in s'.auctions && s'.auctions[a].status == Completed && NobodyOwed(s', a)
  {
    hide Inv, DoEach, OpenSet, CloseSet, AwaitingSet, UnpaidSet, Listed, AllReady;
    ghost var s := e.Rows();
    var dueToOpen := FindDueToOpen(e, SWEEP_BATCH);
    var dueToClose := FindDueToClose(e, SWEEP_BATCH);
    f := Findings(dueToOpen, dueToClose, [], []);
    ListedReady(s, dueToOpen, SWEEP_BATCH);
    ClosesStayReady(s, f, SWEEP_BATCH);
    var openCount, failedToOpen := OpenPass(e, dueToOpen);
    var closed, failedToClose := ClosePass(e, dueToClose);
    assert e.Rows() == AfterCloses(s, f);
    var awaiting := FindAuctionsAwaitingResult(e, SWEEP_BATCH);
    ListedReady(e.Rows(), awaiting, SWEEP_BATCH);
    ghost var s2 := e.Rows();
    DecidesKeep(s2, awaiting);
    var decided, failedToDecide := DecidePass(e, awaiting);
    var passes, unpaid := SweepOutstandingRefunds(e, SWEEP_BATCH);
    f := Findings(dueToOpen, dueToClose, awaiting, unpaid);
    assert AfterDecides(s, f) == DoEach(s2, DecideJob, awaiting);
    var refunded := 0;
    for k := 0 to |passes|
      invariant refunded == k
    {
      if passes[k].refunded > 0 {
        refunded := refunded + 1;
      }
    }
    out := SweepResult(
      openCount, closed, decided, refunded,
      |dueToOpen| + |dueToClose| + |awaiting| + |passes|,
      failedToOpen + failedToClose + failedToDecide);
    SmallBacklogsAreWorkedOff(s, f);
  }

  lemma SmallBacklogsAreWorkedOff(s: State, f: Findings)
    requires Inv(s) && Found(s, f, 100)
    ensures |set a | a in s.auctions && s.auctions[a].status == Scheduled && s.auctions[a].terms.startsAt <= s.now| <= 100 ==>
      forall a :: a in s.auctions && s.auctions[a].status == Scheduled && s.auctions[a].terms.startsAt <= s.now ==>
        a in Swept(s, f).auctions
        && (Swept(s, f).auctions[a].status == Live || Swept(s, f).auctions[a].status == Cancelled)
    ensures |set a | a in s.auctions && s.auctions[a].status == Live && s.auctions[a].terms.endsAt <= s.now| <= 100 ==>
      forall a :: a in s.auctions && s.auctions[a].status == Live && s.auctions[a].terms.endsAt <= s.now ==>
        a in Swept(s, f).auctions && Swept(s, f).auctions[a].status == Completed && NobodyOwed(Swept(s, f), a)
  {
    hide Inv, Found, Swept, NobodyOwed;
    if |set a | a in s.auctions && s.auctions[a].status == Scheduled && s.auctions[a].terms.startsAt <= s.now| <= 100 {
      forall a | a in s.auctions && s.auctions[a].status == Scheduled && s.auctions[a].terms.startsAt <= s.now
        ensures a in Swept(s, f).auctions
                && (Swept(s, f).auctions[a].status == Live || Swept(s, f).auctions[a].status == Cancelled)
      {
        OpenedWhenListed(s, f, 100, a);
      }
    }
    if |set a | a in s.auctions && s.auctions[a].status == Live && s.auctions[a].terms.endsAt <= s.now| <= 100 {
      forall a | a in s.auctions && s.auctions[a].status == Live && s.auctions[a].terms.endsAt <= s.now
        ensures a in Swept(s, f).auctions && Swept(s, f).auctions[a].status == Completed && NobodyOwed(Swept(s, f), a)
      {
        CompletedWhenListed(s, f, 100, a);
      }
    }
  }

  lemma DecidesKeep(s: State, ids: seq<AuctionId>)
    requires Inv(s) && AllReady(s, DecideJob, ids)
    ensures Inv(DoEach(s, DecideJob, ids))
  {
    hide Inv, Around, Work, Settled, AwaitingResult, DoEach;
    PassDone(s, DecideJob, ids);
  }

  /** A list shorter than its limit leaves nothing out. */
  lemma ShortListIsWhole(ids: seq<AuctionId>, due: set<AuctionId>, limit: nat)
    requires Listed(ids, due, limit)
    ensures |ids| <= limit
    ensures |ids| < limit ==> forall a :: a in due ==> a in ids
  {
    if |ids| < limit {
      ListsEverything(ids, due);
    }
  }

  /** Scheduled auctions whose start has come, earliest start first, whole if shorter than the limit. */
  method FindDueToOpen(e: Engine, limit: nat) returns (ids: seq<AuctionId>)
    ensures Listed(ids, OpenSet(e.Rows()), limit)
    ensures |ids| <= limit && forall i, j :: 0 <= i < j < |ids| ==> ids[i] != ids[j]
    ensures forall a :: a in ids ==>
      a in e.auctions && e.auctions[a].status == Scheduled && e.auctions[a].terms.startsAt <= e.now
    ensures forall i, j :: 0 <= i < j < |ids| ==>
      e.auctions[ids[i]].terms.startsAt <= e.auctions[ids[j]].terms.startsAt
    ensures forall a :: a in e.auctions && e.auctions[a].status == Scheduled && e.auctions[a].terms.startsAt <= e.now ==>
      a in ids
      || (|ids| == limit && forall i :: 0 <= i < |ids| ==>
            e.auctions[ids[i]].terms.startsAt <= e.auctions[a].terms.startsAt)
  {
    var due := OpenSet(e.Rows());
    ids := Earliest(due, Starts(e.Rows()), limit);
    ShortListIsWhole(ids, due, limit);
    DueInColumns(e.Rows());
    forall a | a in ids ensures a in due {}
  }

  /** Live auctions past their deadline, earliest deadline first, whole if shorter than the limit. */
  method FindDueToClose(e: Engine, limit: nat) returns (ids: seq<AuctionId>)
    ensures Listed(ids, CloseSet(e.Rows()), limit)
    ensures |ids| <= limit && forall i, j :: 0 <= i < j < |ids| ==> ids[i] != ids[j]
    ensures forall a :: a in ids ==>
      a in e.auctions && e.auctions[a].status == Live && e.auctions[a].terms.endsAt <= e.now
    ensures forall i, j :: 0 <= i < j < |ids| ==>
      e.auctions[ids[i]].terms.endsAt <= e.auctions[ids[j]].terms.endsAt
    ensures forall a :: a in e.auctions && e.auctions[a].status == Live && e.auctions[a].terms.endsAt <= e.now ==>
      a in ids
      || (|ids| == limit && forall i :: 0 <= i < |ids| ==>
            e.auctions[ids[i]].terms.endsAt <= e.auctions[a].terms.endsAt)
  {
    var due := CloseSet(e.Rows());
    ids := Earliest(due, Ends(e.Rows()), limit);
    ShortListIsWhole(ids, due, limit);
    DueInColumns(e.Rows());
    forall a | a in ids ensures a in due {}
  }

  /** Auctions past bidding with no result, earliest deadline first, whole if shorter than the limit. */
  method FindAuctionsAwaitingResult(e: Engine, limit: nat) returns (ids: seq<AuctionId>)
    ensures Listed(ids, AwaitingSet(e.Rows()), limit)
    ensures |ids| <= limit && forall i, j :: 0 <= i < j < |ids| ==> ids[i] != ids[j]
    ensures forall a :: a in ids ==> PastBiddingUndecided(e.Rows(), a)
    ensures forall i, j :: 0 <= i < j < |ids| ==>
      e.auctions[ids[i]].terms.endsAt <= e.auctions[ids[j]].terms.endsAt
    ensures forall a :: PastBiddingUndecided(e.Rows(), a) ==>
      a in ids
      || (|ids| == limit && forall i :: 0 <= i < |ids| ==>
            e.auctions[ids[i]].terms.endsAt <= e.auctions[a].terms.endsAt)
  {
    hide AwaitingResult;
    var due := AwaitingSet(e.Rows());
    ids := Earliest(due, Ends(e.Rows()), limit);
    ShortListIsWhole(ids, due, limit);
    AwaitingInColumns(e.Rows());
    forall a | a in ids ensures a in due {}
  }
}
