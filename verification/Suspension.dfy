/** Suspending and resuming, over whole runs: what was interrupted is what comes back. */
module Suspension {
  import opened Common
  import opened Ledger
  import opened Auctions
  import opened Catalog
  import opened Platform
  import opened Lifecycle
  import opened Bidding
  import opened Closing
  import opened Invariants
  import opened LifecycleKeeps
  import opened BiddingKeeps
  import opened ClosingKeeps
  import opened Runs

  /** Suspending and resuming at once changes nothing at all. */
  lemma SuspendThenResume(s: State, a: AuctionId)
    requires Reachable(s) && a in s.auctions
    requires s.auctions[a].status in {PendingApproval, Scheduled, Live}
    ensures SuspendAuction(s, a).Ok?
    ensures var paused := SuspendAuction(s, a).value;
      && a in paused.auctions && paused.auctions[a].status == Suspended
      && ResumeAuction(paused, a).Ok? && ResumeAuction(paused, a).value == s
  {
    hide Reachable, Inv, Holds, StockSound, ValidConfig;
    ReachableIsSound(s);
    Here(s, a);
    var paused := SuspendAuction(s, a).value;
    assert ResumeAuction(paused, a).value.auctions == s.auctions;
  }

  // -------------------------------------------------------------------------
  // One step
  // -------------------------------------------------------------------------

  /** How an auction can be found suspended: it was, and nothing touched it; or it was just suspended. */
  predicate SuspendedBy(s: State, step: Step, a: AuctionId, row: Auction) {
    && a in s.auctions
    && (|| s.auctions[a] == row
        || (step == Paused(a)
            && s.auctions[a].status in {PendingApproval, Scheduled, Live}
            && row == s.auctions[a].(status := Suspended, suspendedFrom := Some(s.auctions[a].status))))
  }

  /** What a status change does to the one row it addresses, as far as suspension goes. */
  predicate Moved(s: State, s': State, step: Step, b: AuctionId) {
    || s'.auctions == s.auctions
    || (&& b in s.auctions && b in s'.auctions
        && s'.auctions == s.auctions[b := s'.auctions[b]]
        && (s.auctions[b].status == Suspended ==> step == Resumed(b) || step == Pulled(b))
        && (s'.auctions[b].status == Suspended ==>
              && step == Paused(b)
              && s.auctions[b].status in {PendingApproval, Scheduled, Live}
              && s'.auctions[b]
                 == s.auctions[b].(status := Suspended, suspendedFrom := Some(s.auctions[b].status))))
  }

  lemma ReviewMoved(s: State, b: AuctionId, action: Action)
    requires PlainTransition(s, b, action).Ok? && action in {Submit, Approve, Reject}
    ensures Moved(s, PlainTransition(s, b, action).value, Reviewed(b, action), b)
  {
    hide Reserve, Release;
  }

  lemma OpenMoved(s: State, b: AuctionId)
    requires OpenAuction(s, b).Ok?
    ensures Moved(s, OpenAuction(s, b).value, Opened(b), b)
  {
    hide Reserve, Release;
  }

  lemma CloseMoved(s: State, b: AuctionId)
    requires CloseBidding(s, b).Ok?
    ensures Moved(s, CloseBidding(s, b).value, BiddingClosed(b), b)
  {
    hide Reserve, Release;
  }

  lemma PauseMoved(s: State, b: AuctionId)
    requires SuspendAuction(s, b).Ok?
    ensures Moved(s, SuspendAuction(s, b).value, Paused(b), b)
  {
    hide Reserve, Release;
  }

  lemma PullMoved(s: State, b: AuctionId)
    requires CancelAuction(s, b).Ok?
    ensures Moved(s, CancelAuction(s, b).value, Pulled(b), b)
  {
    hide Reserve, Release;
  }

  lemma BeginMoved(s: State, b: AuctionId)
    requires BeginResult(s, b).Ok?
    ensures Moved(s, BeginResult(s, b).value, ResultBegun(b), b)
  {
    hide Reserve, Release;
  }

  lemma ResumeMoved(s: State, b: AuctionId)
    requires Inv(s) && ResumeAuction(s, b).Ok?
    ensures Moved(s, ResumeAuction(s, b).value, Resumed(b), b)
  {
    hide Inv, Holds, StockSound, ValidConfig;
    Here(s, b);
  }

  lemma StatusMoved(s: State, step: Step)
    requires Inv(s) && IsStatusStep(step)
    ensures Moved(s, Next(s, step), step, step.auction)
  {
    hide Inv, Moved, OpenAuction, CloseBidding, SuspendAuction, CancelAuction, BeginResult, PlainTransition, ResumeAuction;
    var b := step.auction;
    NotMoved(s, step);
    match step
    case Reviewed(_, action) =>
      if action in {Submit, Approve, Reject} && PlainTransition(s, b, action).Ok? { ReviewMoved(s, b, action); }
    case Opened(_) => if OpenAuction(s, b).Ok? { OpenMoved(s, b); }
    case BiddingClosed(_) => if CloseBidding(s, b).Ok? { CloseMoved(s, b); }
    case Paused(_) => if SuspendAuction(s, b).Ok? { PauseMoved(s, b); }
    case Resumed(_) => if ResumeAuction(s, b).Ok? { ResumeMoved(s, b); }
    case Pulled(_) => if CancelAuction(s, b).Ok? { PullMoved(s, b); }
    case ResultBegun(_) => if BeginResult(s, b).Ok? { BeginMoved(s, b); }
  }

  lemma NotMoved(s: State, step: Step)
    requires IsStatusStep(step)
    ensures Moved(s, s, step, step.auction)
  {
  }

  lemma SuspendedByStatus(s: State, step: Step, a: AuctionId)
    requires Inv(s) && IsStatusStep(step)
    requires a in Next(s, step).auctions && Next(s, step).auctions[a].status == Suspended
    ensures SuspendedBy(s, step, a, Next(s, step).auctions[a])
  {
    hide Inv, Next;
    StatusMoved(s, step);
  }

  lemma CreatedOrEdited(s: State)
    ensures forall b, p, currency, terms :: Next(s, Created(b, p, currency, terms))
              == Committed(s, CreateAuction(s, b, p, currency, terms))
    ensures forall b, terms :: Next(s, Edited(b, terms)) == Committed(s, UpdateTerms(s, b, terms))
  {
    hide CreateAuction, UpdateTerms;
  }

  lemma SuspendedByCatalog(s: State, step: Step, a: AuctionId)
    requires step.Created? || step.Edited?
    requires a in Next(s, step).auctions && Next(s, step).auctions[a].status == Suspended
    ensures SuspendedBy(s, step, a, Next(s, step).auctions[a])
  {
    hide ValidConfig, CommittedAuctions, Next;
    CreatedOrEdited(s);
  }

  lemma SuspendedBySubmission(s: State, sub: Submission, a: AuctionId)
    requires a in Next(s, Submitted(sub)).auctions && Next(s, Submitted(sub)).auctions[a].status == Suspended
    ensures SuspendedBy(s, Submitted(sub), a, Next(s, Submitted(sub)).auctions[a])
  {
    NextSubmitted(s, sub);
    hide Next, SubmitBids, Accepts, Holds, AlreadyHolds, ChargeFee;
    if Accepts(s, sub) {
      var charge := AcceptedPassed(s, sub);
    }
  }

  lemma SuspendedByDecision(s: State, b: AuctionId, a: AuctionId)
    requires Inv(s) && Decide(s, b).Ok?
    requires a in Decide(s, b).value.auctions && Decide(s, b).value.auctions[a].status == Suspended
    ensures a in s.auctions && s.auctions[a] == Decide(s, b).value.auctions[a]
  {
    assert b in s.auctions && (b in s.results || s.auctions[b].status in {Calculating, Cancelled}) by {
      hide Inv, Decide;
      assert ResultsSound(s.auctions, s.bids, s.results) by { ResultsOf(s); }
      DecideCases(s, b);
    }
    hide Inv, Decide, ComputedResult, Released, OrderOf;
    if b in s.results {
      DecideAgain(s, b);
    } else {
      DecideFirst(s, b);
    }
  }

  lemma ResultsOf(s: State)
    requires Inv(s)
    ensures ResultsSound(s.auctions, s.bids, s.results)
  {
    hide ResultsSound;
  }

  lemma NextDecided(s: State, b: AuctionId)
    ensures Next(s, ResultDecided(b)) == Committed(s, Decide(s, b))
  {
    hide Decide;
  }

  lemma SuspendedByMoney(s: State, step: Step)
    requires step.FeeReturned? || step.Moved? || step.FrozenSet? || step.Tick? || step.Stocked? || step.Restocked?
    ensures Next(s, step).auctions == s.auctions
  {
    hide Posted, Refundable, IsPayer, AddProduct, SetStock;
  }

  /** No other transaction suspends an auction or touches one that is suspended without lifting it. */
  lemma SuspendedStep(s: State, step: Step, a: AuctionId)
    requires Inv(s) && a in Next(s, step).auctions && Next(s, step).auctions[a].status == Suspended
    ensures SuspendedBy(s, step, a, Next(s, step).auctions[a])
  {
    hide Inv, Next, Decide;
    if IsStatusStep(step) {
      SuspendedByStatus(s, step, a);
    } else if step.Created? || step.Edited? {
      SuspendedByCatalog(s, step, a);
    } else if step.Submitted? {
      SuspendedBySubmission(s, step.submission, a);
    } else if step.ResultDecided? {
      NextDecided(s, step.auction);
      if Decide(s, step.auction).Ok? {
        SuspendedByDecision(s, step.auction, a);
      }
    } else {
      SuspendedByMoney(s, step);
    }
  }

  // -------------------------------------------------------------------------
  // Any continuation
  // -------------------------------------------------------------------------

  /** Step `k` suspended the auction from the status `row` will be restored to. */
  ghost predicate SuspendedAt(s: State, steps: seq<Step>, a: AuctionId, k: nat, row: Auction)
    requires k < |steps|
  {
    var before := Exec(s, steps[..k]);
    && steps[k] == Paused(a)
    && a in before.auctions
    && before.auctions[a].status in {PendingApproval, Scheduled, Live}
    && row == before.auctions[a].(status := Suspended, suspendedFrom := Some(before.auctions[a].status))
  }

  lemma {:induction false} LastSuspension(s: State, steps: seq<Step>, a: AuctionId) returns (k: nat)
    requires Inv(s) && (a in s.auctions ==> s.auctions[a].status != Suspended)
    requires a in Exec(s, steps).auctions && Exec(s, steps).auctions[a].status == Suspended
    ensures k < |steps| && SuspendedAt(s, steps, a, k, Exec(s, steps).auctions[a])
    decreases |steps|
  {
    hide Inv, Next;
    var n := |steps| - 1;
    var front, last := steps[..n], steps[n];
    var before := Exec(s, front);
    assert steps == front + [last];
    ExecConcat(s, front, [last]);
    assert Exec(before, [last]) == Exec(Next(before, last), []);
    RunsAreSound(s, front);
    SuspendedStep(before, last, a);
    if before.auctions[a] == Exec(s, steps).auctions[a] {
      k := LastSuspension(s, front, a);
      assert front[..k] == steps[..k];
    } else {
      k := n;
    }
  }

  /**
   * However a run leaves an auction suspended, resuming it restores exactly the
   * row it had when it was last suspended, status and all.
   */
  lemma ResumeRestoresWhatWasInterrupted(s: State, steps: seq<Step>, a: AuctionId) returns (k: nat)
    requires Reachable(s) && a in s.auctions && s.auctions[a].status != Suspended
    requires a in Exec(s, steps).auctions && Exec(s, steps).auctions[a].status == Suspended
    ensures k < |steps| && steps[k] == Paused(a)
    ensures var before, later := Exec(s, steps[..k]), Exec(s, steps);
      && a in before.auctions && before.auctions[a].status in {PendingApproval, Scheduled, Live}
      && ResumeAuction(later, a) == Ok(SetAuction(later, a, before.auctions[a]))
  {
    hide Inv, Next, Reachable, Holds, StockSound, ValidConfig, Exec;
    ReachableIsSound(s);
    k := LastSuspension(s, steps, a);
    ReachableOn(s, steps[..k]);
    ReachableIsSound(Exec(s, steps[..k]));
    Here(Exec(s, steps[..k]), a);
  }

  /** In particular, whatever runs between a suspension and the next resume, the auction comes back as it was. */
  lemma SuspensionIsInert(s: State, a: AuctionId, steps: seq<Step>)
    requires Reachable(s) && a in s.auctions
    requires s.auctions[a].status in {PendingApproval, Scheduled, Live}
    requires forall i :: 0 <= i < |steps| ==> steps[i] != Resumed(a) && steps[i] != Pulled(a)
    ensures SuspendAuction(s, a).Ok?
    ensures var later := Exec(SuspendAuction(s, a).value, steps);
      && a in later.auctions && later.auctions[a].status == Suspended
      && ResumeAuction(later, a) == Ok(SetAuction(later, a, s.auctions[a]))
  {
    hide Inv, Next, Reachable, Holds, StockSound, ValidConfig, Exec;
    ReachableIsSound(s);
    Here(s, a);
    SuspendKeeps(s, a);
    StaysSuspended(SuspendAuction(s, a).value, a, steps);
  }

  lemma {:induction false} StaysSuspended(s: State, a: AuctionId, steps: seq<Step>)
    requires Inv(s) && a in s.auctions && s.auctions[a].status == Suspended
    requires forall i :: 0 <= i < |steps| ==> steps[i] != Resumed(a) && steps[i] != Pulled(a)
    ensures a in Exec(s, steps).auctions && Exec(s, steps).auctions[a] == s.auctions[a]
    decreases |steps|
  {
    hide Inv, Next;
    if steps != [] {
      SuspendedIsLeftAlone(s, a, steps[0]);
      NextKeeps(s, steps[0]);
      StaysSuspended(Next(s, steps[0]), a, steps[1..]);
    }
  }

  lemma LeftAloneByStatus(s: State, a: AuctionId, step: Step)
    requires Inv(s) && a in s.auctions && s.auctions[a].status == Suspended
    requires IsStatusStep(step) && step != Resumed(a) && step != Pulled(a)
    ensures a in Next(s, step).auctions && Next(s, step).auctions[a] == s.auctions[a]
  {
    hide Inv, Next;
    StatusMoved(s, step);
  }

  lemma LeftAloneByCatalog(s: State, a: AuctionId, step: Step)
    requires a in s.auctions && s.auctions[a].status == Suspended && (step.Created? || step.Edited?)
    ensures a in Next(s, step).auctions && Next(s, step).auctions[a] == s.auctions[a]
  {
    hide ValidConfig, CommittedAuctions;
  }

  lemma LeftAloneBySubmission(s: State, a: AuctionId, sub: Submission)
    requires a in s.auctions && s.auctions[a].status == Suspended
    ensures a in Next(s, Submitted(sub)).auctions && Next(s, Submitted(sub)).auctions[a] == s.auctions[a]
  {
    NextSubmitted(s, sub);
    hide Next, SubmitBids, Accepts, Holds, AlreadyHolds, ChargeFee;
    if Accepts(s, sub) {
      var charge := AcceptedPassed(s, sub);
    }
  }

  lemma LeftAloneByDecision(s: State, a: AuctionId, b: AuctionId)
    requires Inv(s) && a in s.auctions && s.auctions[a].status == Suspended && Decide(s, b).Ok?
    ensures a in Decide(s, b).value.auctions && Decide(s, b).value.auctions[a] == s.auctions[a]
  {
    assert b in s.auctions && (b in s.results || s.auctions[b].status in {Calculating, Cancelled}) by {
      hide Inv, Decide;
      assert ResultsSound(s.auctions, s.bids, s.results) by { ResultsOf(s); }
      DecideCases(s, b);
    }
    hide Inv, Decide, ComputedResult, Released, OrderOf;
    if b in s.results {
      DecideAgain(s, b);
    } else {
      DecideFirst(s, b);
    }
  }

  lemma SuspendedIsLeftAlone(s: State, a: AuctionId, step: Step)
    requires Inv(s) && a in s.auctions && s.auctions[a].status == Suspended
    requires step != Resumed(a) && step != Pulled(a)
    ensures a in Next(s, step).auctions && Next(s, step).auctions[a] == s.auctions[a]
  {
    hide Inv, Next, Decide;
    if IsStatusStep(step) {
      LeftAloneByStatus(s, a, step);
    } else if step.Created? || step.Edited? {
      LeftAloneByCatalog(s, a, step);
    } else if step.Submitted? {
      LeftAloneBySubmission(s, a, step.submission);
    } else if step.ResultDecided? {
      NextDecided(s, step.auction);
      if Decide(s, step.auction).Ok? {
        LeftAloneByDecision(s, a, step.auction);
      }
    } else {
      SuspendedByMoney(s, step);
    }
  }
}
