/**
 * Submissions sent more than once: a key answers for one request, for good,
 * and repeating or failing to place it leaves no trace.
 */
module Retry {
  import opened Common
  import opened Auctions
  import opened Catalog
  import opened BidRules
  import opened Platform
  import opened Bidding
  import opened Invariants
  import opened BiddingKeeps
  import opened Runs
  import opened Records

  // -------------------------------------------------------------------------
  // What identifies a request
  // -------------------------------------------------------------------------

  predicate Sorted(amounts: seq<int>) {
    forall i, j :: 0 <= i < j < |amounts| ==> amounts[i] <= amounts[j]
  }

  lemma {:induction false} InsertAdds(x: int, sorted: seq<int>)
    ensures multiset(Insert(x, sorted)) == multiset(sorted) + multiset{x}
    decreases |sorted|
  {
    if sorted == [] || x <= sorted[0] {
    } else {
      InsertAdds(x, sorted[1..]);
      assert sorted == [sorted[0]] + sorted[1..];
      assert multiset(sorted) == multiset{sorted[0]} + multiset(sorted[1..]);
    }
  }

  lemma {:induction false} InsertKeeps(x: int, sorted: seq<int>)
    requires Sorted(sorted)
    ensures Sorted(Insert(x, sorted))
    decreases |sorted|
  {
    if sorted != [] && x > sorted[0] {
      var rest := Insert(x, sorted[1..]);
      InsertKeeps(x, sorted[1..]);
      InsertAdds(x, sorted[1..]);
      forall i | 0 <= i < |rest|
        ensures sorted[0] <= rest[i]
      {
        assert rest[i] in multiset(rest);
        assert rest[i] == x || rest[i] in sorted[1..];
      }
    }
  }

  lemma {:induction false} SortSorts(amounts: seq<int>)
    ensures Sorted(SortAmounts(amounts)) && multiset(SortAmounts(amounts)) == multiset(amounts)
    decreases |amounts|
  {
    if amounts != [] {
      SortSorts(amounts[1..]);
      InsertKeeps(amounts[0], SortAmounts(amounts[1..]));
      InsertAdds(amounts[0], SortAmounts(amounts[1..]));
      assert amounts == [amounts[0]] + amounts[1..];
    }
  }

  lemma HeadIsLeast(x: seq<int>, v: int)
    requires Sorted(x) && v in multiset(x)
    ensures x[0] <= v
  {
    assert v in x;
  }

  lemma TailMultiset(x: seq<int>)
    requires x != []
    ensures multiset(x[1..]) == multiset(x) - multiset{x[0]}
    ensures x[0] in multiset(x)
  {
    assert x == [x[0]] + x[1..];
    assert x[0] in x;
  }

  lemma SameHead(x: seq<int>, y: seq<int>)
    requires Sorted(x) && Sorted(y) && multiset(x) == multiset(y) && x != [] && y != []
    ensures x[0] == y[0]
    ensures multiset(x[1..]) == multiset(y[1..])
  {
    hide Sorted;
    TailMultiset(x);
    TailMultiset(y);
    HeadIsLeast(x, y[0]);
    HeadIsLeast(y, x[0]);
  }

  lemma {:induction false} SortedIsUnique(x: seq<int>, y: seq<int>)
    requires Sorted(x) && Sorted(y) && multiset(x) == multiset(y)
    ensures x == y
    decreases |x|
  {
    assert |x| == |multiset(x)| == |multiset(y)| == |y|;
    if x != [] {
      SameHead(x, y);
      assert Sorted(x[1..]) && Sorted(y[1..]);
      SortedIsUnique(x[1..], y[1..]);
      assert x == [x[0]] + x[1..] && y == [y[0]] + y[1..];
    }
  }

  predicate SameRequest(x: Submission, y: Submission) {
    x.auction == y.auction && x.user == y.user && multiset(x.amounts) == multiset(y.amounts)
  }

  /** Two submissions share a hash exactly when they name the same amounts, in any order. */
  lemma RequestIgnoresOrder(x: Submission, y: Submission)
    ensures RequestOf(x) == RequestOf(y) <==> SameRequest(x, y)
  {
    SortSorts(x.amounts);
    SortSorts(y.amounts);
    if multiset(x.amounts) == multiset(y.amounts) {
      SortedIsUnique(SortAmounts(x.amounts), SortAmounts(y.amounts));
    }
  }

  // -------------------------------------------------------------------------
  // Retrying an accepted submission
  // -------------------------------------------------------------------------

  lemma SameMembers(x: seq<int>, y: seq<int>)
    requires multiset(x) == multiset(y)
    ensures |x| == |y|
    ensures forall v :: v in x <==> v in y
    ensures Distinct(x) <==> Distinct(y)
  {
    assert |multiset(x)| == |x| && |multiset(y)| == |y|;
    forall v ensures v in x <==> v in y {
      assert v in x <==> v in multiset(x);
      assert v in y <==> v in multiset(y);
    }
    DistinctIsMultiplicity(x);
    DistinctIsMultiplicity(y);
  }

  lemma {:induction false} DistinctIsMultiplicity(x: seq<int>)
    ensures Distinct(x) <==> forall v :: multiset(x)[v] <= 1
    decreases |x|
  {
    if x == [] {
    } else {
      var n := |x| - 1;
      assert x == x[..n] + [x[n]];
      DistinctIsMultiplicity(x[..n]);
      DistinctStep(x[..n], x[n]);
      assert multiset(x) == multiset(x[..n]) + multiset{x[n]};
      assert x[n] in x[..n] <==> multiset(x[..n])[x[n]] >= 1;
      assert forall v :: multiset(x)[v] == multiset(x[..n])[v] + if v == x[n] then 1 else 0;
      if forall v :: multiset(x)[v] <= 1 {
        assert multiset(x)[x[n]] <= 1;
        forall v ensures multiset(x[..n])[v] <= 1 {
          assert multiset(x)[v] <= 1;
        }
      }
    }
  }

  /** The checks before the key depend on the amounts as a set, the terms and the status only. */
  lemma PrecheckSame(s: State, later: State, sub: Submission, again: Submission)
    requires Precheck(s, sub).None? && SameRequest(sub, again)
    requires sub.auction in later.auctions && later.auctions[sub.auction].terms == s.auctions[sub.auction].terms
    ensures Precheck(later, again).None? <==> again.eligible && later.auctions[sub.auction].status == Live
  {
    SameMembers(sub.amounts, again.amounts);
    hide Distinct, OnLadder;
    forall i | 0 <= i < |again.amounts|
      ensures again.amounts[i] > 0
    {
      assert again.amounts[i] in again.amounts;
      assert again.amounts[i] in sub.amounts;
    }
  }

  lemma AnswerIsStored(s: State, sub: Submission)
    requires Inv(s) && Accepts(s, sub)
    ensures Precheck(s, sub).None? && SubmitBids(s, sub).Ok?
    ensures var (s', response) := SubmitBids(s, sub).value;
      && sub.key !in s.keys && sub.key in s'.keys
      && s'.keys[sub.key] == KeyRow(sub.user, RequestOf(sub), Some(response.answer))
      && Seat(sub.auction, sub.user) in s'.participants
      && sub.auction in s.auctions && sub.auction in s'.auctions
      && s'.auctions[sub.auction].terms == s.auctions[sub.auction].terms
      && response.bids == IdRange(response.answer.firstBid, response.answer.count)
  {
    hide Inv, Holds, AlreadyHolds, Distinct, ChargeFee, BatchLadderError, SortAmounts, IdRange;
  }

  /** A stored answer's bids are what the replay reads back by key. */
  lemma AnswerReadsBack(s: State, k: string)
    requires Inv(s) && k in s.keys
    ensures s.keys[k].snapshot.Some?
    ensures var answer := s.keys[k].snapshot.value;
      BidsByKey(s.bids, s.keys[k].request.auction, s.keys[k].user, k) == IdRange(answer.firstBid, answer.count)
  {
    hide Inv, SortAmounts;
    KeyFacts(s, k);
    var answer := s.keys[k].snapshot.value;
    forall i: BidId
      ensures i in BidsByKey(s.bids, s.keys[k].request.auction, s.keys[k].user, k)
         <==> i in IdRange(answer.firstBid, answer.count)
    {
      if 0 <= i < |s.bids| && s.bids[i].key == k {
        assert AtSeat(s.bids[i], Seat(s.keys[k].request.auction, s.keys[k].user));
      }
    }
  }

  lemma ReplayIs(s: State, again: Submission)
    requires Precheck(s, again).None? && again.key in s.keys && s.keys[again.key].snapshot.Some?
    requires s.keys[again.key].user == again.user && s.keys[again.key].request == RequestOf(again)
    ensures SubmitBids(s, again) == Ok((s, Response(
      BidsByKey(s.bids, again.auction, again.user, again.key), s.keys[again.key].snapshot.value, true)))
  {
    hide Precheck, RequestOf, BidsByKey;
  }

  /**
   * Sent again after any continuation of the run, in any order of its amounts, an
   * accepted submission is answered exactly while its auction is live, with the
   * original numbers and the same bids, and changes nothing. After that it is refused.
   */
  lemma RetryReplays(s: State, sub: Submission, steps: seq<Step>, again: Submission)
    requires Reachable(s) && Accepts(s, sub)
    requires again.key == sub.key && SameRequest(sub, again)
    ensures var (s', response) := SubmitBids(s, sub).value;
      var later := Exec(s', steps);
      && sub.auction in later.auctions
      && (SubmitBids(later, again).Ok? <==> again.eligible && later.auctions[sub.auction].status == Live)
      && (SubmitBids(later, again).Ok? ==> SubmitBids(later, again).value == (later, response.(replayed := true)))
  {
    hide Inv, Exec, Next, Reachable, FrozenFrom, Precheck, SubmitBids, RequestOf, Accepts;
    ReachableIsSound(s);
    AnswerIsStored(s, sub);
    SubmitKeeps(s, sub);
    var (s', response) := SubmitBids(s, sub).value;
    var later := Exec(s', steps);
    RunIsPermanent(s', steps);
    RunsAreSound(s', steps);
    RequestIgnoresOrder(sub, again);
    assert Seat(sub.auction, sub.user) in s'.participants;
    PrecheckSame(s, later, sub, again);
    AnswerReadsBack(later, sub.key);
    assert !response.replayed by { AcceptedIsFresh(s, sub); }
    RequestNames(sub);
    if Precheck(later, again).None? {
      ReplayIs(later, again);
    } else {
      RefusedFirst(later, again);
    }
  }

  lemma AcceptedIsFresh(s: State, sub: Submission)
    requires Accepts(s, sub)
    ensures !SubmitBids(s, sub).value.1.replayed
  {
    hide SubmitBids;
  }

  lemma RequestNames(sub: Submission)
    ensures RequestOf(sub).auction == sub.auction && RequestOf(sub).user == sub.user
  {
  }

  lemma RefusedFirst(s: State, sub: Submission)
    requires Precheck(s, sub).Some?
    ensures SubmitBids(s, sub).Err?
  {
    hide Precheck, LockedCheck, ClaimKey, ChargeFee;
  }

  /** A key that answered one request never answers or accepts another, from anyone, in any later state. */
  lemma KeyAnswersOneRequest(s: State, sub: Submission, steps: seq<Step>, other: Submission)
    requires Reachable(s) && Accepts(s, sub)
    requires other.key == sub.key && !SameRequest(sub, other)
    ensures SubmitBids(Exec(SubmitBids(s, sub).value.0, steps), other).Err?
  {
    hide Inv, Exec, Next, Reachable, FrozenFrom, Precheck, SubmitBids, RequestOf, Accepts, SameRequest;
    ReachableIsSound(s);
    AnswerIsStored(s, sub);
    SubmitKeeps(s, sub);
    var s' := SubmitBids(s, sub).value.0;
    RunIsPermanent(s', steps);
    RequestIgnoresOrder(sub, other);
    Conflicts(Exec(s', steps), other);
  }

  lemma Conflicts(s: State, other: Submission)
    requires other.key in s.keys && s.keys[other.key].request != RequestOf(other)
    ensures SubmitBids(s, other).Err?
  {
    hide Precheck, LockedCheck, ChargeFee, RequestOf;
  }

  // -------------------------------------------------------------------------
  // Traces
  // -------------------------------------------------------------------------

  /** The run with every repeated and every refused submission left out. */
  function Essential(s: State, steps: seq<Step>): seq<Step>
    decreases |steps|
  {
    if steps == [] then []
    else if steps[0].Submitted? && !Accepts(s, steps[0].submission) then Essential(s, steps[1..])
    else [steps[0]] + Essential(Next(s, steps[0]), steps[1..])
  }

  /** A refused or replayed submission leaves the state as it was, its key unclaimed. */
  lemma RejectedLeavesNoTrace(s: State, sub: Submission)
    ensures !Accepts(s, sub) ==> Next(s, Submitted(sub)) == s
    ensures sub.key in Next(s, Submitted(sub)).keys <==> sub.key in s.keys || Accepts(s, sub)
  {
    hide Next, Precheck, LockedCheck, ChargeFee, BidsByKey, IdRange;
    NextSubmitted(s, sub);
  }

  /** Every submission kept was accepted where it stands, under a key not used before. */
  ghost predicate AllAccepted(s: State, steps: seq<Step>)
    decreases |steps|
  {
    steps != [] ==>
      && (steps[0].Submitted? ==> Accepts(s, steps[0].submission) && steps[0].submission.key !in s.keys)
      && AllAccepted(Next(s, steps[0]), steps[1..])
  }

  /**
   * Any run ends in the same state as the run without its repeats and refusals,
   * in which every submission is accepted under a fresh key.
   */
  lemma {:induction false} RepeatsAndRefusalsDoNotMatter(s: State, steps: seq<Step>)
    requires Inv(s)
    ensures Exec(s, Essential(s, steps)) == Exec(s, steps)
    ensures AllAccepted(s, Essential(s, steps))
    decreases |steps|
  {
    hide Inv, Next, Accepts, SubmitBids;
    if steps != [] {
      if steps[0].Submitted? && !Accepts(s, steps[0].submission) {
        RejectedLeavesNoTrace(s, steps[0].submission);
        RepeatsAndRefusalsDoNotMatter(s, steps[1..]);
      } else {
        NextKeeps(s, steps[0]);
        RepeatsAndRefusalsDoNotMatter(Next(s, steps[0]), steps[1..]);
        if steps[0].Submitted? {
          AnswerIsStored(s, steps[0].submission);
        }
        var kept := Essential(s, steps);
        assert kept[1..] == Essential(Next(s, steps[0]), steps[1..]);
      }
    }
  }
}
