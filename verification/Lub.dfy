/**
 * LUB_V1: the winner is the lowest amount at which exactly one valid bid was
 * placed. The rule is a function of the auction's valid bids, one line a bid.
 */
module Lub {
  import opened Common

  /** A valid bid as it enters the winner query and the checksum. */
  datatype Line = Line(id: BidId, user: UserId, amountMinor: int)

  /** `count(*)` of the group at one amount. */
  function CountAt(lines: seq<Line>, amount: int): nat {
    if lines == [] then 0
    else CountAt(lines[..|lines| - 1], amount) + if lines[|lines| - 1].amountMinor == amount then 1 else 0
  }

  function Amounts(lines: seq<Line>): set<int> {
    set l | l in lines :: l.amountMinor
  }

  /** The groups that survive `HAVING count(*) = 1`. */
  function UniqueAmounts(lines: seq<Line>): set<int> {
    set amount | amount in Amounts(lines) && CountAt(lines, amount) == 1
  }

  /** `ORDER BY amount_minor ASC LIMIT 1` over the surviving groups, scanning `lines`. */
  function LowestUnique(all: seq<Line>, lines: seq<Line>): Option<int> {
    if lines == [] then None
    else
      var best := LowestUnique(all, lines[..|lines| - 1]);
      var amount := lines[|lines| - 1].amountMinor;
      if CountAt(all, amount) != 1 then best
      else if best.Some? && best.value <= amount then best
      else Some(amount)
  }

  /** The outer join: every bid sitting at the chosen amount. */
  function RowsAt(lines: seq<Line>, amount: int): seq<Line> {
    if lines == [] then []
    else
      var last := lines[|lines| - 1];
      RowsAt(lines[..|lines| - 1], amount) + if last.amountMinor == amount then [last] else []
  }

  /** The winning bid, or nobody. */
  function Winner(lines: seq<Line>): Option<Line> {
    var lowest := LowestUnique(lines, lines);
    if lowest.None? then None
    else
      var rows := RowsAt(lines, lowest.value);
      if rows == [] then None else Some(rows[0])
  }

  /** The published rule, stated without the query. */
  predicate Wins(lines: seq<Line>, w: Line) {
    && w in lines
    && CountAt(lines, w.amountMinor) == 1
    && forall l :: l in lines && CountAt(lines, l.amountMinor) == 1 ==> w.amountMinor <= l.amountMinor
  }

  // -------------------------------------------------------------------------
  // The query computes the rule
  // -------------------------------------------------------------------------

  lemma CountIsRows(lines: seq<Line>, amount: int)
    ensures CountAt(lines, amount) == |RowsAt(lines, amount)|
    ensures forall l :: l in RowsAt(lines, amount) <==> l in lines && l.amountMinor == amount
    ensures amount in Amounts(lines) <==> CountAt(lines, amount) > 0
  {
    if lines != [] {
      var front, last := lines[..|lines| - 1], lines[|lines| - 1];
      CountIsRows(front, amount);
      assert lines == front + [last];
      assert forall l :: l in lines <==> l in front || l == last;
      assert Amounts(lines) == Amounts(front) + {last.amountMinor};
    }
  }

  /** At an amount with a single bid there is a single bidder to pick. */
  lemma LonelyRow(lines: seq<Line>, l: Line)
    requires l in lines && CountAt(lines, l.amountMinor) == 1
    ensures RowsAt(lines, l.amountMinor) == [l]
    ensures l.amountMinor in UniqueAmounts(lines)
  {
    CountIsRows(lines, l.amountMinor);
    assert l in RowsAt(lines, l.amountMinor);
  }

  lemma LowestUniqueFound(all: seq<Line>, lines: seq<Line>)
    ensures var r := LowestUnique(all, lines);
      && (r.Some? ==> CountAt(all, r.value) == 1 && exists l :: l in lines && l.amountMinor == r.value)
      && (forall l :: l in lines && CountAt(all, l.amountMinor) == 1 ==> r.Some? && r.value <= l.amountMinor)
  {
    if lines != [] {
      var front, last := lines[..|lines| - 1], lines[|lines| - 1];
      LowestUniqueFound(all, front);
      assert lines == front + [last];
      assert last in lines;
    }
  }

  lemma WinnerIsLowestUnique(lines: seq<Line>, w: Line)
    ensures Winner(lines) == Some(w) <==> Wins(lines, w)
    ensures Winner(lines).None? <==> forall l :: l in lines ==> CountAt(lines, l.amountMinor) != 1
  {
    LowestUniqueFound(lines, lines);
    var lowest := LowestUnique(lines, lines);
    if lowest.Some? {
      var row :| row in lines && row.amountMinor == lowest.value;
      LonelyRow(lines, row);
      if Wins(lines, w) {
        LonelyRow(lines, w);
      }
    }
  }

  /** Nobody wins exactly when no amount stands alone. */
  lemma NobodyWins(lines: seq<Line>)
    ensures Winner(lines).None? <==> UniqueAmounts(lines) == {}
  {
    LowestUniqueFound(lines, lines);
    WinnerIsLowestUnique(lines, Line(0, 0, 0));
    forall l | l in lines && CountAt(lines, l.amountMinor) == 1
      ensures l.amountMinor in UniqueAmounts(lines)
    {
      LonelyRow(lines, l);
    }
  }

  // -------------------------------------------------------------------------
  // The order of the rows decides nothing
  // -------------------------------------------------------------------------

  lemma CountConcat(a: seq<Line>, b: seq<Line>, amount: int)
    ensures CountAt(a + b, amount) == CountAt(a, amount) + CountAt(b, amount)
  {
    if b == [] {
      assert a + b == a;
    } else {
      CountConcat(a, b[..|b| - 1], amount);
      assert (a + b)[..|a + b| - 1] == a + b[..|b| - 1];
    }
  }

  lemma WithoutOne(b: seq<Line>, i: nat, amount: int)
    requires i < |b|
    ensures var rest := b[..i] + b[i + 1..];
      && multiset(b) == multiset(rest) + multiset{b[i]}
      && CountAt(b, amount) == CountAt(rest, amount) + CountAt([b[i]], amount)
  {
    assert b == b[..i] + [b[i]] + b[i + 1..];
    CountConcat(b[..i] + [b[i]], b[i + 1..], amount);
    CountConcat(b[..i], [b[i]], amount);
    CountConcat(b[..i], b[i + 1..], amount);
  }

  lemma {:induction false} CountPermuted(a: seq<Line>, b: seq<Line>, amount: int)
    requires multiset(a) == multiset(b)
    ensures CountAt(a, amount) == CountAt(b, amount)
    decreases |a|
  {
    if a == [] {
      assert |multiset(b)| == 0;
    } else {
      var n := |a| - 1;
      assert a[n] in multiset(b);
      var i :| 0 <= i < |b| && b[i] == a[n];
      WithoutOne(a, n, amount);
      WithoutOne(b, i, amount);
      var restA, restB := a[..n] + a[n + 1..], b[..i] + b[i + 1..];
      assert multiset(restA) == multiset(a) - multiset{a[n]} == multiset(restB);
      CountPermuted(restA, restB, amount);
    }
  }

  lemma WinnerIgnoresOrder(a: seq<Line>, b: seq<Line>)
    requires multiset(a) == multiset(b)
    ensures Winner(a) == Winner(b)
  {
    forall l ensures l in a <==> l in b {
      assert l in a <==> l in multiset(a);
      assert l in b <==> l in multiset(b);
    }
    forall amount ensures CountAt(a, amount) == CountAt(b, amount) {
      CountPermuted(a, b, amount);
    }
    var w := if Winner(a).Some? then Winner(a).value else Line(0, 0, 0);
    WinnerIsLowestUnique(a, w);
    WinnerIsLowestUnique(b, w);
  }

  // -------------------------------------------------------------------------
  // What one more bid can change
  // -------------------------------------------------------------------------

  lemma OneMoreCount(lines: seq<Line>, b: Line)
    ensures forall amount :: CountAt(lines + [b], amount)
              == CountAt(lines, amount) + if amount == b.amountMinor then 1 else 0
  {
    assert (lines + [b])[..|lines|] == lines;
  }

  /**
   * Above the winning amount a new bid never matters. At the winning amount it
   * destroys the win: the next winner is strictly higher, or nobody. Below it,
   * and when nobody is winning, the new bid wins exactly when its amount was
   * unused, and otherwise changes nothing.
   */
  lemma OneMoreBid(lines: seq<Line>, b: Line)
    ensures var w, w' := Winner(lines), Winner(lines + [b]);
      if w.Some? && b.amountMinor > w.value.amountMinor then w' == w
      else if w.Some? && b.amountMinor == w.value.amountMinor then
        w'.Some? ==> w'.value.amountMinor > w.value.amountMinor
      else if CountAt(lines, b.amountMinor) == 0 then w' == Some(b)
      else w' == w
  {
    var w, w' := Winner(lines), Winner(lines + [b]);
    var all := lines + [b];
    OneMoreCount(lines, b);
    assert forall l :: l in all <==> l in lines || l == b;
    CountIsRows(lines, b.amountMinor);
    assert forall l :: l in lines && l.amountMinor == b.amountMinor ==> b.amountMinor in Amounts(lines);
    if w.Some? {
      WinnerIsLowestUnique(lines, w.value);
      if b.amountMinor == w.value.amountMinor {
        if w'.Some? {
          WinnerIsLowestUnique(all, w'.value);
        }
      } else if b.amountMinor < w.value.amountMinor && CountAt(lines, b.amountMinor) == 0 {
        WinnerIsLowestUnique(all, b);
      } else {
        if CountAt(lines, b.amountMinor) == 1 {
          var row := RowsAt(lines, b.amountMinor)[0];
          assert row in RowsAt(lines, b.amountMinor);
          assert w.value.amountMinor <= row.amountMinor;
        }
        WinnerIsLowestUnique(all, w.value);
      }
    } else {
      WinnerIsLowestUnique(lines, b);
      WinnerIsLowestUnique(all, b);
      forall l | l in lines
        ensures CountAt(lines, l.amountMinor) > 1
      {
        CountIsRows(lines, l.amountMinor);
        assert l in RowsAt(lines, l.amountMinor);
      }
    }
  }

  // -------------------------------------------------------------------------
  // The statistics stored with a result
  // -------------------------------------------------------------------------

  datatype Statistics = Statistics(totalBids: nat, totalValidBids: nat, participantCount: nat, uniqueAmountCount: nat)

  function Bidders(lines: seq<Line>): set<UserId> {
    set l | l in lines :: l.user
  }

  function CountFrozenBids(lines: seq<Line>): Statistics {
    Statistics(|lines|, |lines|, |Bidders(lines)|, |UniqueAmounts(lines)|)
  }

  datatype Outcome = HasWinner | NoUniqueBid | NoBids | WasCancelled

  function DecideOutcome(cancelled: bool, statistics: Statistics, winner: bool): Outcome {
    if cancelled then WasCancelled
    else if winner then HasWinner
    else if statistics.totalValidBids == 0 then NoBids
    else NoUniqueBid
  }

  /**
   * For an auction that was not cancelled, the outcome can be read off the
   * stored statistics, and the statistics satisfy the result table's checks.
   */
  lemma OutcomeMatchesStatistics(lines: seq<Line>)
    ensures var st := CountFrozenBids(lines);
      var outcome := DecideOutcome(false, st, Winner(lines).Some?);
      && (outcome == HasWinner <==> st.uniqueAmountCount > 0)
      && (outcome == NoBids <==> st.totalValidBids == 0)
      && (outcome == NoUniqueBid <==> st.totalValidBids > 0 && st.uniqueAmountCount == 0)
      && st.uniqueAmountCount <= st.totalValidBids
      && st.participantCount <= st.totalValidBids
  {
    NobodyWins(lines);
    assert |UniqueAmounts(lines)| == 0 <==> UniqueAmounts(lines) == {};
    if lines == [] {
      assert Amounts(lines) == {};
    }
    SetsBoundedByRows(lines);
    assert UniqueAmounts(lines) <= Amounts(lines);
    SubsetSize(UniqueAmounts(lines), Amounts(lines));
  }

  lemma SubsetSize<T>(a: set<T>, b: set<T>)
    requires a <= b
    ensures |a| <= |b|
  {
    assert |b - a| == |b| - |a|;
  }

  lemma SetsBoundedByRows(lines: seq<Line>)
    ensures |Amounts(lines)| <= |lines| && |Bidders(lines)| <= |lines|
  {
    if lines == [] {
      assert Amounts(lines) == {} && Bidders(lines) == {};
    } else {
      var front, last := lines[..|lines| - 1], lines[|lines| - 1];
      SetsBoundedByRows(front);
      assert lines == front + [last];
      assert Amounts(lines) == Amounts(front) + {last.amountMinor};
      assert Bidders(lines) == Bidders(front) + {last.user};
    }
  }

  // -------------------------------------------------------------------------
  // The restatement over amount counts
  // -------------------------------------------------------------------------

  datatype AmountCount = AmountCount(amountMinor: int, bidders: nat)

  /** Count one more bid into a list kept in ascending order of amount. */
  function Tally(counts: seq<AmountCount>, amount: int): seq<AmountCount> {
    if counts == [] || amount < counts[0].amountMinor then [AmountCount(amount, 1)] + counts
    else if amount == counts[0].amountMinor then [AmountCount(amount, counts[0].bidders + 1)] + counts[1..]
    else [counts[0]] + Tally(counts[1..], amount)
  }

  /** `amountDistribution`: one row per amount, lowest first. */
  function AmountDistribution(lines: seq<Line>): seq<AmountCount> {
    if lines == [] then [] else Tally(AmountDistribution(lines[..|lines| - 1]), lines[|lines| - 1].amountMinor)
  }

  predicate AscendingAmounts(counts: seq<AmountCount>) {
    forall i, j :: 0 <= i < j < |counts| ==> counts[i].amountMinor < counts[j].amountMinor
  }

  /** The bidders recorded at an amount, zero when the list has no such row. */
  function Recorded(counts: seq<AmountCount>, amount: int): nat {
    if counts == [] then 0
    else if counts[0].amountMinor == amount then counts[0].bidders
    else Recorded(counts[1..], amount)
  }

  lemma {:induction false} TallyCounts(counts: seq<AmountCount>, amount: int, other: int)
    requires AscendingAmounts(counts)
    ensures AscendingAmounts(Tally(counts, amount))
    ensures counts != [] && counts[0].amountMinor <= amount
        ==> Tally(counts, amount)[0].amountMinor == counts[0].amountMinor
    ensures Tally(counts, amount) != [] && (counts == [] || amount < counts[0].amountMinor
        ==> Tally(counts, amount)[0].amountMinor == amount)
    ensures Recorded(Tally(counts, amount), other) == Recorded(counts, other) + if other == amount then 1 else 0
    decreases |counts|
  {
    if counts == [] || amount < counts[0].amountMinor {
      assert Tally(counts, amount)[1..] == counts;
      MissingBelow(counts, amount);
    } else if amount == counts[0].amountMinor {
      assert Tally(counts, amount)[1..] == counts[1..];
    } else {
      TallyCounts(counts[1..], amount, other);
      assert Tally(counts, amount)[1..] == Tally(counts[1..], amount);
    }
  }

  lemma MissingBelow(counts: seq<AmountCount>, amount: int)
    requires AscendingAmounts(counts) && (counts == [] || amount < counts[0].amountMinor)
    ensures Recorded(counts, amount) == 0
  {
    if counts != [] && |counts| > 1 {
      MissingBelow(counts[1..], amount);
    }
  }

  lemma DistributionCounts(lines: seq<Line>, amount: int)
    ensures AscendingAmounts(AmountDistribution(lines))
    ensures Recorded(AmountDistribution(lines), amount) == CountAt(lines, amount)
  {
    if lines != [] {
      DistributionCounts(lines[..|lines| - 1], amount);
      TallyCounts(AmountDistribution(lines[..|lines| - 1]), lines[|lines| - 1].amountMinor, amount);
    }
  }

  lemma LonelyIsRecorded(counts: seq<AmountCount>, amount: int)
    requires AscendingAmounts(counts)
    ensures Lonely(counts, amount) <==> Recorded(counts, amount) == 1
  {
    if counts != [] {
      LonelyIsRecorded(counts[1..], amount);
      if counts[0].amountMinor == amount {
        assert forall i :: 0 <= i < |counts| && counts[i].amountMinor == amount ==> i == 0;
      } else {
        forall i | 0 <= i < |counts[1..]|
          ensures counts[1..][i] == counts[i + 1]
        {
        }
        if Lonely(counts, amount) {
          var i :| 0 <= i < |counts| && counts[i].bidders == 1 && counts[i].amountMinor == amount;
          assert counts[1..][i - 1] == counts[i];
        }
      }
    }
  }

  /** Some entry has exactly one bidder at this amount. */
  predicate Lonely(counts: seq<AmountCount>, amount: int) {
    exists i :: 0 <= i < |counts| && counts[i].bidders == 1 && counts[i].amountMinor == amount
  }

  lemma LonelyStep(seen: seq<AmountCount>, next: AmountCount)
    ensures forall amount :: Lonely(seen + [next], amount)
              <==> (Lonely(seen, amount) || (next.bidders == 1 && next.amountMinor == amount))
  {
    var all := seen + [next];
    forall amount
      ensures Lonely(all, amount)
         <==> (Lonely(seen, amount) || (next.bidders == 1 && next.amountMinor == amount))
    {
      if Lonely(seen, amount) {
        var i :| 0 <= i < |seen| && seen[i].bidders == 1 && seen[i].amountMinor == amount;
        assert all[i] == seen[i];
      }
      if next.bidders == 1 && next.amountMinor == amount {
        assert all[|seen|] == next;
      }
    }
  }

  /** The shared restatement of the rule, a loop over the counts. */
  method LowestUniqueAmount(counts: seq<AmountCount>) returns (lowest: Option<int>)
    ensures lowest.Some? ==> Lonely(counts, lowest.value)
    ensures forall amount :: Lonely(counts, amount) ==> lowest.Some? && lowest.value <= amount
  {
    lowest := None;
    ghost var seen: seq<AmountCount> := [];
    for k := 0 to |counts|
      invariant seen == counts[..k]
      invariant lowest.Some? ==> Lonely(seen, lowest.value)
      invariant forall amount :: Lonely(seen, amount) ==> lowest.Some? && lowest.value <= amount
    {
      var entry := counts[k];
      LonelyStep(seen, entry);
      seen := seen + [entry];
      if entry.bidders != 1 {
        continue;
      }
      if lowest == None || entry.amountMinor < lowest.value {
        lowest := Some(entry.amountMinor);
      }
    }
    assert counts[..|counts|] == counts;
  }

  /** Any answer meeting the loop's contract on the distribution is the query's winning amount. */
  lemma RestatementAgrees(lines: seq<Line>, lowest: Option<int>)
    requires lowest.Some? ==> Lonely(AmountDistribution(lines), lowest.value)
    requires forall amount :: Lonely(AmountDistribution(lines), amount) ==> lowest.Some? && lowest.value <= amount
    ensures lowest == (if Winner(lines).Some? then Some(Winner(lines).value.amountMinor) else None)
  {
    var counts := AmountDistribution(lines);
    forall amount
      ensures Lonely(counts, amount) <==> CountAt(lines, amount) == 1
    {
      DistributionCounts(lines, amount);
      LonelyIsRecorded(counts, amount);
    }
    forall amount | CountAt(lines, amount) == 1
      ensures exists l :: l in lines && l.amountMinor == amount
    {
      CountIsRows(lines, amount);
      assert RowsAt(lines, amount)[0] in RowsAt(lines, amount);
    }
    var w := Winner(lines);
    WinnerIsLowestUnique(lines, if w.Some? then w.value else Line(0, 0, 0));
    if w.Some? {
      assert Lonely(counts, w.value.amountMinor);
    }
  }
}
