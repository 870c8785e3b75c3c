/**
 * The amount rules: parsing, repeats, and the ladder of amounts an auction
 * accepts.
 */
module BidRules {
  import opened Common
  import opened Auctions

  const MAX_BIDS_PER_REQUEST := 100

  // -------------------------------------------------------------------------
  // The ladder
  // -------------------------------------------------------------------------

  predicate OnLadder(t: Terms, amount: int)
    requires t.increment > 0
  {
    t.minBid <= amount <= t.maxBid && (amount - t.minBid) % t.increment == 0
  }

  function AmountError(t: Terms, amount: int): (r: Option<Error>)
    requires t.increment > 0
    ensures r.None? <==> OnLadder(t, amount)
    ensures r == Some(AmountOutOfRange) <==> !(t.minBid <= amount <= t.maxBid)
  {
    if amount < t.minBid || amount > t.maxBid then Some(AmountOutOfRange)
    else if (amount - t.minBid) % t.increment != 0 then Some(AmountNotAligned)
    else None
  }

  /** `r` refuses the first amount that is off the ladder. */
  predicate FirstRefused(t: Terms, amounts: seq<int>, r: Option<Error>)
    requires t.increment > 0
  {
    exists i ::
      && 0 <= i < |amounts| && !OnLadder(t, amounts[i]) && r == AmountError(t, amounts[i])
      && forall j :: 0 <= j < i ==> OnLadder(t, amounts[j])
  }

  lemma RefusedLater(t: Terms, amounts: seq<int>, r: Option<Error>)
    requires t.increment > 0 && amounts != [] && OnLadder(t, amounts[0]) && FirstRefused(t, amounts[1..], r)
    ensures FirstRefused(t, amounts, r)
  {
    hide OnLadder, AmountError;
    var i :| 0 <= i < |amounts[1..]| && !OnLadder(t, amounts[1..][i]) && r == AmountError(t, amounts[1..][i])
      && forall j :: 0 <= j < i ==> OnLadder(t, amounts[1..][j]);
    assert amounts[i + 1] == amounts[1..][i];
    forall j | 0 <= j < i + 1 ensures OnLadder(t, amounts[j]) {
      assert j > 0 ==> amounts[j] == amounts[1..][j - 1];
    }
  }

  /** The refusal of the first amount off the ladder. */
  function LadderError(t: Terms, amounts: seq<int>): (r: Option<Error>)
    requires t.increment > 0
    ensures r.None? <==> forall x :: x in amounts ==> OnLadder(t, x)
    ensures r.Some? ==> FirstRefused(t, amounts, r)
  {
    if amounts == [] then None
    else
      assert amounts == [amounts[0]] + amounts[1..] && amounts[0] in amounts;
      if AmountError(t, amounts[0]).Some? then AmountError(t, amounts[0])
      else
        var later := LadderError(t, amounts[1..]);
        if later.Some? then RefusedLater(t, amounts, later); later
        else later
  }

  function LadderSize(t: Terms): int
    requires t.increment > 0
  {
    (t.maxBid - t.minBid) / t.increment + 1
  }

  function Rungs(t: Terms, count: nat): set<int> {
    if count == 0 then {} else Rungs(t, count - 1) + {t.minBid + (count - 1) * t.increment}
  }

  lemma OneStepMore(count: int, step: int)
    ensures count * step == (count - 1) * step + step
  {
  }

  lemma {:induction false} RungsCounted(t: Terms, count: nat)
    requires t.increment > 0
    ensures |Rungs(t, count)| == count
    ensures forall x :: x in Rungs(t, count) ==> t.minBid <= x < t.minBid + count * t.increment
    ensures forall k :: 0 <= k < count ==> t.minBid + k * t.increment in Rungs(t, count)
  {
    if count > 0 {
      RungsCounted(t, count - 1);
      OneStepMore(count, t.increment);
      MultiplyOrder(0, count - 1, t.increment);
      var below, top := Rungs(t, count - 1), t.minBid + (count - 1) * t.increment;
      assert top !in below;
      forall k | 0 <= k < count ensures t.minBid + k * t.increment in Rungs(t, count) {
        assert k < count - 1 ==> t.minBid + k * t.increment in below;
      }
    }
  }

  lemma OnLadderIsRung(t: Terms, amount: int)
    requires ValidConfig(t)
    requires OnLadder(t, amount)
    ensures amount in Rungs(t, LadderSize(t))
  {
    var span, step := t.maxBid - t.minBid, amount - t.minBid;
    var k, last := step / t.increment, span / t.increment;
    assert step == k * t.increment && span == last * t.increment;
    assert 0 <= k <= last by {
      if k > last {
        MultiplyOrder(last + 1, k, t.increment);
        OneStepMore(last + 1, t.increment);
      }
    }
    RungsCounted(t, LadderSize(t));
  }

  lemma MultiplyOrder(a: int, b: int, c: int)
    requires a <= b && c > 0
    ensures a * c <= b * c
  {
  }

  lemma RungOnLadder(t: Terms, k: int)
    requires ValidConfig(t) && 0 <= k < LadderSize(t)
    ensures OnLadder(t, t.minBid + k * t.increment)
  {
    var last := (t.maxBid - t.minBid) / t.increment;
    assert t.maxBid - t.minBid == last * t.increment;
    MultiplyOrder(k, last, t.increment);
    MultiplyOrder(0, k, t.increment);
    ModuloOfMultiple(k, t.increment);
  }

  lemma {:induction false} ModuloOfMultiple(k: int, n: int)
    requires n > 0
    ensures (k * n) % n == 0
  {
    var product := k * n;
    var q, r := product / n, product % n;
    assert product == q * n + r && 0 <= r < n;
    assert (k - q) * n == r;
    if k - q >= 1 {
      MultiplyOrder(1, k - q, n);
    } else if k - q <= -1 {
      MultiplyOrder(k - q, -1, n);
    }
  }

  /** The ladder has exactly `LadderSize` rungs, its maximum among them. */
  lemma LadderIsRungs(t: Terms)
    requires ValidConfig(t)
    ensures LadderSize(t) > 0
    ensures |Rungs(t, LadderSize(t))| == LadderSize(t)
    ensures forall x :: x in Rungs(t, LadderSize(t)) <==> OnLadder(t, x)
    ensures t.maxBid in Rungs(t, LadderSize(t))
  {
    var size := LadderSize(t);
    RungsCounted(t, size);
    forall x ensures x in Rungs(t, size) <==> OnLadder(t, x) {
      if OnLadder(t, x) {
        OnLadderIsRung(t, x);
      }
      if x in Rungs(t, size) {
        RungHasIndex(t, size, x);
      }
    }
    OnLadderIsRung(t, t.maxBid);
  }

  lemma RungHasIndex(t: Terms, count: nat, x: int)
    requires ValidConfig(t) && count <= LadderSize(t)
    requires x in Rungs(t, count)
    ensures OnLadder(t, x)
  {
    if x == t.minBid + (count - 1) * t.increment {
      RungOnLadder(t, count - 1);
    } else {
      RungHasIndex(t, count - 1, x);
    }
  }

  // -------------------------------------------------------------------------
  // Distinct amounts
  // -------------------------------------------------------------------------

  predicate Distinct(amounts: seq<int>) {
    forall i, j :: 0 <= i < j < |amounts| ==> amounts[i] != amounts[j]
  }

  function Members(amounts: seq<int>): set<int> {
    set x | x in amounts
  }

  lemma DistinctSize(amounts: seq<int>)
    requires Distinct(amounts)
    ensures |Members(amounts)| == |amounts|
  {
    if amounts != [] {
      var front, last := amounts[..|amounts| - 1], amounts[|amounts| - 1];
      DistinctSize(front);
      assert amounts == front + [last];
      assert Members(amounts) == Members(front) + {last};
      assert last !in front;
    }
  }

  /** Distinct ladder amounts cannot outnumber the rungs. */
  lemma AtMostLadderSize(t: Terms, amounts: seq<int>)
    requires ValidConfig(t)
    requires Distinct(amounts) && forall x :: x in amounts ==> OnLadder(t, x)
    ensures |amounts| <= LadderSize(t)
  {
    DistinctSize(amounts);
    LadderIsRungs(t);
    var held, rungs := Members(amounts), Rungs(t, LadderSize(t));
    assert held <= rungs;
    assert |rungs - held| == |rungs| - |held|;
  }

  /** Reject a request that names an amount twice, with a set of the amounts seen. */
  method AssertNoRepeats(amounts: seq<int>) returns (r: Result<bool>)
    ensures r == if Distinct(amounts) then Ok(true) else Err(DuplicateAmount)
  {
    var seen: set<int> := {};
    var repeated: seq<int> := [];
    for k := 0 to |amounts|
      invariant seen == Members(amounts[..k])
      invariant repeated == [] <==> Distinct(amounts[..k])
    {
      var amount := amounts[k];
      assert amounts[..k + 1] == amounts[..k] + [amount];
      ghost var isNew := amount !in seen;
      assert isNew <==> forall i :: 0 <= i < k ==> amounts[..k][i] != amount by {
        if amount in seen {
          assert amount in amounts[..k];
        }
      }
      DistinctStep(amounts[..k], amount);
      if amount in seen && amount !in repeated {
        repeated := repeated + [amount];
      }
      seen := seen + {amount};
    }
    assert amounts[..|amounts|] == amounts;
    if |repeated| > 0 {
      return Err(DuplicateAmount);
    }
    return Ok(true);
  }

  lemma DistinctStep(front: seq<int>, next: int)
    ensures Distinct(front + [next]) <==> Distinct(front) && next !in front
  {
    var all := front + [next];
    if Distinct(all) {
      assert forall i :: 0 <= i < |front| ==> all[i] == front[i] && all[|front|] == next;
    }
  }

  // -------------------------------------------------------------------------
  // Parsing
  // -------------------------------------------------------------------------

  predicate IsDigit(c: char) {
    '0' <= c <= '9'
  }

  /** The wire shape of an amount: one to nineteen decimal digits. */
  predicate WellShaped(raw: string) {
    1 <= |raw| <= 19 && forall i :: 0 <= i < |raw| ==> IsDigit(raw[i])
  }

  function DigitValue(c: char): nat
    requires IsDigit(c)
  {
    c as int - '0' as int
  }

  function DigitsValue(raw: string): nat
    requires forall i :: 0 <= i < |raw| ==> IsDigit(raw[i])
  {
    if raw == "" then 0
    else 10 * DigitsValue(raw[..|raw| - 1]) + DigitValue(raw[|raw| - 1])
  }

  predicate Parses(raw: string) {
    WellShaped(raw) && DigitsValue(raw) > 0
  }

  lemma {:induction false} ValueIsPositive(raw: string)
    requires forall i :: 0 <= i < |raw| ==> IsDigit(raw[i])
    ensures DigitsValue(raw) > 0 <==> exists i :: 0 <= i < |raw| && raw[i] != '0'
    decreases |raw|
  {
    if raw != "" {
      var n := |raw| - 1;
      ValueIsPositive(raw[..n]);
      assert raw[n] == '0' <==> DigitValue(raw[n]) == 0;
      if i :| 0 <= i < |raw| && raw[i] != '0' {
        assert i < n ==> raw[..n][i] != '0';
      }
    }
  }

  /** An amount is one to nineteen decimal digits that are not all zero, and nothing else. */
  lemma ParsesExactly(raw: string)
    ensures Parses(raw) <==>
      && 1 <= |raw| <= 19
      && (forall i :: 0 <= i < |raw| ==> raw[i] in "0123456789")
      && exists i :: 0 <= i < |raw| && raw[i] != '0'
  {
    forall i | 0 <= i < |raw| ensures IsDigit(raw[i]) <==> raw[i] in "0123456789" {
      DigitsAreListed(raw[i]);
    }
    if forall i :: 0 <= i < |raw| ==> IsDigit(raw[i]) {
      ValueIsPositive(raw);
    }
  }

  lemma DigitsAreListed(c: char)
    ensures IsDigit(c) <==> c in "0123456789"
  {
    assert "0123456789" == ['0', '1', '2', '3', '4', '5', '6', '7', '8', '9'];
  }

  /** All the amounts, in order, or the first refusal. */
  method ParseAmounts(raws: seq<string>) returns (r: Result<seq<int>>)
    ensures |raws| > MAX_BIDS_PER_REQUEST ==> r == Err(TooManyAmounts)
    ensures |raws| <= MAX_BIDS_PER_REQUEST ==> (r.Ok? <==> forall i :: 0 <= i < |raws| ==> Parses(raws[i]))
    ensures |raws| <= MAX_BIDS_PER_REQUEST && r.Err? ==> r == Err(AmountInvalid)
    ensures r.Ok? ==> (
      && |r.value| == |raws|
      && forall i :: 0 <= i < |raws| ==> WellShaped(raws[i]) && r.value[i] == DigitsValue(raws[i]) > 0)
  {
    if |raws| > MAX_BIDS_PER_REQUEST {
      return Err(TooManyAmounts);
    }
    var parsed: seq<int> := [];
    for k := 0 to |raws|
      invariant |parsed| == k
      invariant forall i :: 0 <= i < k ==> Parses(raws[i]) && parsed[i] == DigitsValue(raws[i])
    {
      var raw := raws[k];
      if !WellShaped(raw) {
        return Err(AmountInvalid);
      }
      var amount := DigitsValue(raw);
      if amount <= 0 {
        return Err(AmountInvalid);
      }
      parsed := parsed + [amount];
    }
    return Ok(parsed);
  }
}
