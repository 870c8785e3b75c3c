/** Amounts as people type them: one list, parsed and checked the same way on every channel. */
module BidList {
  import opened Common
  import BidRules
  import Money

  /** White space, commas and semicolons separate amounts. */
  predicate IsSeparator(c: char) {
    Money.IsSpace(c) || c in {',', ';'}
  }

  function RunLength(s: string): (n: nat)
    ensures n <= |s| && forall i :: 0 <= i < n ==> !IsSeparator(s[i])
    ensures n < |s| ==> IsSeparator(s[n])
  {
    if s == "" || IsSeparator(s[0]) then 0 else 1 + RunLength(s[1..])
  }

  /** The maximal runs between separators, empty ones dropped. */
  function Tokens(input: string): (tokens: seq<string>)
    ensures forall i :: 0 <= i < |tokens| ==>
      |tokens[i]| > 0 && forall j :: 0 <= j < |tokens[i]| ==> !IsSeparator(tokens[i][j])
    decreases |input|
  {
    if input == "" then []
    else if IsSeparator(input[0]) then Tokens(input[1..])
    else
      var n := RunLength(input);
      [input[..n]] + Tokens(input[n..])
  }

  /** The input without its separators. */
  function Kept(input: string): string {
    if input == "" then "" else (if IsSeparator(input[0]) then "" else [input[0]]) + Kept(input[1..])
  }

  function Joined(tokens: seq<string>): string {
    if tokens == [] then "" else tokens[0] + Joined(tokens[1..])
  }

  lemma {:induction false} KeptRun(input: string, n: nat)
    requires n <= |input| && forall i :: 0 <= i < n ==> !IsSeparator(input[i])
    ensures Kept(input) == input[..n] + Kept(input[n..])
    decreases n
  {
    if n == 0 {
      assert input[..0] == "" && input[0..] == input;
    } else {
      KeptRun(input[1..], n - 1);
      assert input[..n] == [input[0]] + input[1..][..n - 1];
      assert input[1..][n - 1..] == input[n..];
    }
  }

  /** Two amounts typed with a comma, a semicolon, a space, a tab or a line break between them are two amounts. */
  lemma SeparatedAmounts(left: string, c: char, right: string)
    requires left != "" && right != "" && Money.AllDigits(left) && Money.AllDigits(right)
    requires c in {',', ';', ' ', '\t', '\n', '\r'}
    ensures Tokens(left + [c] + right) == [left, right]
  {
    var input := left + [c] + right;
    assert forall i :: 0 <= i < |left| ==> input[i] == left[i];
    assert input[|left|] == c;
    DigitsDoNotSeparate(left);
    DigitsDoNotSeparate(right);
    assert RunLength(input) == |left|;
    assert input[..|left|] == left && input[|left|..] == [c] + right && ([c] + right)[1..] == right;
    assert RunLength(right) == |right| && right[..|right|] == right && right[|right|..] == "";
    assert Tokens(right) == [right] + Tokens("");
    assert Tokens(input) == [left] + Tokens([c] + right);
  }

  lemma DigitsDoNotSeparate(s: string)
    requires Money.AllDigits(s)
    ensures forall i :: 0 <= i < |s| ==> !IsSeparator(s[i])
  {
  }

  /** No typed character but a separator is lost, and none is invented. */
  lemma {:induction false} TokensKeepEverything(input: string)
    ensures Joined(Tokens(input)) == Kept(input)
    decreases |input|
  {
    if input == "" {
    } else if IsSeparator(input[0]) {
      TokensKeepEverything(input[1..]);
    } else {
      var n := RunLength(input);
      TokensKeepEverything(input[n..]);
      KeptRun(input, n);
      assert Tokens(input)[1..] == Tokens(input[n..]);
    }
  }

  /** The text between two positions, bounded on both sides by a separator or an end of the input. */
  predicate IsRun(input: string, from: nat, token: string) {
    && from + |token| <= |input|
    && input[from..from + |token|] == token
    && (from == 0 || IsSeparator(input[from - 1]))
    && (from + |token| == |input| || IsSeparator(input[from + |token|]))
  }

  /** The tokens of what follows position `k`, each placed where it stands in the whole input. */
  ghost predicate PlacedFrom(input: string, k: nat, tokens: seq<string>, at: seq<nat>) {
    && |at| == |tokens|
    && (forall i :: 0 <= i < |at| ==> k <= at[i] < |input| && !IsSeparator(input[at[i]]) && IsRun(input, at[i], tokens[i]))
    && (forall i :: 0 <= i < |at| - 1 ==> at[i] + |tokens[i]| < at[i + 1])
  }

  lemma PlaceFirst(input: string, k: nat, token: string, rest: seq<string>, at: seq<nat>)
    requires k < |input| && !IsSeparator(input[k]) && IsRun(input, k, token)
    requires PlacedFrom(input, k + |token|, rest, at)
    ensures PlacedFrom(input, k, [token] + rest, [k] + at)
  {
    var tokens, places := [token] + rest, [k] + at;
    forall i | 0 <= i < |places| - 1
      ensures places[i] + |tokens[i]| < places[i + 1]
    {
      assert places[i + 1] == at[i];
      assert i > 0 ==> places[i] == at[i - 1] && tokens[i] == rest[i - 1];
    }
  }

  lemma DropDrop<T>(s: seq<T>, k: nat, n: nat)
    requires k + n <= |s|
    ensures s[k..][n..] == s[k + n..] && s[k..][..n] == s[k..k + n]
  {
  }

  lemma RunHere(input: string, k: nat)
    requires k < |input| && !IsSeparator(input[k]) && (k == 0 || IsSeparator(input[k - 1]))
    ensures var n := RunLength(input[k..]);
      && 0 < n && k + n <= |input| && (k + n < |input| ==> IsSeparator(input[k + n]))
      && IsRun(input, k, input[k..][..n])
  {
    var n := RunLength(input[k..]);
    DropDrop(input, k, n);
    assert k + n < |input| ==> input[k..][n] == input[k + n];
  }

  lemma {:induction false} TokensPlaced(input: string, k: nat) returns (at: seq<nat>)
    requires k <= |input|
    requires 0 < k < |input| ==> IsSeparator(input[k - 1]) || IsSeparator(input[k])
    ensures PlacedFrom(input, k, Tokens(input[k..]), at)
    decreases |input| - k
  {
    hide PlacedFrom, IsRun, RunLength, IsSeparator;
    var left := input[k..];
    if left == "" {
      at := [];
      assert PlacedFrom(input, k, [], []) by { NothingPlaced(input, k); }
    } else if IsSeparator(left[0]) {
      DropDrop(input, k, 1);
      at := TokensPlaced(input, k + 1);
      PlacedEarlier(input, k, Tokens(left[1..]), at);
    } else {
      var n := RunLength(left);
      DropDrop(input, k, n);
      RunHere(input, k);
      var rest := TokensPlaced(input, k + n);
      at := [k] + rest;
      PlaceFirst(input, k, left[..n], Tokens(left[n..]), rest);
    }
  }

  lemma NothingPlaced(input: string, k: nat)
    ensures PlacedFrom(input, k, [], [])
  {
  }

  lemma PlacedEarlier(input: string, k: nat, tokens: seq<string>, at: seq<nat>)
    requires PlacedFrom(input, k + 1, tokens, at)
    ensures PlacedFrom(input, k, tokens, at)
  {
  }

  /** Each token is a whole run of the input, in order: it starts and ends only at a separator or an end. */
  lemma TokensAreRuns(input: string) returns (at: seq<nat>)
    ensures |at| == |Tokens(input)|
    ensures forall i :: 0 <= i < |at| ==> IsRun(input, at[i], Tokens(input)[i])
    ensures forall i :: 0 <= i < |at| - 1 ==> at[i] + |Tokens(input)[i]| < at[i + 1]
  {
    assert input[0..] == input;
    at := TokensPlaced(input, 0);
  }

  predicate AllZeros(token: string) {
    forall i :: 0 <= i < |token| ==> token[i] == '0'
  }

  /** A token the list accepts: at most nineteen digits, not all of them zero. */
  predicate Acceptable(token: string) {
    BidRules.WellShaped(token) && !AllZeros(token)
  }

  /** Leading zeros are the user's formatting, not a different number. */
  function WithoutZeros(token: string): string {
    if token != "" && token[0] == '0' then WithoutZeros(token[1..]) else token
  }

  lemma {:induction false} LeadingZero(token: string)
    requires token != "" && token[0] == '0' && forall i :: 0 <= i < |token| ==> BidRules.IsDigit(token[i])
    ensures BidRules.DigitsValue(token) == BidRules.DigitsValue(token[1..])
    decreases |token|
  {
    if |token| > 1 {
      LeadingZero(token[..|token| - 1]);
      assert token[..|token| - 1][1..] == token[1..][..|token[1..]| - 1];
    }
  }

  lemma {:induction false} StrippingKeepsTheValue(token: string)
    requires Acceptable(token)
    ensures var stripped := WithoutZeros(token);
      && BidRules.WellShaped(stripped) && stripped[0] != '0'
      && BidRules.DigitsValue(stripped) == BidRules.DigitsValue(token)
    decreases |token|
  {
    if token[0] == '0' {
      LeadingZero(token);
      assert token[1..] != "" by {
        assert !AllZeros(token);
      }
      assert !AllZeros(token[1..]) by {
        var i :| 0 <= i < |token| && token[i] != '0';
        assert token[1..][i - 1] == token[i];
      }
      StrippingKeepsTheValue(token[1..]);
    }
  }

  lemma {:induction false} FirstDigitCounts(token: string)
    requires token != "" && token[0] != '0' && forall i :: 0 <= i < |token| ==> BidRules.IsDigit(token[i])
    ensures BidRules.DigitsValue(token) > 0
    decreases |token|
  {
    if |token| > 1 {
      FirstDigitCounts(token[..|token| - 1]);
    } else {
      assert token[..0] == "";
    }
  }

  datatype ListError = NothingFound | TooMany | NotWhole(token: string) | Zero

  datatype Parsed = Amounts(amounts: seq<string>) | Refused(error: ListError)

  /**
   * Everything or a refusal: every token in order, its leading zeros dropped, the
   * same number as typed, and already in the shape the bid schema accepts.
   */
  method ParseAmountList(input: string) returns (r: Parsed)
    ensures r.Amounts? <==>
      && 0 < |Tokens(input)| <= BidRules.MAX_BIDS_PER_REQUEST
      && forall i :: 0 <= i < |Tokens(input)| ==> Acceptable(Tokens(input)[i])
    ensures r.Amounts? ==> |r.amounts| == |Tokens(input)|
    ensures r.Amounts? ==> forall i :: 0 <= i < |r.amounts| ==>
      && BidRules.Parses(r.amounts[i])
      && r.amounts[i][0] != '0'
      && Acceptable(Tokens(input)[i])
      && BidRules.DigitsValue(r.amounts[i]) == BidRules.DigitsValue(Tokens(input)[i])
    ensures Tokens(input) == [] ==> r == Refused(NothingFound)
    ensures |Tokens(input)| > BidRules.MAX_BIDS_PER_REQUEST ==> r == Refused(TooMany)
  {
    var tokens := Tokens(input);
    if |tokens| == 0 {
      return Refused(NothingFound);
    }
    if |tokens| > BidRules.MAX_BIDS_PER_REQUEST {
      return Refused(TooMany);
    }
    var amounts: seq<string> := [];
    for k := 0 to |tokens|
      invariant |amounts| == k
      invariant forall i :: 0 <= i < k ==>
        && Acceptable(tokens[i]) && BidRules.Parses(amounts[i]) && amounts[i][0] != '0'
        && BidRules.DigitsValue(amounts[i]) == BidRules.DigitsValue(tokens[i])
    {
      var token := tokens[k];
      if !BidRules.WellShaped(token) {
        return Refused(NotWhole(token));
      }
      if AllZeros(token) {
        return Refused(Zero);
      }
      StrippingKeepsTheValue(token);
      FirstDigitCounts(WithoutZeros(token));
      amounts := amounts + [WithoutZeros(token)];
    }
    return Amounts(amounts);
  }

  /** The amounts named more than once, each reported once. */
  method DuplicateAmounts(amounts: seq<string>) returns (repeated: seq<string>)
    ensures forall x :: x in repeated <==> multiset(amounts)[x] >= 2
    ensures forall i, j :: 0 <= i < j < |repeated| ==> repeated[i] != repeated[j]
  {
    var seen: set<string> := {};
    repeated := [];
    for k := 0 to |amounts|
      invariant forall x :: x in seen <==> multiset(amounts[..k])[x] >= 1
      invariant forall x :: x in repeated <==> multiset(amounts[..k])[x] >= 2
      invariant forall i, j :: 0 <= i < j < |repeated| ==> repeated[i] != repeated[j]
    {
      var amount := amounts[k];
      assert amounts[..k + 1] == amounts[..k] + [amount];
      if amount in seen && amount !in repeated {
        repeated := repeated + [amount];
      }
      seen := seen + {amount};
    }
    assert amounts[..|amounts|] == amounts;
  }
}
