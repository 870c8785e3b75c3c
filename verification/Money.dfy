/** Amounts as text: what `formatMoney` prints, `moneyFromMajorString` reads back. */
module Money {
  import opened Common
  import BidRules

  /** Decimal places of each currency's minor unit. */
  function Exponent(currency: Currency): nat {
    match currency
    case USD => 2
    case EUR => 2
    case ETB => 2
  }

  function Code(currency: Currency): string {
    match currency
    case USD => "USD"
    case EUR => "EUR"
    case ETB => "ETB"
  }

  predicate AllDigits(s: string) {
    forall i :: 0 <= i < |s| ==> BidRules.IsDigit(s[i])
  }

  function DigitChar(d: nat): (c: char)
    requires d < 10
    ensures BidRules.IsDigit(c) && BidRules.DigitValue(c) == d
  {
    ('0' as int + d) as char
  }

  /** `BigInt.toString` of a non-negative value. */
  function ToDigits(n: nat): (s: string)
    ensures |s| >= 1 && AllDigits(s)
    ensures BidRules.DigitsValue(s) == n
    decreases n
  {
    if n < 10 then
      var s := [DigitChar(n)];
      assert s[..|s| - 1] == "";
      s
    else
      var s := ToDigits(n / 10) + [DigitChar(n % 10)];
      assert s[..|s| - 1] == ToDigits(n / 10);
      s
  }

  function Zeros(n: nat): (s: string)
    ensures |s| == n && forall i :: 0 <= i < n ==> s[i] == '0'
  {
    seq(n, _ => '0')
  }

  function PadStart(s: string, width: nat): string {
    if |s| >= width then s else Zeros(width - |s|) + s
  }

  function PadEnd(s: string, width: nat): string {
    if |s| >= width then s else s + Zeros(width - |s|)
  }

  function Magnitude(n: int): nat {
    if n < 0 then -n else n
  }

  /** The digits of the magnitude, with at least one before the point. */
  function DisplayDigits(amountMinor: int, exponent: nat): string {
    PadStart(ToDigits(Magnitude(amountMinor)), exponent + 1)
  }

  /** The numeric part of the display form. */
  function FormatAmount(amountMinor: int, exponent: nat): string {
    var digits := DisplayDigits(amountMinor, exponent);
    var cut := |digits| - exponent;
    (if amountMinor < 0 then "-" else "") + digits[..cut] + if exponent == 0 then "" else "." + digits[cut..]
  }

  function FormatMoney(amountMinor: int, currency: Currency): string {
    FormatAmount(amountMinor, Exponent(currency)) + " " + Code(currency)
  }

  // -------------------------------------------------------------------------
  // Parsing
  // -------------------------------------------------------------------------

  /** White space and line terminators, as `trim` takes them off. */
  predicate IsSpace(c: char) {
    var code := c as int;
    || 0x09 <= code <= 0x0d
    || code in {0x20, 0xa0, 0x1680, 0x2028, 0x2029, 0x202f, 0x205f, 0x3000, 0xfeff}
    || 0x2000 <= code <= 0x200a
  }

  function TrimStart(s: string): string {
    if s != "" && IsSpace(s[0]) then TrimStart(s[1..]) else s
  }

  function TrimEnd(s: string): string {
    if s != "" && IsSpace(s[|s| - 1]) then TrimEnd(s[..|s| - 1]) else s
  }

  /** The leading run of digits. */
  function DigitRun(s: string): (n: nat)
    ensures n <= |s| && AllDigits(s[..n])
    ensures n < |s| ==> !BidRules.IsDigit(s[n])
  {
    if s == "" || !BidRules.IsDigit(s[0]) then 0
    else
      var rest := DigitRun(s[1..]);
      assert s[..1 + rest] == [s[0]] + s[1..][..rest];
      1 + rest
  }

  datatype Parts = Parts(negative: bool, whole: string, fraction: string)

  /** An optional sign, digits, and optionally a point and more digits; nothing else. */
  function Match(s: string): Option<Parts> {
    var negative := s != "" && s[0] == '-';
    var body := if negative then s[1..] else s;
    var n := DigitRun(body);
    var rest := body[n..];
    if n == 0 then None
    else if rest == "" then Some(Parts(negative, body, ""))
    else if rest[0] == '.' && |rest| > 1 && DigitRun(rest[1..]) == |rest| - 1 then
      Some(Parts(negative, body[..n], rest[1..]))
    else None
  }

  function ValueOf(p: Parts, exponent: nat): int {
    var digits := p.whole + PadEnd(p.fraction, exponent);
    if AllDigits(digits) then
      if p.negative then 0 - BidRules.DigitsValue(digits) else BidRules.DigitsValue(digits)
    else 0
  }

  function ParseAmount(value: string, exponent: nat): Option<int> {
    match Match(TrimEnd(TrimStart(value)))
    case None => None
    case Some(p) => if |p.fraction| > exponent then None else Some(ValueOf(p, exponent))
  }

  // -------------------------------------------------------------------------
  // Format, then parse
  // -------------------------------------------------------------------------

  lemma ZerosValue(k: nat, s: string)
    requires AllDigits(s)
    ensures AllDigits(Zeros(k) + s) && BidRules.DigitsValue(Zeros(k) + s) == BidRules.DigitsValue(s)
    decreases |s|, k
  {
    var all := Zeros(k) + s;
    if s == "" {
      assert all == Zeros(k);
      if k > 0 {
        ZerosValue(k - 1, s);
        assert Zeros(k)[..k - 1] == Zeros(k - 1) + s;
      }
    } else {
      ZerosValue(k, s[..|s| - 1]);
      assert all[..|all| - 1] == Zeros(k) + s[..|s| - 1];
    }
  }

  lemma {:induction false} RunOfDigits(digits: string, rest: string)
    requires AllDigits(digits) && (rest == "" || !BidRules.IsDigit(rest[0]))
    ensures DigitRun(digits + rest) == |digits|
    decreases |digits|
  {
    if digits == "" {
      assert digits + rest == rest;
    } else {
      assert (digits + rest)[1..] == digits[1..] + rest;
      RunOfDigits(digits[1..], rest);
    }
  }

  function Written(p: Parts): string {
    (if p.negative then "-" else "") + p.whole + if p.fraction == "" then "" else "." + p.fraction
  }

  /** The unsigned part of a written form splits where it was joined. */
  lemma SplitsAtThePoint(whole: string, fraction: string)
    requires |whole| >= 1 && AllDigits(whole) && AllDigits(fraction)
    ensures var tail := if fraction == "" then "" else "." + fraction;
      && DigitRun(whole + tail) == |whole|
      && (whole + tail)[..|whole|] == whole && (whole + tail)[|whole|..] == tail
      && (fraction != "" ==> tail[1..] == fraction && DigitRun(tail[1..]) == |fraction|)
  {
    var tail := if fraction == "" then "" else "." + fraction;
    RunOfDigits(whole, tail);
    if fraction != "" {
      RunOfDigits(fraction, "");
      assert fraction + "" == fraction;
      assert tail[1..] == fraction;
    }
  }

  /** A written form is matched back into its parts. */
  lemma MatchesItsParts(p: Parts)
    requires |p.whole| >= 1 && AllDigits(p.whole) && AllDigits(p.fraction)
    ensures Match(Written(p)) == Some(p)
  {
    hide DigitRun;
    var tail := if p.fraction == "" then "" else "." + p.fraction;
    SplitsAtThePoint(p.whole, p.fraction);
    var text := Written(p);
    assert BidRules.IsDigit(p.whole[0]);
    if p.negative {
      assert text == "-" + (p.whole + tail);
      assert text[1..] == p.whole + tail;
    } else {
      assert text == p.whole + tail && text[0] == p.whole[0];
    }
    if p.fraction == "" {
      assert p.whole + tail == p.whole;
    }
  }

  lemma NothingToTrim(p: Parts)
    requires |p.whole| >= 1 && AllDigits(p.whole) && AllDigits(p.fraction)
    ensures TrimEnd(TrimStart(Written(p))) == Written(p)
  {
    var text := Written(p);
    assert text[0] == if p.negative then '-' else p.whole[0];
    assert text[|text| - 1] == if p.fraction == "" then p.whole[|p.whole| - 1] else p.fraction[|p.fraction| - 1];
    assert BidRules.IsDigit(text[|text| - 1]);
  }

  lemma DisplayDigitsFacts(amountMinor: int, exponent: nat)
    ensures var digits := DisplayDigits(amountMinor, exponent);
      |digits| > exponent && AllDigits(digits) && BidRules.DigitsValue(digits) == Magnitude(amountMinor)
  {
    var plain := ToDigits(Magnitude(amountMinor));
    if |plain| < exponent + 1 {
      ZerosValue(exponent + 1 - |plain|, plain);
    }
  }

  lemma ParsesWritten(p: Parts, exponent: nat)
    requires |p.whole| >= 1 && AllDigits(p.whole) && AllDigits(p.fraction) && |p.fraction| == exponent
    ensures AllDigits(p.whole + p.fraction)
    ensures ParseAmount(Written(p), exponent)
         == Some(if p.negative then 0 - BidRules.DigitsValue(p.whole + p.fraction)
                 else BidRules.DigitsValue(p.whole + p.fraction))
  {
    hide Match, TrimEnd, TrimStart, Written, BidRules.DigitsValue;
    MatchesItsParts(p);
    NothingToTrim(p);
  }

  /** Reading back what was printed gives the amount, negative or shorter than the exponent included. */
  lemma FormatThenParse(amountMinor: int, exponent: nat)
    ensures ParseAmount(FormatAmount(amountMinor, exponent), exponent) == Some(amountMinor)
  {
    hide ParseAmount, DisplayDigits, BidRules.DigitsValue;
    var digits := DisplayDigits(amountMinor, exponent);
    DisplayDigitsFacts(amountMinor, exponent);
    var cut := |digits| - exponent;
    var p := Parts(amountMinor < 0, digits[..cut], digits[cut..]);
    assert p.whole + p.fraction == digits;
    ParsesWritten(p, exponent);
  }

  // -------------------------------------------------------------------------
  // Parse, then format
  // -------------------------------------------------------------------------

  /** Leading zeros dropped, down to one digit. */
  function Stripped(digits: string): string {
    if |digits| > 1 && digits[0] == '0' then Stripped(digits[1..]) else digits
  }

  lemma {:induction false} StrippedIsCanonical(digits: string)
    requires |digits| >= 1 && AllDigits(digits)
    ensures AllDigits(Stripped(digits)) && |Stripped(digits)| >= 1
    ensures BidRules.DigitsValue(Stripped(digits)) == BidRules.DigitsValue(digits)
    ensures |Stripped(digits)| > 1 ==> Stripped(digits)[0] != '0'
    decreases |digits|
  {
    if |digits| > 1 && digits[0] == '0' {
      StrippedIsCanonical(digits[1..]);
      ZerosValue(1, digits[1..]);
      assert Zeros(1) + digits[1..] == digits;
    }
  }

  lemma {:induction false} DigitsPositive(digits: string)
    requires |digits| >= 1 && AllDigits(digits) && digits[0] != '0'
    ensures BidRules.DigitsValue(digits) > 0
    decreases |digits|
  {
    if |digits| > 1 {
      DigitsPositive(digits[..|digits| - 1]);
    } else {
      assert digits[..0] == "";
    }
  }

  lemma DigitBack(c: char)
    requires BidRules.IsDigit(c)
    ensures DigitChar(BidRules.DigitValue(c)) == c
  {
  }

  /** A value has one spelling without leading zeros. */
  lemma {:induction false} CanonicalIsUnique(digits: string)
    requires |digits| >= 1 && AllDigits(digits) && (|digits| > 1 ==> digits[0] != '0')
    ensures ToDigits(BidRules.DigitsValue(digits)) == digits
    decreases |digits|
  {
    var n := |digits| - 1;
    DigitBack(digits[n]);
    var front := digits[..n];
    assert digits == front + [digits[n]];
    if n == 0 {
      assert front == "";
    } else {
      CanonicalIsUnique(front);
      DigitsPositive(front);
      var v := BidRules.DigitsValue(front);
      assert BidRules.DigitsValue(digits) == 10 * v + BidRules.DigitValue(digits[n]);
      assert (10 * v + BidRules.DigitValue(digits[n])) / 10 == v;
      assert (10 * v + BidRules.DigitValue(digits[n])) % 10 == BidRules.DigitValue(digits[n]);
    }
  }

  /** Stripping the whole number before a fixed-width fraction is stripping and padding the two together. */
  lemma {:induction false} StripThenPad(whole: string, fraction: string)
    requires |whole| >= 1
    ensures PadStart(Stripped(whole + fraction), |fraction| + 1) == Stripped(whole) + fraction
    decreases |whole|
  {
    var all := whole + fraction;
    if |whole| > 1 && whole[0] == '0' {
      StripThenPad(whole[1..], fraction);
      assert all[1..] == whole[1..] + fraction;
    } else if |whole| == 1 && whole[0] == '0' {
      assert all[1..] == fraction;
      StripsToPad(all);
    } else {
      assert all[0] == whole[0];
    }
  }

  lemma {:induction false} StripsToPad(all: string)
    requires |all| >= 1
    ensures PadStart(Stripped(all), |all|) == all
    decreases |all|
  {
    if |all| > 1 && all[0] == '0' {
      StripsToPad(all[1..]);
      var short := Stripped(all[1..]);
      StrippedShorter(all[1..]);
      assert PadStart(short, |all| - 1) == all[1..];
      assert Zeros(|all| - |short|) == "0" + Zeros(|all| - 1 - |short|);
      assert all == "0" + all[1..];
    }
  }

  lemma StrippedShorter(digits: string)
    ensures |Stripped(digits)| <= |digits|
    ensures |Stripped(digits)| == |digits| ==> Stripped(digits) == digits
  {
  }

  /** How an accepted text reads once its spare zeros are gone and its fraction is filled out. */
  function Normalised(p: Parts, exponent: nat): string {
    var fraction := PadEnd(p.fraction, exponent);
    (if p.negative && ValueOf(p, exponent) != 0 then "-" else "")
    + Stripped(p.whole) + if exponent == 0 then "" else "." + fraction
  }

  lemma MatchIsDigits(s: string)
    ensures Match(s).Some? ==>
      |Match(s).value.whole| >= 1 && AllDigits(Match(s).value.whole) && AllDigits(Match(s).value.fraction)
  {
    if Match(s).Some? {
      var body := if s[0] == '-' then s[1..] else s;
      var rest := body[DigitRun(body)..];
      if rest == "" {
        assert body[..DigitRun(body)] == body;
      } else {
        assert rest[1..][..DigitRun(rest[1..])] == rest[1..];
      }
    }
  }

  lemma DisplayOfValue(p: Parts, exponent: nat)
    requires |p.whole| >= 1 && AllDigits(p.whole) && AllDigits(p.fraction) && |p.fraction| <= exponent
    ensures DisplayDigits(ValueOf(p, exponent), exponent) == Stripped(p.whole) + PadEnd(p.fraction, exponent)
  {
    var fraction := PadEnd(p.fraction, exponent);
    var digits := p.whole + fraction;
    assert AllDigits(fraction) && |fraction| == exponent && AllDigits(digits);
    StrippedIsCanonical(digits);
    CanonicalIsUnique(Stripped(digits));
    StripThenPad(p.whole, fraction);
  }

  lemma NormalShape(p: Parts, exponent: nat)
    requires |p.whole| >= 1 && AllDigits(p.whole) && AllDigits(p.fraction) && |p.fraction| <= exponent
    ensures FormatAmount(ValueOf(p, exponent), exponent) == Normalised(p, exponent)
  {
    hide DisplayDigits, Stripped;
    DisplayOfValue(p, exponent);
    var whole, fraction := Stripped(p.whole), PadEnd(p.fraction, exponent);
    assert |fraction| == exponent;
    assert (whole + fraction)[..|whole|] == whole && (whole + fraction)[|whole|..] == fraction;
    assert ValueOf(p, exponent) < 0 <==> p.negative && ValueOf(p, exponent) != 0;
  }

  /** Every accepted text formats to its normal form. */
  lemma ParseThenFormat(value: string, exponent: nat)
    requires ParseAmount(value, exponent).Some?
    ensures Match(TrimEnd(TrimStart(value))).Some?
    ensures FormatAmount(ParseAmount(value, exponent).value, exponent)
         == Normalised(Match(TrimEnd(TrimStart(value))).value, exponent)
  {
    hide Match, TrimEnd, TrimStart, FormatAmount, Normalised, ValueOf;
    var text := TrimEnd(TrimStart(value));
    MatchIsDigits(text);
    NormalShape(Match(text).value, exponent);
  }

  /** The printed amount alone, without its currency, for every amount and currency. */
  lemma MoneyRoundTrips(amountMinor: int, currency: Currency)
    ensures var text := FormatMoney(amountMinor, currency);
      && |text| > 4
      && text[|text| - 3..] == Code(currency)
      && ParseAmount(text[..|text| - 4], Exponent(currency)) == Some(amountMinor)
  {
    FormatThenParse(amountMinor, Exponent(currency));
    var number := FormatAmount(amountMinor, Exponent(currency));
    var text := FormatMoney(amountMinor, currency);
    assert text == number + (" " + Code(currency));
    assert |Code(currency)| == 3 && |number| > 0;
    assert text[..|text| - 4] == number;
  }

  lemma DigitsOfTwoMore(n: nat)
    ensures n >= 100 ==> ToDigits(n) == ToDigits(n / 100) + [DigitChar(n / 10 % 10), DigitChar(n % 10)]
    ensures 10 <= n < 100 ==> ToDigits(n) == [DigitChar(n / 10), DigitChar(n % 10)]
  {
    if n >= 100 {
      assert n / 10 / 10 == n / 100;
      assert ToDigits(n) == ToDigits(n / 10) + [DigitChar(n % 10)];
      assert ToDigits(n / 10) == ToDigits(n / 100) + [DigitChar(n / 10 % 10)];
    }
  }

  lemma PaddedToThree(n: nat)
    ensures DisplayDigits(n, 2) == ToDigits(n / 100) + [DigitChar(n / 10 % 10), DigitChar(n % 10)]
  {
    DigitsOfTwoMore(n);
    if n < 10 {
      assert Zeros(2) == ['0', '0'];
      assert ToDigits(n) == [DigitChar(n)];
    } else if n < 100 {
      assert Zeros(1) == ['0'];
    }
  }

  lemma CutBeforeTheLastTwo(front: string, x: char, y: char)
    ensures (front + [x, y])[..|front + [x, y]| - 2] == front && (front + [x, y])[|front + [x, y]| - 2..] == [x, y]
  {
  }

  /** In every currency: the whole units in full, a point, two digits of the minor unit, and the code. */
  lemma TwoDecimalsAndTheCode(amountMinor: nat, currency: Currency)
    ensures FormatMoney(amountMinor, currency)
         == ToDigits(amountMinor / 100) + ("." + [DigitChar(amountMinor / 10 % 10), DigitChar(amountMinor % 10)])
            + (" " + match currency case USD => "USD" case EUR => "EUR" case ETB => "ETB")
  {
    hide ToDigits, DisplayDigits, DigitChar;
    PaddedToThree(amountMinor);
    CutBeforeTheLastTwo(ToDigits(amountMinor / 100), DigitChar(amountMinor / 10 % 10), DigitChar(amountMinor % 10));
    JoinedText(ToDigits(amountMinor / 100), [DigitChar(amountMinor / 10 % 10), DigitChar(amountMinor % 10)], Code(currency));
  }

  lemma JoinedText(whole: string, two: string, code: string)
    ensures "" + whole + ("." + two) + " " + code == whole + ("." + two) + (" " + code)
  {
  }
}
