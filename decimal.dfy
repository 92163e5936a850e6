/** `strconv.ParseInt(s, 10, 64)`: an optional sign, at least one decimal digit,
    and a value that fits in `int64`; anything else is an error. `FormatInt` is its
    inverse (`strconv.FormatInt(n, 10)`), against which the parser is checked. */
module Decimal {
  import opened Base

  const Zero: byte := 48
  const Plus: byte := 43
  const Minus: byte := 45

  predicate IsDigit(b: byte) {
    Zero <= b <= Zero + 9
  }

  predicate AllDigits(s: Bytes) {
    forall i | 0 <= i < |s| :: IsDigit(s[i])
  }

  /** The value of a run of decimal digits, most significant first. */
  function DigitsValue(s: Bytes): nat
    requires AllDigits(s)
  {
    if s == [] then 0 else DigitsValue(s[..|s| - 1]) * 10 + (s[|s| - 1] - Zero)
  }

  function ParseInt64(s: Bytes): (r: Option<int64>)
    ensures r.Some? ==> |s| > 0
    ensures r.Some? && s[0] == Minus ==> r.value <= 0
    ensures r.Some? && s[0] != Minus ==> r.value >= 0
  {
    if |s| == 0 then None
    else
      var negative := s[0] == Minus;
      var digits := if s[0] == Minus || s[0] == Plus then s[1..] else s;
      if |digits| == 0 || !AllDigits(digits) then None
      else
        var v: int := if negative then -(DigitsValue(digits) as int) else DigitsValue(digits);
        if Int64Min <= v <= Int64Max then Some(v) else None
  }

  /** The decimal digits of a natural number, without leading zeros. */
  function Digits(n: nat): (r: Bytes)
    ensures |r| > 0 && AllDigits(r)
    ensures DigitsValue(r) == n
  {
    if n < 10 then [Zero + n]
    else
      var r := Digits(n / 10) + [Zero + n % 10];
      assert r[..|r| - 1] == Digits(n / 10);
      r
  }

  function FormatInt(n: int64): (r: Bytes)
    ensures |r| > 0
  {
    if n < 0 then [Minus] + Digits(-(n as int)) else Digits(n)
  }

  /** Every `int64` written in decimal parses back to itself. */
  lemma ParseFormatRoundTrip(n: int64)
    ensures ParseInt64(FormatInt(n)) == Some(n)
  {
    var s := FormatInt(n);
    if n < 0 {
      assert s[1..] == Digits(-(n as int));
    } else {
      assert IsDigit(s[0]);
    }
  }

  /** A run of digits in range parses to its value, and one out of range is
      rejected, as `strconv.ParseInt` reports `ErrRange`. */
  lemma DigitsParse(d: Bytes)
    requires |d| > 0 && AllDigits(d)
    ensures DigitsValue(d) <= Int64Max ==> ParseInt64(d) == Some(DigitsValue(d) as int64)
    ensures DigitsValue(d) > Int64Max ==> ParseInt64(d) == None
  {
    assert IsDigit(d[0]);
  }

  /** A leading `-` negates the value of the digits that follow; `-9223372036854775808`
      is accepted although its digits alone are out of range. */
  lemma MinusNegates(d: Bytes)
    requires |d| > 0 && AllDigits(d)
    ensures DigitsValue(d) <= -Int64Min ==> ParseInt64([Minus] + d) == Some(-(DigitsValue(d) as int) as int64)
    ensures DigitsValue(d) > -Int64Min ==> ParseInt64([Minus] + d) == None
  {
    assert ([Minus] + d)[1..] == d;
  }

  /** A leading `+` is ignored. */
  lemma PlusIgnored(d: Bytes)
    requires |d| > 0 && AllDigits(d)
    ensures ParseInt64([Plus] + d) == ParseInt64(d)
  {
    assert ([Plus] + d)[1..] == d;
    assert IsDigit(d[0]);
  }

  /** Leading zeros are ignored: `"007"` is 7. */
  lemma LeadingZeroIgnored(d: Bytes)
    requires |d| > 0 && AllDigits(d)
    ensures ParseInt64([Zero] + d) == ParseInt64(d)
  {
    assert AllDigits([Zero] + d) by {
      assert forall i | 0 < i < |[Zero] + d| :: ([Zero] + d)[i] == d[i - 1];
    }
    LeadingZeroValue(d);
    assert IsDigit(d[0]);
  }

  lemma {:induction false} LeadingZeroValue(d: Bytes)
    requires AllDigits(d)
    ensures AllDigits([Zero] + d) && DigitsValue([Zero] + d) == DigitsValue(d)
    decreases |d|
  {
    var z := [Zero] + d;
    assert forall i | 0 < i < |z| :: z[i] == d[i - 1];
    if d != [] {
      var init := d[..|d| - 1];
      assert z[..|z| - 1] == [Zero] + init;
      assert z[|z| - 1] == d[|d| - 1];
      LeadingZeroValue(init);
    }
  }

  /** Nothing that parses needs a character other than a sign and digits. */
  lemma ParsedHasDecimalShape(s: Bytes)
    requires ParseInt64(s).Some?
    ensures forall i | 0 < i < |s| :: IsDigit(s[i])
    ensures IsDigit(s[0]) || s[0] == Plus || s[0] == Minus
    ensures s[0] == Plus || s[0] == Minus ==> |s| > 1
  {
    var digits := if s[0] == Minus || s[0] == Plus then s[1..] else s;
    assert forall i | 0 < i < |s| :: s[i] == (if s[0] == Minus || s[0] == Plus then digits[i - 1] else digits[i]);
  }
}
