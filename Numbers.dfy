/** The JavaScript number conversions the screens rely on: `String(n)` for integers, `toFixed(2)`,
    `parseInt` and `parseFloat` (decimal notation only). Amounts are exact: no binary floating point. */
module Numbers {
  import opened Wrappers
  import opened Text

  predicate IsDigit(c: char)
  {
    '0' <= c <= '9'
  }

  predicate AllDigits(s: string)
  {
    forall i :: 0 <= i < |s| ==> IsDigit(s[i])
  }

  function DigitChar(d: nat): (c: char)
    requires d < 10
    ensures IsDigit(c) && c as int - '0' as int == d
  {
    ('0' as int + d) as char
  }

  function DigitValue(c: char): (d: nat)
    requires IsDigit(c)
    ensures d < 10 && DigitChar(d) == c
  {
    c as int - '0' as int
  }

  /** The decimal digits of `n`, without leading zeros. */
  function Digits(n: nat): (r: string)
    ensures r != [] && AllDigits(r)
  {
    if n < 10 then [DigitChar(n)] else Digits(n / 10) + [DigitChar(n % 10)]
  }

  /** The value of a string of decimal digits. */
  function DigitsValue(s: string): nat
    requires AllDigits(s)
  {
    if |s| == 0 then 0 else 10 * DigitsValue(s[..|s| - 1]) + DigitValue(s[|s| - 1])
  }

  /** Reading back the digits of `n` gives `n`. */
  lemma {:induction false} DigitsValueOfDigits(n: nat)
    ensures DigitsValue(Digits(n)) == n
  {
    if n >= 10 {
      DigitsValueOfDigits(n / 10);
      var s := Digits(n);
      assert s[..|s| - 1] == Digits(n / 10);
    }
  }

  /** `String(n)` for an integer `n`. */
  function IntegerText(n: int): (r: string)
    ensures r != [] && !IsWhitespace(r[0])
    ensures |r| >= 1 && (r[0] == '-' || IsDigit(r[0]))
  {
    if n < 0 then "-" + Digits(-n) else Digits(n)
  }

  /** An optional minus sign, the digits of `units`, a point and the two digits of `hundredths`. */
  function FixedParts(negative: bool, units: nat, hundredths: nat): (r: string)
    requires hundredths < 100
    ensures |r| >= 4 && r[|r| - 3] == '.'
  {
    (if negative then "-" else "") + Digits(units) + ['.'] + [DigitChar(hundredths / 10), DigitChar(hundredths % 10)]
  }

  /** `x.toFixed(2)` for an amount of `cents` hundredths: integer part, a point, two digits. */
  function FixedText(cents: int): (r: string)
    ensures |r| >= 4 && r[|r| - 3] == '.'
  {
    var m := if cents < 0 then -cents else cents;
    FixedParts(cents < 0, m / 100, m % 100)
  }

  /** The index just past the run of digits that starts at `i`. */
  function DigitRunEnd(s: string, i: nat): (k: nat)
    requires i <= |s|
    ensures i <= k <= |s|
    ensures AllDigits(s[i..k])
    ensures k == |s| || !IsDigit(s[k])
    decreases |s| - i
  {
    if i < |s| && IsDigit(s[i]) then DigitRunEnd(s, i + 1) else i
  }

  /** A maximal run of digits from `i` to `j` is the one `DigitRunEnd` finds. */
  lemma {:induction false} DigitRunEndAt(s: string, i: nat, j: nat)
    requires i <= j <= |s|
    requires forall m :: i <= m < j ==> IsDigit(s[m])
    requires j == |s| || !IsDigit(s[j])
    ensures DigitRunEnd(s, i) == j
    decreases j - i
  {
    if i < j {
      DigitRunEndAt(s, i + 1, j);
    }
  }

  /** The index after an optional `+` or `-` at `k`. */
  function AfterSign(s: string, k: nat): (r: nat)
    requires k <= |s|
    ensures k <= r <= |s|
  {
    if k < |s| && (s[k] == '-' || s[k] == '+') then k + 1 else k
  }

  predicate NegativeAt(s: string, k: nat)
  {
    k < |s| && s[k] == '-'
  }

  function Signed(negative: bool, v: real): real
  {
    if negative then -v else v
  }

  function Pow10(n: nat): (r: nat)
    ensures r >= 1
  {
    if n == 0 then 1 else 10 * Pow10(n - 1)
  }

  /** `n` followed by `places` zero digits. */
  function Shift(n: nat, places: nat): (r: nat)
  {
    if places == 0 then n else 10 * Shift(n, places - 1)
  }

  lemma {:induction false} ShiftIsProduct(n: nat, places: nat)
    ensures Shift(n, places) == n * Pow10(places)
  {
    if places > 0 {
      ShiftIsProduct(n, places - 1);
    }
  }

  /** `parseInt(s)` in base 10: leading whitespace, an optional sign, then the longest run of
      digits; `None` (NaN) when there is no digit. */
  function ParseInt(s: string): (r: Option<int>)
    ensures IsBlank(s) ==> r.None?
  {
    var k := SkipWhitespace(s, 0);
    var start := AfterSign(s, k);
    var end := DigitRunEnd(s, start);
    if end == start then None
    else
      var v: int := DigitsValue(s[start..end]);
      Some(if NegativeAt(s, k) then -v else v)
  }

  /** A decimal number as `parseFloat` reads it: `mantissa / 10^places`, negated when `negative`. */
  datatype Decimal = Decimal(negative: bool, mantissa: nat, places: nat)
  {
    function Value(): real
    {
      Signed(negative, mantissa as real / Pow10(places) as real)
    }
  }

  /** The unsigned decimal at `start`: digits, then optionally a point and more digits, with at
      least one digit in all; `None` when there is none. */
  function UnsignedDecimal(s: string, start: nat): (r: Option<Decimal>)
    requires start <= |s|
    ensures r.Some? ==> !r.value.negative
  {
    var intEnd := DigitRunEnd(s, start);
    var whole := DigitsValue(s[start..intEnd]);
    if intEnd < |s| && s[intEnd] == '.' then
      var fracEnd := DigitRunEnd(s, intEnd + 1);
      var places := fracEnd - intEnd - 1;
      if intEnd == start && places == 0 then None
      else Some(Decimal(false, Shift(whole, places) + DigitsValue(s[intEnd + 1..fracEnd]), places))
    else if intEnd == start then None
    else Some(Decimal(false, whole, 0))
  }

  /** `parseFloat(s)` for decimal notation: leading whitespace, an optional sign, then an unsigned
      decimal; `None` (NaN) when there is no digit. */
  function ParseFloat(s: string): (r: Option<Decimal>)
    ensures IsBlank(s) ==> r.None?
  {
    var k := SkipWhitespace(s, 0);
    match UnsignedDecimal(s, AfterSign(s, k))
    case None => None
    case Some(d) => Some(d.(negative := NegativeAt(s, k)))
  }

  /** `parseInt` reads back `String(n)`, and stops at the first character that is not a digit. */
  lemma {:induction false} ParseIntOfIntegerText(n: int, rest: string)
    requires rest == [] || !IsDigit(rest[0])
    ensures ParseInt(IntegerText(n) + rest) == Some(n)
  {
    var s := IntegerText(n) + rest;
    var m := if n < 0 then -n else n;
    var sign := if n < 0 then 1 else 0;
    var ds := Digits(m);
    assert s == (if n < 0 then "-" else "") + ds + rest;
    assert SkipWhitespace(s, 0) == 0;
    assert AfterSign(s, 0) == sign;
    DigitRunEndAt(s, sign, sign + |ds|);
    assert s[sign..sign + |ds|] == ds;
    DigitsValueOfDigits(m);
  }

  /** An unsigned decimal that runs from `start` to the end of `s` with its point at `point`. */
  lemma {:induction false} UnsignedDecimalPointed(s: string, start: nat, point: nat, places: nat, v: nat)
    requires start < point < |s| && s[point] == '.' && places == |s| - point - 1
    requires AllDigits(s[start..point]) && AllDigits(s[point + 1..|s|])
    requires Shift(DigitsValue(s[start..point]), places) + DigitsValue(s[point + 1..|s|]) == v
    ensures UnsignedDecimal(s, start) == Some(Decimal(false, v, places))
  {
    forall i | start <= i < point
      ensures IsDigit(s[i])
    {
      assert s[i] == s[start..point][i - start];
    }
    forall i | point < i < |s|
      ensures IsDigit(s[i])
    {
      assert s[i] == s[point + 1..|s|][i - point - 1];
    }
    DigitRunEndAt(s, start, point);
    DigitRunEndAt(s, point + 1, |s|);
  }

  /** `parseFloat` of a string that is an optional minus sign, digits, a point and more digits,
      given by the positions where the digits and the point start. */
  lemma ParseFloatPointedAt(s: string, start: nat, point: nat, mantissa: nat, places: nat)
    requires start <= 1 && start < point < |s| && s[point] == '.'
    requires start == 1 ==> s[0] == '-'
    requires AllDigits(s[start..point]) && UnsignedDecimal(s, start) == Some(Decimal(false, mantissa, places))
    ensures ParseFloat(s) == Some(Decimal(start == 1, mantissa, places))
  {
    assert start == 0 ==> s[0] == s[start..point][0];
    assert !IsWhitespace(s[0]);
    assert AfterSign(s, 0) == start;
    ParseFloatOfUnsigned(s, Decimal(false, mantissa, places));
    assert NegativeAt(s, 0) == (start == 1);
  }

  /** Where the digits, the point and the tail sit in `sign + ds + "." + tail`. */
  lemma PointedSlices(sign: string, ds: string, tail: string)
    ensures var s := sign + ds + ['.'] + tail;
            && |s| == |sign| + |ds| + 1 + |tail| && s[|sign| + |ds|] == '.'
            && s[|sign|..|sign| + |ds|] == ds && s[|sign| + |ds| + 1..|s|] == tail
            && (|sign| > 0 ==> s[0] == sign[0])
  {
    var s := sign + ds + ['.'] + tail;
    assert s[|sign|..|sign| + |ds|] == ds;
    assert s[|sign| + |ds| + 1..|s|] == tail;
  }

  /** With no leading whitespace, `parseFloat` is the unsigned decimal after the sign, negated
      when the sign is `-`. */
  lemma ParseFloatOfUnsigned(s: string, d: Decimal)
    requires s != [] && !IsWhitespace(s[0]) && UnsignedDecimal(s, AfterSign(s, 0)) == Some(d)
    ensures ParseFloat(s) == Some(d.(negative := NegativeAt(s, 0)))
  {
    assert SkipWhitespace(s, 0) == 0;
  }

  /** `parseFloat` of an optional minus sign, digits, a point and more digits. */
  lemma ParseFloatOfPointed(negative: bool, ds: string, tail: string, v: nat)
    requires ds != [] && AllDigits(ds) && AllDigits(tail)
    requires Shift(DigitsValue(ds), |tail|) + DigitsValue(tail) == v
    ensures ParseFloat((if negative then "-" else "") + ds + ['.'] + tail) == Some(Decimal(negative, v, |tail|))
  {
    var sign := if negative then "-" else "";
    var s := sign + ds + ['.'] + tail;
    PointedSlices(sign, ds, tail);
    UnsignedDecimalPointed(s, |sign|, |sign| + |ds|, |tail|, v);
    ParseFloatPointedAt(s, |sign|, |sign| + |ds|, v, |tail|);
  }

  /** Two digits read back as their value. */
  lemma {:induction false} TwoDigitsValue(h: nat)
    requires h < 100
    ensures DigitsValue([DigitChar(h / 10), DigitChar(h % 10)]) == h
  {
    var t := [DigitChar(h / 10), DigitChar(h % 10)];
    assert t[..1] == [t[0]];
    assert [t[0]][..0] == [];
    assert DigitsValue([t[0]]) == DigitValue(t[0]) == h / 10;
    assert DigitValue(t[1]) == h % 10;
  }

  lemma {:induction false} ParseFloatOfFixedParts(negative: bool, units: nat, hundredths: nat)
    requires hundredths < 100
    ensures ParseFloat(FixedParts(negative, units, hundredths)) == Some(Decimal(negative, units * 100 + hundredths, 2))
  {
    var tail := [DigitChar(hundredths / 10), DigitChar(hundredths % 10)];
    FixedPartsValue(units, hundredths);
    ParseFloatOfPointed(negative, Digits(units), tail, units * 100 + hundredths);
  }

  /** The digits `toFixed(2)` writes stand for the amount in hundredths. */
  lemma FixedPartsValue(units: nat, hundredths: nat)
    requires hundredths < 100
    ensures var tail := [DigitChar(hundredths / 10), DigitChar(hundredths % 10)];
            |tail| == 2 && Shift(DigitsValue(Digits(units)), |tail|) + DigitsValue(tail) == units * 100 + hundredths
  {
    DigitsValueOfDigits(units);
    assert Shift(units, 2) == 10 * Shift(units, 1) == 100 * units;
    TwoDigitsValue(hundredths);
  }

  /** `parseFloat(x.toFixed(2))` reads back exactly the amount in cents that was formatted. */
  lemma {:induction false} ParseFloatOfFixedText(cents: int)
    ensures ParseFloat(FixedText(cents)) == Some(Decimal(cents < 0, if cents < 0 then -cents else cents, 2))
  {
    var m: nat := if cents < 0 then -cents else cents;
    var units, hundredths := CentsSplit(m);
    var text := FixedParts(cents < 0, units, hundredths);
    assert FixedText(cents) == text;
    ParseFloatOfFixedParts(cents < 0, units, hundredths);
    assert Decimal(cents < 0, units * 100 + hundredths, 2) == Decimal(cents < 0, m, 2);
  }

  /** An amount in cents as whole units and hundredths. */
  lemma CentsSplit(m: nat) returns (units: nat, hundredths: nat)
    ensures units == m / 100 && hundredths == m % 100
    ensures hundredths < 100 && units * 100 + hundredths == m
  {
    units, hundredths := m / 100, m % 100;
  }
}
