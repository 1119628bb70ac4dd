/** Amounts of money as integer cents (centavos of a quetzal), and the card surcharge. */
module Money {
  import opened Numbers

  /** `Number.prototype.toFixed(2)` applied to an exact amount given in hundredths of a cent:
      the nearest whole cent, halves rounded away from zero. */
  function RoundToCents(hundredths: int): (r: int)
    ensures -50 <= hundredths - 100 * r <= 50
    ensures hundredths - 100 * r == 50 ==> hundredths < 0
    ensures hundredths - 100 * r == -50 ==> hundredths >= 0
  {
    if hundredths >= 0 then (hundredths + 50) / 100 else -((-hundredths + 50) / 100)
  }

  /** A subtotal in cents multiplied by `(100 + percent) / 100` and rounded to cents,
      as `(total * 1.05).toFixed(2)` does for a `percent` of 5. */
  function Surcharged(subtotal: int, percent: int): (r: int)
    ensures -50 <= subtotal * (100 + percent) - 100 * r <= 50
  {
    RoundToCents(subtotal * (100 + percent))
  }

  /** A non-negative surcharge never lowers a non-negative subtotal, and adds at most
      the exact surcharge plus half a cent. */
  lemma SurchargeBounds(subtotal: int, percent: int)
    requires subtotal >= 0 && percent >= 0
    ensures subtotal <= Surcharged(subtotal, percent)
    ensures 100 * Surcharged(subtotal, percent) <= subtotal * (100 + percent) + 50
  {
    var x := subtotal * (100 + percent);
    assert x == 100 * subtotal + subtotal * percent;
    assert subtotal * percent >= 0;
  }

  /** `x.toFixed(2)` for a decimal `x` read by `parseFloat`, in cents: the nearest whole cent,
      halves rounded away from zero. */
  function DecimalCents(d: Decimal): (r: int)
    ensures var p: int := Pow10(d.places); var c := if d.negative then -r else r;
            c >= 0 && -p <= 2 * 100 * d.mantissa - 2 * p * c < p
  {
    var p := Pow10(d.places);
    var c := (2 * 100 * d.mantissa + p) / (2 * p);
    DivisionBounds(2 * 100 * d.mantissa + p, 2 * p);
    if d.negative then -c else c
  }

  /** The quotient of Euclidean division by a positive divisor brackets the dividend. */
  lemma DivisionBounds(n: int, q: int)
    requires n >= 0 && q > 0
    ensures n / q >= 0
    ensures q * (n / q) <= n < q * (n / q) + q
  {
  }

  /** A decimal with two places is already a whole number of cents, so `toFixed(2)` keeps it. */
  lemma DecimalCentsOfCents(negative: bool, cents: nat)
    ensures DecimalCents(Decimal(negative, cents, 2)) == (if negative then -(cents as int) else cents)
  {
    var p := Pow10(2);
    assert p == 100;
    assert (2 * 100 * cents + p) / (2 * p) == cents;
  }

  /** A zero amount rounds to zero cents, whatever its sign and number of places. */
  lemma DecimalCentsOfZero(negative: bool, places: nat)
    ensures DecimalCents(Decimal(negative, 0, places)) == 0
  {
    var r := DecimalCents(Decimal(negative, 0, places));
    var p: int := Pow10(places);
    var c := if negative then -r else r;
    assert c >= 0 && -p <= -2 * p * c;
    if c >= 1 {
      MulAtLeast(2 * p, c);
    }
  }

  lemma MulAtLeast(a: int, b: int)
    requires a >= 0 && b >= 1
    ensures a * b >= a
  {
    assert a * b == a + a * (b - 1);
  }
}
