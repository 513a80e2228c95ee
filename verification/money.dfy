/**
 Exact decimal arithmetic for the checkout totals. C#'s `decimal` is exact, so
 amounts are integers in minor units (cents) and a tax rate is a decimal
 fraction `units / 10^scale`; `Math.Round(x, 2)` is .NET's default
 midpoint-to-even rounding, written out here.
 */
module Money {
  import opened Text

  /** An amount of money in hundredths of the currency unit. */
  type Cents = int

  /** A decimal fraction `units / 10^scale`; 0.05 is `Rate(5, 2)`. */
  datatype Rate = Rate(units: int, scale: nat)

  /** The default tax rate of a checkout request, 0.05. */
  const DefaultTaxRate: Rate := Rate(5, 2)

  function Abs(x: int): nat {
    if x < 0 then -x else x
  }

  /** `r` is `n / d` rounded to the nearest integer, with a value exactly
      half-way between two integers going to the even one. */
  ghost predicate IsHalfEvenRounding(n: int, d: int, r: int)
    requires d > 0
  {
    var e := r * d - n;
    2 * Abs(e) < d || (2 * Abs(e) == d && r % 2 == 0)
  }

  /** `n / d` rounded half to even (banker's rounding). */
  function RoundHalfEven(n: int, d: int): (r: int)
    requires d > 0
    ensures IsHalfEvenRounding(n, d, r)
  {
    var q := n / d;
    var rem := n % d;
    assert n == q * d + rem;
    assert (q + 1) * d - n == d - rem;
    if 2 * rem < d then q
    else if 2 * rem > d then q + 1
    else if q % 2 == 0 then q
    else q + 1
  }

  lemma AbsOfMultiple(k: int, d: int)
    requires d > 0
    ensures Abs(k * d) == Abs(k) * d
  {
    if k < 0 {
      assert -(k * d) == (-k) * d;
    }
  }

  lemma MultipleBoundsFactor(a: nat, d: int)
    requires d > 0 && a * d <= d
    ensures a <= 1
  {
    if a >= 1 {
      assert a * d == (a - 1) * d + d;
      assert (a - 1) * d >= a - 1;
    }
  }

  lemma MultipleWithinOne(k: int, d: int)
    requires d > 0 && Abs(k * d) <= d
    ensures (k == 0 && k * d == 0) || (k == 1 && k * d == d) || (k == -1 && k * d == -d)
  {
    AbsOfMultiple(k, d);
    MultipleBoundsFactor(Abs(k), d);
  }

  lemma DistributeDifference(r: int, s: int, d: int)
    ensures (r - s) * d == r * d - s * d
  {
  }

  /** Half-to-even rounding has exactly one answer: the function above is
      the rounding, not merely a rounding. */
  lemma HalfEvenRoundingUnique(n: int, d: int, r: int)
    requires d > 0
    requires IsHalfEvenRounding(n, d, r)
    ensures r == RoundHalfEven(n, d)
  {
    var s := RoundHalfEven(n, d);
    var e1 := r * d - n;
    var e2 := s * d - n;
    DistributeDifference(r, s, d);
    assert (r - s) * d == e1 - e2;
    MultipleWithinOne(r - s, d);
  }

  /** A non-negative quotient rounds to a non-negative value. */
  lemma RoundHalfEvenNonNegative(n: int, d: int)
    requires d > 0 && n >= 0
    ensures RoundHalfEven(n, d) >= 0
  {
    assert n / d >= 0;
  }

  lemma ProductNonNegative(a: int, b: int)
    requires a >= 0 && b >= 0
    ensures a * b >= 0
  {
  }

  /** `taxRate < 0 ? 0 : taxRate`. */
  function ClampRate(rate: Rate): (r: Rate)
    ensures r.units >= 0
    ensures rate.units >= 0 ==> r == rate
    ensures rate.units < 0 ==> r.units == 0
  {
    if rate.units < 0 then Rate(0, rate.scale) else rate
  }

  /** `Math.Round(taxable * rate, 2)` in cents: the product of an amount in
      cents and the rate, rounded half to even to a whole number of cents. */
  function TaxAmount(taxable: Cents, rate: Rate): (tax: Cents)
    ensures IsHalfEvenRounding(taxable * rate.units, Pow10(rate.scale), tax)
    ensures taxable >= 0 && rate.units >= 0 ==> tax >= 0
  {
    var n := taxable * rate.units;
    var d := Pow10(rate.scale);
    assert taxable >= 0 && rate.units >= 0 ==> RoundHalfEven(n, d) >= 0 by {
      if taxable >= 0 && rate.units >= 0 {
        ProductNonNegative(taxable, rate.units);
        RoundHalfEvenNonNegative(n, d);
      }
    }
    RoundHalfEven(n, d)
  }

  /** 30.00 at the default rate of 0.05 is 1.50 of tax. */
  lemma TaxOfThirty()
    ensures TaxAmount(3000, DefaultTaxRate) == 150
  {
    HalfEvenRoundingUnique(15000, 100, 150);
  }

  /** A midpoint rounds to even: 2.50 at 0.05 is 0.125, charged as 0.12
      rather than 0.13. */
  lemma TaxMidpointGoesToEven()
    ensures TaxAmount(250, DefaultTaxRate) == 12
  {
    HalfEvenRoundingUnique(1250, 100, 12);
  }
}
