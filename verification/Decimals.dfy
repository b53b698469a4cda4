/**
  Decimal numbers as Python's `decimal` module has them under its default
  context (28 digits), and the one operation `Money` needs of them:
  `quantize(Decimal("0.01"), rounding=ROUND_HALF_UP)`.
  The rounding rules are those of the `quantize` operation of the General
  Decimal Arithmetic specification.
*/
module Decimals {
  import opened Prelude

  /** Ten to the 28th: no quantised coefficient may reach it. */
  const COEFFICIENT_LIMIT: nat := 10_000_000_000_000_000_000_000_000_000

  datatype Decimal =
    | Finite(negative: bool, coefficient: nat, exponent: int)
    | Infinity(negative: bool)
    | NaN

  datatype DecimalError = InvalidOperation

  function Pow10(k: nat): (p: nat)
    ensures p >= 1
  {
    if k == 0 then 1 else 10 * Pow10(k - 1)
  }

  /** The coefficient limit is the context's 28 digits. */
  lemma LimitHas28Digits()
    ensures COEFFICIENT_LIMIT == Pow10(28)
  {
    assert Pow10(7) == 10_000_000;
    Pow10Sum(7, 7);
    Pow10Sum(14, 14);
  }

  lemma {:induction false} Pow10Sum(a: nat, b: nat)
    ensures Pow10(a + b) == Pow10(a) * Pow10(b)
  {
    if a != 0 {
      Pow10Sum(a - 1, b);
      assert Pow10(a + b) == 10 * Pow10(a - 1 + b);
    }
  }

  // ----- Rounding a magnitude ---------------------------------------------

  /** `c / p` rounded to the nearest integer, halves away from zero. */
  function HalfUp(c: nat, p: nat): (r: nat)
    requires p > 0
  {
    c / p + (if 2 * (c % p) >= p then 1 else 0)
  }

  /** `r` is the nearest integer to `c / p`; an exact half goes up. */
  ghost predicate NearestHalfUp(c: nat, p: nat, r: nat)
    requires p > 0
  {
    2 * (r * p) - p <= 2 * c < 2 * (r * p) + p
  }

  lemma HalfUpIsNearest(c: nat, p: nat)
    requires p > 0
    ensures NearestHalfUp(c, p, HalfUp(c, p))
  {
    var q, m := c / p, c % p;
    assert c == q * p + m;
    if 2 * m >= p {
      assert (q + 1) * p == q * p + p;
    }
  }

  lemma NearestMonotone(c: nat, d: nat, p: nat, r: nat, s: nat)
    requires p > 0 && c <= d && NearestHalfUp(c, p, r) && NearestHalfUp(d, p, s)
    ensures r <= s
  {
    assert (r - s) * p == r * p - s * p;
    BelowOne(r - s, p);
  }

  lemma NearestIsUnique(c: nat, p: nat, r: nat, s: nat)
    requires p > 0 && NearestHalfUp(c, p, r) && NearestHalfUp(c, p, s)
    ensures r == s
  {
    NearestMonotone(c, c, p, r, s);
    NearestMonotone(c, c, p, s, r);
  }

  lemma BelowOne(a: int, p: nat)
    requires a * p < p
    ensures a <= 0
  {
    if a >= 1 {
      MulMono(1, a, p);
    }
  }

  lemma MulMono(a: nat, b: nat, p: nat)
    requires a <= b
    ensures a * p <= b * p
  {
  }

  lemma HalfUpMonotone(c: nat, d: nat, p: nat)
    requires p > 0 && c <= d
    ensures HalfUp(c, p) <= HalfUp(d, p)
  {
    HalfUpIsNearest(c, p);
    HalfUpIsNearest(d, p);
    NearestMonotone(c, d, p, HalfUp(c, p), HalfUp(d, p));
  }

  lemma HalfUpExact(c: nat, p: nat)
    requires p > 0
    ensures HalfUp(c * p, p) == c
  {
    assert NearestHalfUp(c * p, p, c);
    HalfUpIsNearest(c * p, p);
    NearestIsUnique(c * p, p, c, HalfUp(c * p, p));
  }

  /** Rounding does not depend on the unit the number is written in. */
  lemma HalfUpRescale(c: nat, p: nat, k: nat)
    requires p > 0 && k > 0
    ensures p * k > 0 && HalfUp(c * k, p * k) == HalfUp(c, p)
  {
    var r := HalfUp(c, p);
    HalfUpIsNearest(c, p);
    assert p * k > 0 by { MulMono(1, p, k); }
    var a, b, e := 2 * (r * p) - p, 2 * c, 2 * (r * p) + p;
    ScaleBounds(a, b, e, k);
    assert a * k == 2 * (r * (p * k)) - p * k by { RescaleIdentity(r, p, k, -1); }
    assert e * k == 2 * (r * (p * k)) + p * k by { RescaleIdentity(r, p, k, 1); }
    assert b * k == 2 * (c * k);
    assert NearestHalfUp(c * k, p * k, r);
    HalfUpIsNearest(c * k, p * k);
    NearestIsUnique(c * k, p * k, r, HalfUp(c * k, p * k));
  }

  lemma ScaleBounds(a: int, b: int, e: int, k: nat)
    requires a <= b < e && k > 0
    ensures a * k <= b * k < e * k
  {
    assert (b - a) * k >= 0;
    assert (e - b) * k > 0;
  }

  lemma RescaleIdentity(r: nat, p: nat, k: nat, s: int)
    ensures (2 * (r * p) + s * p) * k == 2 * (r * (p * k)) + s * (p * k)
  {
    assert (r * p) * k == r * (p * k);
    assert (s * p) * k == s * (p * k);
  }

  // ----- Quantising to cents ------------------------------------------------

  /** The magnitude of the quantised number, counted in cents. */
  function QuantizedMagnitude(coefficient: nat, exponent: int): (r: nat)
  {
    if exponent >= -2 then coefficient * Pow10(exponent + 2)
    else HalfUp(coefficient, Pow10(-2 - exponent))
  }

  function Signed(negative: bool, magnitude: nat): int {
    if negative then 0 - magnitude else magnitude
  }

  /**
    `d.quantize(Decimal("0.01"), rounding=ROUND_HALF_UP)` as a signed number of
    cents, followed by the comparison with zero that rejects a NaN.
  */
  function QuantizeCents(d: Decimal): Result<int, DecimalError> {
    match d
    case Finite(negative, coefficient, exponent) =>
      var magnitude := QuantizedMagnitude(coefficient, exponent);
      if magnitude < COEFFICIENT_LIMIT then Ok(Signed(negative, magnitude)) else Err(InvalidOperation)
    case Infinity(_) => Err(InvalidOperation)
    case NaN => Err(InvalidOperation)
  }

  /** The number of cents `n` written as a decimal with two places. */
  function OfCents(n: int): Decimal {
    Finite(n < 0, if n < 0 then -n else n, -2)
  }

  // ----- Comparing decimals ---------------------------------------------------

  /** The value of a finite `d` counted in units of ten to the `unit`. */
  function InUnits(d: Decimal, unit: int): int
    requires d.Finite? && unit <= d.exponent
  {
    Signed(d.negative, d.coefficient * Pow10(d.exponent - unit))
  }

  function Min(a: int, b: int): int {
    if a < b then a else b
  }

  predicate LessEq(x: Decimal, y: Decimal)
    requires x.Finite? && y.Finite?
  {
    var unit := Min(x.exponent, y.exponent);
    InUnits(x, unit) <= InUnits(y, unit)
  }

  predicate Less(x: Decimal, y: Decimal)
    requires x.Finite? && y.Finite?
  {
    !LessEq(y, x)
  }

  lemma InUnitsShift(d: Decimal, unit: int, finer: int)
    requires d.Finite? && finer <= unit <= d.exponent
    ensures InUnits(d, finer) == InUnits(d, unit) * Pow10(unit - finer)
  {
    Pow10Sum(d.exponent - unit, unit - finer);
    Associate(d.coefficient, Pow10(d.exponent - unit), Pow10(unit - finer));
    SignedTimes(d.negative, d.coefficient * Pow10(d.exponent - unit), Pow10(unit - finer));
  }

  lemma SignedTimes(negative: bool, n: nat, k: nat)
    ensures Signed(negative, n * k) == Signed(negative, n) * k
  {
  }

  /** Comparison gives the same answer in every unit that is fine enough. */
  lemma LessEqInUnits(x: Decimal, y: Decimal, unit: int)
    requires x.Finite? && y.Finite? && unit <= x.exponent && unit <= y.exponent
    ensures LessEq(x, y) <==> InUnits(x, unit) <= InUnits(y, unit)
  {
    var u := Min(x.exponent, y.exponent);
    InUnitsShift(x, u, unit);
    InUnitsShift(y, u, unit);
    ScaleOrder(InUnits(x, u), InUnits(y, u), Pow10(u - unit));
  }

  lemma ScaleOrder(a: int, b: int, k: nat)
    requires k > 0
    ensures a <= b <==> a * k <= b * k
  {
    if a <= b {
      assert (b - a) * k >= 0;
      assert (b - a) * k == b * k - a * k;
    } else {
      assert (a - b - 1) * k >= 0;
      assert (a - b) * k == (a - b - 1) * k + k;
      assert (a - b) * k == a * k - b * k;
    }
  }

  /** Rounding with a sign: the magnitude is rounded, then the sign is put back. */
  function RoundSigned(n: int, p: nat): int
    requires p > 0
  {
    if n < 0 then 0 - HalfUp(-n, p) else HalfUp(n, p)
  }

  lemma RoundSignedMonotone(a: int, b: int, p: nat)
    requires p > 0 && a <= b
    ensures RoundSigned(a, p) <= RoundSigned(b, p)
  {
    if 0 <= a {
      HalfUpMonotone(a, b, p);
    } else if b < 0 {
      HalfUpMonotone(-b, -a, p);
    }
  }

  /** Quantising a number is rounding its value, whatever unit that value is counted in. */
  lemma QuantizedInUnits(d: Decimal, unit: int)
    requires d.Finite? && unit <= d.exponent && unit <= -2
    ensures Signed(d.negative, QuantizedMagnitude(d.coefficient, d.exponent))
         == RoundSigned(InUnits(d, unit), Pow10(-2 - unit))
  {
    MagnitudeInUnits(d.coefficient, d.exponent, unit);
    HalfUpExact(0, Pow10(-2 - unit));
  }

  lemma MagnitudeInUnits(c: nat, e: int, unit: int)
    requires unit <= e && unit <= -2
    ensures QuantizedMagnitude(c, e) == HalfUp(c * Pow10(e - unit), Pow10(-2 - unit))
  {
    if e >= -2 {
      Pow10Sum(e + 2, -2 - unit);
      Associate(c, Pow10(e + 2), Pow10(-2 - unit));
      HalfUpExact(c * Pow10(e + 2), Pow10(-2 - unit));
    } else {
      Pow10Sum(-2 - e, e - unit);
      HalfUpRescale(c, Pow10(-2 - e), Pow10(e - unit));
    }
  }

  lemma Associate(a: nat, b: nat, c: nat)
    ensures a * (b * c) == (a * b) * c
  {
  }
}
