/** `Money`: construction by quantising, and the two operators that move balances. */
module MoneyValues {
  import opened Prelude
  import opened Decimals
  import opened Domain

  /** `Money(amount, currency)`. */
  function MakeMoney(amount: Decimal, currency: Currency): Result<Money, Error> {
    match QuantizeCents(amount)
    case Err(_) => Err(InvalidDecimal)
    case Ok(cents) => if cents < 0 then Err(NegativeMoney) else Ok(Money(cents, currency))
  }

  function HalfEven(c: nat, p: nat): nat
    requires p > 0
  {
    var q, m := c / p, c % p;
    if 2 * m > p || (2 * m == p && q % 2 == 1) then q + 1 else q
  }

  /**
    `a + b` for two amounts in cents under the default context: a sum of 29
    digits is rounded to 28, half to even, and its exponent becomes -1.
  */
  function ContextSum(a: Cents, b: Cents): Decimal {
    var s := a + b;
    if s < COEFFICIENT_LIMIT then Finite(false, s, -2) else Finite(false, HalfEven(s, 10), -1)
  }

  /** `Money.__add__`. */
  function Add(a: Money, b: Money): Result<Money, Error> {
    if a.currency != b.currency then Err(CurrencyMismatch)
    else MakeMoney(ContextSum(a.cents, b.cents), a.currency)
  }

  /** `Money.__sub__`; the difference of two amounts always fits the context. */
  function Subtract(a: Money, b: Money): Result<Money, Error> {
    if a.currency != b.currency then Err(CurrencyMismatch)
    else
      match QuantizeCents(OfCents(a.cents - b.cents))
      case Err(_) => Err(InvalidDecimal)
      case Ok(cents) =>
        if cents < 0 then Err(InsufficientFunds) else MakeMoney(OfCents(cents), a.currency)
  }

  // ----- Construction -----------------------------------------------------------

  /** Half a cent below zero. */
  const BELOW_ZERO: Decimal := Finite(true, 5, -3)
  /** Half a cent below the first amount that does not fit the context. */
  const TOO_LARGE: Decimal := Finite(false, 10 * COEFFICIENT_LIMIT - 5, -3)

  /** The rounded amount, as a signed number of cents; no bound on its size. */
  function Rounded(d: Decimal): int
    requires d.Finite?
  {
    Signed(d.negative, QuantizedMagnitude(d.coefficient, d.exponent))
  }

  /** Quantising keeps the order of amounts. */
  lemma RoundingIsMonotone(x: Decimal, y: Decimal)
    requires x.Finite? && y.Finite? && LessEq(x, y)
    ensures Rounded(x) <= Rounded(y)
  {
    var unit := Min(Min(x.exponent, y.exponent), -2);
    QuantizedInUnits(x, unit);
    QuantizedInUnits(y, unit);
    LessEqInUnits(x, y, unit);
    RoundSignedMonotone(InUnits(x, unit), InUnits(y, unit), Pow10(-2 - unit));
  }

  /**
    The rounded amount is the number of cents nearest to `d`, and an exact half
    goes away from zero: counting in any unit of ten to the `unit`, twice the
    magnitude lies within one cent of twice the rounded magnitude, the upper end
    excluded.
  */
  lemma RoundingIsNearest(d: Decimal, unit: int)
    requires d.Finite? && unit <= d.exponent && unit <= -2
    ensures NearestHalfUp(d.coefficient * Pow10(d.exponent - unit), Pow10(-2 - unit),
                          QuantizedMagnitude(d.coefficient, d.exponent))
  {
    MagnitudeInUnits(d.coefficient, d.exponent, unit);
    HalfUpIsNearest(d.coefficient * Pow10(d.exponent - unit), Pow10(-2 - unit));
  }

  lemma RoundedOfCents(n: int)
    ensures Rounded(OfCents(n)) == n
  {
    assert Pow10(0) == 1;
  }

  /** Quantising an amount that is already quantised changes nothing. */
  lemma QuantizeIsIdempotent(d: Decimal)
    ensures QuantizeCents(d).Ok? ==> QuantizeCents(OfCents(QuantizeCents(d).value)) == QuantizeCents(d)
  {
    if QuantizeCents(d).Ok? {
      RoundedOfCents(QuantizeCents(d).value);
    }
  }

  /** `Rounded(d) >= k` exactly when `d` is at least half a cent below `k`, for positive `k`. */
  lemma RoundedAtLeast(d: Decimal, k: nat)
    requires d.Finite? && k >= 1
    ensures Rounded(d) >= k <==> LessEq(Finite(false, 10 * k - 5, -3), d)
  {
    var bound := Finite(false, 10 * k - 5, -3);
    var unit := Min(d.exponent, -3);
    var p := Pow10(-3 - unit);
    assert Pow10(-2 - unit) == 10 * p;
    QuantizedInUnits(d, unit);
    LessEqInUnits(bound, d, unit);
    assert InUnits(bound, unit) == (10 * k - 5) * p;
    ThresholdUp(InUnits(d, unit), k, p);
  }

  lemma ThresholdUp(n: int, k: nat, p: nat)
    requires p > 0 && k >= 1
    ensures RoundSigned(n, 10 * p) >= k <==> (10 * k - 5) * p <= n
  {
    TenTimes(k, p);
    Ordered(1, k, p);
    if n >= 0 {
      HalfUpIsNearest(n, 10 * p);
      var r := HalfUp(n, 10 * p);
      Associate(r, p, 10);
      Ordered(k, r, p);
      Ordered(r + 1, k, p);
      assert (r + 1) * p == r * p + p;
    }
  }

  lemma TenTimes(k: nat, p: nat)
    ensures (10 * k - 5) * p == 10 * (k * p) - 5 * p
  {
  }

  lemma Ordered(a: nat, b: nat, p: nat)
    ensures a <= b ==> a * p <= b * p
  {
    if a <= b {
      MulMono(a, b, p);
    }
  }

  /** Turning the sign of a decimal turns the sign of its rounding. */
  function Negate(d: Decimal): Decimal
    requires d.Finite?
  {
    d.(negative := !d.negative)
  }

  lemma NegateReverses(x: Decimal, y: Decimal)
    requires x.Finite? && y.Finite?
    ensures Rounded(Negate(x)) == -Rounded(x)
    ensures LessEq(Negate(x), Negate(y)) <==> LessEq(y, x)
  {
  }

  /**
    `Money` takes exactly the finite amounts above -0.005 and below
    10^26 - 0.005, and what it holds is the rounded amount.
  */
  lemma MoneyAcceptsIff(d: Decimal, currency: Currency)
    ensures MakeMoney(d, currency).Ok? <==> d.Finite? && Less(BELOW_ZERO, d) && Less(d, TOO_LARGE)
    ensures MakeMoney(d, currency).Ok? ==> MakeMoney(d, currency).value == Money(Rounded(d), currency)
    ensures d.Finite? && !Less(BELOW_ZERO, d) && Rounded(d) + COEFFICIENT_LIMIT > 0 ==>
              MakeMoney(d, currency) == Err(NegativeMoney)
  {
    if d.Finite? {
      RoundedAtLeast(d, COEFFICIENT_LIMIT);
      RoundedAtLeast(Negate(d), 1);
      NegateReverses(d, BELOW_ZERO);
      NegateReverses(d, TOO_LARGE);
      assert Negate(BELOW_ZERO) == Finite(false, 10 * 1 - 5, -3);
      assert Rounded(d) <= -1 <==> LessEq(d, BELOW_ZERO);
    }
  }

  // ----- Arithmetic -----------------------------------------------------------------

  lemma MakeMoneyOfCents(n: int, currency: Currency)
    requires 0 <= n < COEFFICIENT_LIMIT
    ensures MakeMoney(OfCents(n), currency) == Ok(Money(n, currency))
  {
    RoundedOfCents(n);
  }

  /** A sum is exact to the cent, or it does not fit the context and raises. */
  lemma AddIsExactOrRaises(a: Money, b: Money)
    ensures Add(a, b) ==
      if a.currency != b.currency then Err(CurrencyMismatch)
      else if a.cents + b.cents < COEFFICIENT_LIMIT then Ok(Money(a.cents + b.cents, a.currency))
      else Err(InvalidDecimal)
  {
    var s := a.cents + b.cents;
    if s < COEFFICIENT_LIMIT {
      MakeMoneyOfCents(s, a.currency);
    } else {
      assert Pow10(1) == 10 * Pow10(0);
      assert HalfEven(s, 10) >= s / 10 >= COEFFICIENT_LIMIT / 10;
    }
  }

  /** A difference is exact to the cent; it raises exactly when it would be negative. */
  lemma SubtractIsExactOrRaises(a: Money, b: Money)
    ensures Subtract(a, b) ==
      if a.currency != b.currency then Err(CurrencyMismatch)
      else if a.cents >= b.cents then Ok(Money(a.cents - b.cents, a.currency))
      else Err(InsufficientFunds)
  {
    RoundedOfCents(a.cents - b.cents);
    if a.currency == b.currency && a.cents >= b.cents {
      MakeMoneyOfCents(a.cents - b.cents, a.currency);
    }
  }

  /** What is debited can be credited back, and the balance is the one before. */
  lemma DebitThenCreditRestores(balance: Money, amount: Money)
    ensures Subtract(balance, amount).Ok? ==> Add(Subtract(balance, amount).value, amount) == Ok(balance)
  {
    SubtractIsExactOrRaises(balance, amount);
    if Subtract(balance, amount).Ok? {
      AddIsExactOrRaises(Subtract(balance, amount).value, amount);
    }
  }
}
