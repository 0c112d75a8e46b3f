/**
 Currency conversion. Amounts are integer cents, rates are integers in units of 10^-8 (NUMERIC(18,8)).
 Python computes the product with the default decimal context of 28 significant digits, rounding half
 to even, and then quantizes to cents, rounding half up.
 */
module Conversion {
  import opened Basics
  import opened Schema

  const RATE_UNIT := 100_000_000
  const HALF_UNIT := 50_000_000
  const CONTEXT_LIMIT := 10_000_000_000_000_000_000_000_000_000

  // ---- The code --------------------------------------------------------------------------------

  /** n / d to the nearest integer, ties to even. */
  function HalfEven(n: nat, d: nat): nat
    requires d > 0
  {
    var q, r := n / d, n % d;
    if 2 * r < d || (2 * r == d && q % 2 == 0) then q else q + 1
  }

  /** n / d to the nearest integer, ties up. */
  function HalfUp(n: nat, d: nat): nat
    requires d > 0
  {
    var q, r := n / d, n % d;
    if 2 * r < d then q else q + 1
  }

  /** A decimal number: coefficient * 10^exponent. */
  datatype Decimal = Decimal(coefficient: nat, exponent: int)

  /** Round a coefficient to the 28 digits of the context, one digit at a time from the exact value. */
  function InContext(coefficient: nat, exponent: int, unit: nat): Decimal
    requires unit > 0
    decreases if coefficient < CONTEXT_LIMIT * unit then 0 else coefficient - CONTEXT_LIMIT * unit + 1
  {
    if HalfEven(coefficient, unit) < CONTEXT_LIMIT then Decimal(HalfEven(coefficient, unit), exponent)
    else if coefficient < CONTEXT_LIMIT * unit then Decimal(CONTEXT_LIMIT / 10, exponent + 1)
    else InContext(coefficient, exponent + 1, unit * 10)
  }

  /** amount * rate.rate: an exact product of cents and rate units has exponent -10. */
  function Product(amount: nat, rate: nat): Decimal {
    InContext(amount * rate, -10, 1)
  }

  function Pow10(n: nat): (p: nat)
    ensures p > 0
  {
    if n == 0 then 1 else 10 * Pow10(n - 1)
  }

  /** quantize(Decimal("0.01"), rounding=ROUND_HALF_UP), in cents. */
  function QuantizeHalfUp(x: Decimal): nat {
    if x.exponent >= -2 then x.coefficient * Pow10(x.exponent + 2)
    else HalfUp(x.coefficient, Pow10(-2 - x.exponent))
  }

  function Convert(amount: nat, rate: nat): nat {
    QuantizeHalfUp(Product(amount, rate))
  }

  // ---- What it computes ------------------------------------------------------------------------

  /** The converted amount: the exact product rounded half up to whole cents. */
  function Rounded(amount: nat, rate: nat): nat {
    (amount * rate + HALF_UNIT) / RATE_UNIT
  }

  /** A product of at most 28 digits is rounded only once. */
  lemma ProductIsExact(amount: nat, rate: nat)
    requires amount * rate < CONTEXT_LIMIT
    ensures Convert(amount, rate) == Rounded(amount, rate)
  {
    var p := amount * rate;
    assert HalfEven(p, 1) == p;
    assert Product(amount, rate) == Decimal(p, -10);
    assert Pow10(8) == RATE_UNIT by {
      assert Pow10(4) == 10000;
    }
    assert HalfUp(p, RATE_UNIT) == (p + HALF_UNIT) / RATE_UNIT;
  }

  /** Whenever the result fits NUMERIC(18,2), the product has at most 26 digits and nothing is rounded twice. */
  lemma ConvertIsExact(amount: nat, rate: nat)
    requires Rounded(amount, rate) < CENTS_LIMIT
    ensures amount * rate < CENTS_LIMIT * RATE_UNIT
    ensures Convert(amount, rate) == Rounded(amount, rate)
  {
    ProductIsExact(amount, rate);
  }

  const LEAST_FULL := 1_000_000_000_000_000_000_000_000_000

  lemma HalfEvenImplies(n: nat, d: nat, l: nat)
    requires d > 0 && HalfEven(n, d) >= l
    ensures 2 * n >= 2 * (l * d) - d
  {
    var q := n / d;
    assert n == q * d + n % d;
    ProductMonotone(l, q, d);
    if q == l - 1 {
      assert q * d == l * d - d;
    }
  }

  lemma HalfEvenAtLeast(n: nat, d: nat, l: nat)
    requires d > 0 && 2 * n > 2 * (l * d) - d
    ensures HalfEven(n, d) >= l
  {
    var q := n / d;
    assert n == q * d + n % d;
    ProductMonotone(q + 2, l, d);
    assert (q + 2) * d == q * d + 2 * d;
    if q == l - 1 {
      assert q * d == l * d - d;
    }
  }

  /** With one digit less, a coefficient that had too many digits has at least all 28. */
  lemma FullCoefficient(coefficient: nat, unit: nat)
    requires unit > 0 && HalfEven(coefficient, unit) >= CONTEXT_LIMIT
    ensures HalfEven(coefficient, unit * 10) >= LEAST_FULL
  {
    HalfEvenImplies(coefficient, unit, CONTEXT_LIMIT);
    assert LEAST_FULL * (unit * 10) == CONTEXT_LIMIT * unit;
    HalfEvenAtLeast(coefficient, unit * 10, LEAST_FULL);
  }

  lemma {:induction false} InContextIsFull(coefficient: nat, exponent: int, unit: nat)
    requires unit > 0 && HalfEven(coefficient, unit) >= LEAST_FULL
    ensures InContext(coefficient, exponent, unit).coefficient >= LEAST_FULL
    ensures InContext(coefficient, exponent, unit).exponent >= exponent
    decreases if coefficient < CONTEXT_LIMIT * unit then 0 else coefficient - CONTEXT_LIMIT * unit + 1
  {
    if HalfEven(coefficient, unit) >= CONTEXT_LIMIT && coefficient >= CONTEXT_LIMIT * unit {
      FullCoefficient(coefficient, unit);
      InContextIsFull(coefficient, exponent + 1, unit * 10);
    }
  }

  lemma {:induction false} PowersUpTo8(n: nat)
    requires n <= 8
    ensures Pow10(n) <= RATE_UNIT
    decreases 8 - n
  {
    if n < 8 {
      PowersUpTo8(n + 1);
    } else {
      assert Pow10(4) == 10000;
    }
  }

  lemma HalfUpAtLeast(n: nat, d: nat)
    requires 0 < d <= RATE_UNIT && n >= LEAST_FULL
    ensures HalfUp(n, d) >= CENTS_LIMIT
  {
    var q := n / d;
    assert n == q * d + n % d;
    ProductMonotone(q + 1, CENTS_LIMIT, d);
  }

  /** A full coefficient is too large for the column, in cents. */
  lemma FullIsTooLarge(x: Decimal)
    requires x.coefficient >= LEAST_FULL && x.exponent >= -10
    ensures QuantizeHalfUp(x) >= CENTS_LIMIT
  {
    if x.exponent >= -2 {
      ProductMonotone(1, Pow10(x.exponent + 2), x.coefficient);
    } else {
      PowersUpTo8(-2 - x.exponent);
      HalfUpAtLeast(x.coefficient, Pow10(-2 - x.exponent));
    }
  }

  /** A conversion fits its column exactly when the exact product rounded half up does, and then is equal to it. */
  lemma ConvertFits(amount: nat, rate: nat)
    ensures Convert(amount, rate) < CENTS_LIMIT <==> Rounded(amount, rate) < CENTS_LIMIT
    ensures Convert(amount, rate) < CENTS_LIMIT ==> Convert(amount, rate) == Rounded(amount, rate)
  {
    var p := amount * rate;
    if p < CONTEXT_LIMIT {
      ProductIsExact(amount, rate);
    } else {
      assert HalfEven(p, 1) == p;
      InContextIsFull(p, -10, 1);
      FullIsTooLarge(Product(amount, rate));
    }
  }

  /** The result is within half a cent of the exact product, and exact halves go up. */
  lemma WithinHalfCent(amount: nat, rate: nat)
    ensures -HALF_UNIT < RATE_UNIT * Rounded(amount, rate) - amount * rate <= HALF_UNIT
  {}

  /** It is the only integer that is. */
  lemma RoundedIsUnique(amount: nat, rate: nat, x: int)
    requires -HALF_UNIT < RATE_UNIT * x - amount * rate <= HALF_UNIT
    ensures x == Rounded(amount, rate)
  {}

  lemma Monotone(a: nat, b: nat, r: nat, s: nat)
    requires a <= b && r <= s
    ensures Rounded(a, r) <= Rounded(b, s)
  {
    assert a * r <= b * r;
    assert b * r <= b * s;
  }

  /** A positive amount converts to nothing exactly when its exact value is below half a cent. */
  lemma VanishesExactly(amount: nat, rate: nat)
    ensures Rounded(amount, rate) == 0 <==> amount * rate < HALF_UNIT
  {}

  function Total(amounts: seq<nat>): nat {
    if amounts == [] then 0 else Total(amounts[..|amounts| - 1]) + amounts[|amounts| - 1]
  }

  function TotalRounded(amounts: seq<nat>, rate: nat): nat {
    if amounts == [] then 0 else TotalRounded(amounts[..|amounts| - 1], rate) + Rounded(amounts[|amounts| - 1], rate)
  }

  /** The error of a sum of conversions grows by at most half a cent a transfer. */
  lemma {:induction false} SumDrift(amounts: seq<nat>, rate: nat)
    ensures -|amounts| * HALF_UNIT <= RATE_UNIT * TotalRounded(amounts, rate) - Total(amounts) * rate <= |amounts| * HALF_UNIT
  {
    if amounts != [] {
      var front, last := amounts[..|amounts| - 1], amounts[|amounts| - 1];
      SumDrift(front, rate);
      WithinHalfCent(last, rate);
      assert Total(amounts) * rate == Total(front) * rate + last * rate;
    }
  }

  /** n transfers differ from one conversion of their total by at most (n + 1) / 2 cents. */
  lemma SplitDrift(amounts: seq<nat>, rate: nat)
    ensures 2 * (TotalRounded(amounts, rate) - Rounded(Total(amounts), rate)) <= |amounts| + 1
    ensures -(|amounts| + 1) <= 2 * (TotalRounded(amounts, rate) - Rounded(Total(amounts), rate))
  {
    SumDrift(amounts, rate);
    WithinHalfCent(Total(amounts), rate);
  }
}
