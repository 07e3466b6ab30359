/** Rounding and currency conversion on unbounded integers (src/shared/money/convert.ts). */
module Arithmetic {
  import opened Wrappers

  datatype ArithmeticError = NonPositiveDenominator

  datatype ConversionOutcome = Converted(minor: int) | RoundsToZero

  const RATE_SCALE: int := 10_000_000_000

  /** What scaleRate can return, and what NUMERIC(20,10) can hold: a positive count of 10^-10 units. */
  type ScaledRate = r: int | 0 < r < 100_000_000_000_000_000_000 witness RATE_SCALE

  function Abs(n: int): nat {
    if n < 0 then -n else n
  }

  /** BigInt `/` truncates toward zero; Dafny's `/` is Euclidean. */
  function TruncDiv(n: int, d: int): int
    requires d > 0
  {
    if n < 0 then -((-n) / d) else n / d
  }

  /** BigInt `%`: the remainder has the sign of the dividend. */
  function TruncMod(n: int, d: int): int
    requires d > 0
  {
    if n < 0 then -((-n) % d) else n % d
  }

  function Rounded(numerator: int, denominator: int): int
    requires denominator > 0
  {
    var quotient := TruncDiv(numerator, denominator);
    var remainder := TruncMod(numerator, denominator);
    if 2 * Abs(remainder) >= denominator then
      if numerator < 0 then quotient - 1 else quotient + 1
    else
      quotient
  }

  function RoundHalfUp(numerator: int, denominator: int): Result<int, ArithmeticError> {
    if denominator <= 0 then Failure(NonPositiveDenominator)
    else Success(Rounded(numerator, denominator))
  }

  /** What an amount is worth at a scaled rate, before the zero refusal. */
  function AtRate(minor: int, scaledRate: int): int {
    Rounded(minor * scaledRate, RATE_SCALE)
  }

  function Convert(minor: int, scaledRate: int): ConversionOutcome {
    var result := AtRate(minor, scaledRate);
    if result == 0 && minor != 0 then RoundsToZero else Converted(result)
  }

  /** Reference definition: `q` is the integer nearest to n / d, and a tie goes away from zero. */
  ghost predicate IsNearest(n: int, d: int, q: int) {
    && 2 * Abs(n - q * d) <= d
    && (2 * Abs(n - q * d) == d ==> Abs(q * d) > Abs(n))
  }

  lemma RoundedIsNearest(n: int, d: int)
    requires d > 0
    ensures IsNearest(n, d, Rounded(n, d))
  {
    var q, r := TruncDiv(n, d), TruncMod(n, d);
    TruncatedParts(n, d);
    Multiples(q, d);
    hide TruncDiv, TruncMod;
  }

  /** Truncating division: quotient and remainder make up the dividend, and the remainder has its sign. */
  lemma TruncatedParts(n: int, d: int)
    requires d > 0
    ensures n == TruncDiv(n, d) * d + TruncMod(n, d)
    ensures if n < 0 then -d < TruncMod(n, d) <= 0 && TruncDiv(n, d) * d <= 0 else 0 <= TruncMod(n, d) < d && TruncDiv(n, d) * d >= 0
  {
    var m: nat := if n < 0 then -n else n;
    var q, r := m / d, m % d;
    DividedParts(m, d);
    Negated(q, d);
    assert TruncDiv(n, d) == (if n < 0 then -q else q) && TruncMod(n, d) == (if n < 0 then -r else r);
    hide TruncDiv, TruncMod;
  }

  lemma DividedParts(n: nat, d: int)
    requires d > 0
    ensures n == n / d * d + n % d && 0 <= n % d < d && n / d * d >= 0
  {
  }

  lemma Negated(q: int, d: int)
    ensures -q * d == -(q * d)
  {
  }

  lemma Multiples(q: int, d: int)
    ensures (q - 1) * d == q * d - d && (q + 1) * d == q * d + d
  {
  }

  lemma MultiplesApart(q1: int, q2: int, d: int)
    requires d > 0 && q1 < q2
    ensures q1 * d + d <= q2 * d
  {
    assert (q2 - q1 - 1) * d >= 0;
    assert (q2 - q1 - 1) * d == q2 * d - q1 * d - d;
  }

  /** Two multiples on either side of a tie cannot both be further from zero than it. */
  lemma NearestIsUnique(n: int, d: int, q1: int, q2: int)
    requires d > 0 && IsNearest(n, d, q1) && IsNearest(n, d, q2) && q1 <= q2
    ensures q1 == q2
  {
    if q1 < q2 {
      MultiplesApart(q1, q2, d);
      if q1 < 0 { MultiplesApart(q1, 0, d); }
    }
  }

  /** `Rounded` is exactly rounding half away from zero: it is nearest, and nothing else is. */
  lemma {:induction false} RoundHalfUpMeaning(n: int, d: int, q: int)
    ensures RoundHalfUp(n, d) == Success(q) <==> d > 0 && IsNearest(n, d, q)
  {
    if d > 0 {
      RoundedIsNearest(n, d);
      if IsNearest(n, d, q) {
        var r := Rounded(n, d);
        if q <= r { NearestIsUnique(n, d, q, r); } else { NearestIsUnique(n, d, r, q); }
      }
    }
  }

  lemma {:induction false} RoundedMonotone(n: int, m: int, d: int)
    requires d > 0 && n <= m
    ensures Rounded(n, d) <= Rounded(m, d)
  {
    RoundedIsNearest(n, d);
    RoundedIsNearest(m, d);
    if Rounded(m, d) < Rounded(n, d) {
      MultiplesApart(Rounded(m, d), Rounded(n, d), d);
    }
  }

  /** Rounding two parts separately is off by at most one from rounding their sum. */
  lemma {:induction false} RoundedNearlyAdditive(a: int, b: int, d: int)
    requires d > 0
    ensures -1 <= Rounded(a + b, d) - Rounded(a, d) - Rounded(b, d) <= 1
  {
    RoundedIsNearest(a + b, d);
    RoundedIsNearest(a, d);
    RoundedIsNearest(b, d);
    NearestNearlyAdditive(a, b, d, Rounded(a + b, d), Rounded(a, d), Rounded(b, d));
  }

  lemma NearestNearlyAdditive(a: int, b: int, d: int, x: int, y: int, z: int)
    requires d > 0 && IsNearest(a + b, d, x) && IsNearest(a, d, y) && IsNearest(b, d, z)
    ensures -1 <= x - y - z <= 1
  {
    Distribute(x, y, z, d);
    SmallMultiple(x - y - z, d);
  }

  lemma Distribute(x: int, y: int, z: int, d: int)
    ensures (x - y - z) * d == x * d - y * d - z * d
  {
  }

  lemma SmallMultiple(e: int, d: int)
    requires d > 0 && -2 * d < e * d < 2 * d
    ensures -1 <= e <= 1
  {
  }

  /** What an amount is worth at a rate is the integer nearest to their product over 10^10, ties away from zero. */
  lemma {:induction false} AtRateIsNearest(minor: int, scaledRate: int, q: int)
    ensures AtRate(minor, scaledRate) == q <==> IsNearest(minor * scaledRate, 10_000_000_000, q)
  {
    RoundHalfUpMeaning(minor * scaledRate, 10_000_000_000, q);
  }

  /** Conversion answers that integer, and refuses exactly a non-zero amount whose worth rounds to nothing. */
  lemma {:induction false} ConvertMeaning(minor: int, scaledRate: int, q: int)
    ensures Convert(minor, scaledRate) == Converted(q) <==>
      IsNearest(minor * scaledRate, 10_000_000_000, q) && (q != 0 || minor == 0)
    ensures Convert(minor, scaledRate) == RoundsToZero <==>
      minor != 0 && IsNearest(minor * scaledRate, 10_000_000_000, 0)
  {
    AtRateIsNearest(minor, scaledRate, q);
    AtRateIsNearest(minor, scaledRate, 0);
  }

  /** At a positive rate, worth grows with the amount and splitting an amount loses at most one unit. */
  lemma AtRateShape(a: int, b: int, scaledRate: int)
    requires scaledRate > 0 && 0 <= a && 0 <= b
    ensures AtRate(0, scaledRate) == 0
    ensures 0 <= AtRate(a, scaledRate) <= AtRate(a + b, scaledRate)
    ensures -1 <= AtRate(a + b, scaledRate) - AtRate(a, scaledRate) - AtRate(b, scaledRate) <= 1
  {
  }

  /** The rate 1.0 converts every amount to itself. */
  lemma UnitRateIsIdentity(minor: int)
    ensures AtRate(minor, RATE_SCALE) == minor
    ensures Convert(minor, RATE_SCALE) == Converted(minor)
  {
  }
}
