/**
  Conversion of minor units between currencies, src/fx/money.ts.

  decimal.js keeps 20 significant digits, rounding half up after every operation.
  Multiplying or dividing by a power of ten moves the decimal point and leaves the
  digits alone, so a Decimal is represented by its integer digits, and the power of
  ten is applied once, at the end. A rate is an integer count of units of 10^-10,
  the scale of the column `fx_rates.rate`.
 */
module Money {
  const RATE_DECIMALS: nat := 10

  // The least numbers of 20 and of 21 digits.
  const TEN_19: nat := 10_000_000_000_000_000_000
  const TEN_20: nat := 100_000_000_000_000_000_000

  function Pow10(k: nat): (r: nat)
    ensures r >= 1
  {
    if k == 0 then 1 else 10 * Pow10(k - 1)
  }

  /** The integer nearest to n / d, the upper one when two are equally near. */
  function HalfUp(n: nat, d: nat): (q: nat)
    requires d > 0
    ensures 2 * n - d < 2 * (d * q) <= 2 * n + d
  {
    HalfUpNearest(n, d);
    (2 * n + d) / (2 * d)
  }

  lemma HalfUpNearest(n: nat, d: nat)
    requires d > 0
    ensures 2 * n - d < 2 * (d * ((2 * n + d) / (2 * d))) <= 2 * n + d
  {
    var q := (2 * n + d) / (2 * d);
    assert 2 * n + d == (2 * d) * q + (2 * n + d) % (2 * d);
    assert (2 * d) * q == 2 * (d * q);
  }

  /** How many decimal digits n has beyond the precision. */
  function Excess(n: nat): (k: nat)
    ensures n < TEN_20 * Pow10(k)
    ensures k > 0 ==> n >= TEN_19 * Pow10(k)
    ensures k == 0 <==> n < TEN_20
  {
    if n < TEN_20 then 0 else Excess(n / 10) + 1
  }

  /** n rounded half up to 20 significant digits. */
  function Significant(n: nat): nat {
    var unit := Pow10(Excess(n));
    HalfUp(n, unit) * unit
  }

  function Positive(n: int): nat {
    if n > 0 then n else 0
  }

  /** digits * 10^(-shift), rounded half up to an integer. */
  function Rescale(digits: nat, shift: int): nat {
    HalfUp(digits * Pow10(Positive(-shift)), Pow10(Positive(shift)))
  }

  function Times(a: nat, b: nat): nat {
    a * b
  }

  /** convertMinorUnits: divide by 10^source, multiply by the rate, multiply by 10^target, round. */
  function Convert(amount: nat, source: int, target: int, rate: nat): nat {
    var sourceMajor := Significant(amount);
    var targetMajor := Significant(Times(sourceMajor, rate));
    Rescale(targetMajor, source + RATE_DECIMALS - target)
  }

  const MAX_SAFE_INTEGER := 9007199254740991

  /** bigIntToSafeNumber returns, rather than throwing RangeError. */
  predicate SafeNumber(n: int) {
    -MAX_SAFE_INTEGER <= n <= MAX_SAFE_INTEGER
  }
}
