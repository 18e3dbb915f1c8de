/** What the double rounding of Money.Convert can and cannot do to an amount. */
module MoneyLaws {
  import opened Wrappers
  import opened Money

  lemma {:induction false} Pow10Add(a: nat, b: nat)
    ensures Pow10(a + b) == Pow10(a) * Pow10(b)
  {
    if a > 0 {
      Pow10Add(a - 1, b);
      assert Pow10(a + b) == 10 * Pow10((a - 1) + b);
    }
  }

  lemma MulMonotone(a: int, b: int, c: nat)
    requires a <= b
    ensures a * c <= b * c
  {
  }

  lemma Pow10Monotone(a: nat, b: nat)
    requires a <= b
    ensures Pow10(a) <= Pow10(b)
  {
    Pow10Add(a, b - a);
    MulMonotone(1, Pow10(b - a), Pow10(a));
  }

  lemma ProductStep(d: nat, p: int, q: int)
    requires p < q
    ensures d * p + d <= d * q
  {
    MulMonotone(p + 1, q, d);
  }

  lemma HalfUpUnique(n: nat, d: nat, q: int)
    requires d > 0
    requires 2 * n - d < 2 * (d * q) <= 2 * n + d
    ensures HalfUp(n, d) == q
  {
    var h := HalfUp(n, d);
    if h < q {
      ProductStep(d, h, q);
    } else if q < h {
      ProductStep(d, q, h);
    }
  }

  lemma HalfUpExact(q: nat, d: nat)
    requires d > 0
    ensures HalfUp(q * d, d) == q
  {
    assert q * d == d * q;
    HalfUpUnique(q * d, d, q);
  }

  lemma HalfUpMonotone(m: nat, n: nat, d: nat)
    requires m <= n && d > 0
    ensures HalfUp(m, d) <= HalfUp(n, d)
  {
    var p, q := HalfUp(m, d), HalfUp(n, d);
    if q < p {
      ProductStep(d, q, p);
    }
  }

  /** Rounding to 20 digits moves a number by at most half a unit of the twentieth digit. */
  lemma SignificantError(n: nat)
    ensures PRECISION * Abs(Significant(n) - n) <= n
  {
    var unit := Pow10(Excess(n));
    var q := HalfUp(n, unit);
    assert q * unit == unit * q;
    if Excess(n) == 0 {
      HalfUpExact(n, 1);
    } else {
      var x := Abs(Significant(n) - n);
      assert 2 * x <= unit;
    }
  }

  /** Rounding keeps a multiple of the unit of the twentieth digit, the nearest one, and the upper of two. */
  lemma SignificantIsNearest(n: nat) returns (q: nat)
    ensures Significant(n) == q * Pow10(Excess(n))
    ensures 2 * n - Pow10(Excess(n)) < 2 * Significant(n) <= 2 * n + Pow10(Excess(n))
  {
    q := HalfUp(n, Pow10(Excess(n)));
    assert q * Pow10(Excess(n)) == Pow10(Excess(n)) * q;
  }

  /** Numbers of at most 20 digits followed by zeros are kept exactly. */
  lemma SignificantExact(n: nat, k: nat, m: nat)
    requires n < TEN_20 && m == n * Pow10(k)
    ensures Significant(m) == m
  {
    var q := WholeUnits(n, k, m);
    SignificantMultiple(m, q);
  }

  lemma WholeUnits(n: nat, k: nat, m: nat) returns (q: nat)
    requires n < TEN_20 && m == n * Pow10(k)
    ensures m == q * Pow10(Excess(m))
  {
    ExcessOfShifted(n, k, m);
    Pow10Regroup(n, k - Excess(m), Excess(m));
    q := n * Pow10(k - Excess(m));
  }

  lemma Pow10Regroup(n: nat, a: nat, b: nat)
    ensures n * Pow10(a + b) == n * Pow10(a) * Pow10(b)
  {
    Pow10Add(a, b);
    ProductRegroup(n, Pow10(a), Pow10(b));
  }

  lemma SignificantMultiple(m: nat, q: nat)
    requires m == q * Pow10(Excess(m))
    ensures Significant(m) == m
  {
    HalfUpExact(q, Pow10(Excess(m)));
  }

  lemma ProductRegroup(a: int, b: int, c: int)
    ensures a * (b * c) == (a * b) * c
  {
  }

  lemma ExcessOfShifted(n: nat, k: nat, m: nat)
    requires n < TEN_20 && m == n * Pow10(k)
    ensures Excess(m) <= k
  {
    if Excess(m) > k {
      Pow10Monotone(k + 1, Excess(m));
      TooFewDigits(n, Pow10(k), m, Pow10(Excess(m)));
    }
  }

  lemma TooFewDigits(n: nat, unit: nat, m: nat, large: nat)
    requires n < TEN_20 && unit > 0 && m == n * unit
    requires large >= 10 * unit
    ensures m < TEN_19 * large
  {
    MulMonotone(n, TEN_20 - 1, unit);
  }

  lemma SignificantShort(n: nat)
    requires n < TEN_20
    ensures Significant(n) == n
  {
    SignificantExact(n, 0, n);
  }

  /** Rounding keeps a number within the decade it started in, its upper end included. */
  lemma SignificantDecade(n: nat)
    ensures Significant(n) <= TEN_20 * Pow10(Excess(n))
    ensures Excess(n) > 0 ==> Significant(n) >= TEN_19 * Pow10(Excess(n))
  {
    var unit := Pow10(Excess(n));
    HalfUpMonotone(n, TEN_20 * unit, unit);
    HalfUpExact(TEN_20, unit);
    MulMonotone(HalfUp(n, unit), TEN_20, unit);
    if Excess(n) > 0 {
      HalfUpMonotone(TEN_19 * unit, n, unit);
      HalfUpExact(TEN_19, unit);
      MulMonotone(TEN_19, HalfUp(n, unit), unit);
    }
  }

  lemma {:induction false} ExcessMonotone(m: nat, n: nat)
    requires m <= n
    ensures Excess(m) <= Excess(n)
  {
    if m >= TEN_20 {
      ExcessMonotone(m / 10, n / 10);
    }
  }

  /** Rounding to 20 digits is monotone, also where the number of digits changes. */
  lemma SignificantMonotone(m: nat, n: nat)
    requires m <= n
    ensures Significant(m) <= Significant(n)
  {
    var a, b := Excess(m), Excess(n);
    if a == b {
      HalfUpMonotone(m, n, Pow10(a));
      MulMonotone(HalfUp(m, Pow10(a)), HalfUp(n, Pow10(a)), Pow10(a));
    } else {
      ExcessMonotone(m, n);
      SignificantDecade(m);
      SignificantDecade(n);
      Pow10Monotone(a + 1, b);
    }
  }

  lemma RescaleMonotone(x: nat, y: nat, shift: int)
    requires x <= y
    ensures Rescale(x, shift) <= Rescale(y, shift)
  {
    var up := Pow10(Positive(-shift));
    MulMonotone(x, y, up);
    HalfUpMonotone(x * up, y * up, Pow10(Positive(shift)));
  }

  /** Through all three roundings, a larger amount at a higher rate never converts to less. */
  lemma ConvertMonotone(a: nat, b: nat, source: int, target: int, r: nat, s: nat)
    requires a <= b && r <= s
    ensures Convert(a, source, target, r) <= Convert(b, source, target, s)
  {
    var x, y := DigitsInOrder(a, b, r, s);
    RescaleMonotone(x, y, source + RATE_DECIMALS - target);
  }

  lemma DigitsInOrder(a: nat, b: nat, r: nat, s: nat) returns (x: nat, y: nat)
    requires a <= b && r <= s
    ensures x == Significant(Times(Significant(a), r)) && y == Significant(Times(Significant(b), s))
    ensures x <= y
  {
    SignificantMonotone(a, b);
    SignificantsMonotone(Significant(a), Significant(b), r, s);
    x, y := Significant(Times(Significant(a), r)), Significant(Times(Significant(b), s));
  }

  /** A larger invoice never reserves less. */
  lemma ConvertMonotoneInAmount(a: nat, b: nat, source: int, target: int, rate: nat)
    requires a <= b
    ensures Convert(a, source, target, rate) <= Convert(b, source, target, rate)
  {
    ConvertMonotone(a, b, source, target, rate, rate);
  }

  /** A higher rate never reserves less. */
  lemma ConvertMonotoneInRate(amount: nat, source: int, target: int, r: nat, s: nat)
    requires r <= s
    ensures Convert(amount, source, target, r) <= Convert(amount, source, target, s)
  {
    ConvertMonotone(amount, amount, source, target, r, s);
  }

  lemma SignificantsMonotone(a: nat, b: nat, r: nat, s: nat)
    requires a <= b && r <= s
    ensures Significant(Times(a, r)) <= Significant(Times(b, s))
  {
    MulMonotone(a, b, r);
    MulMonotone(r, s, b);
    SignificantMonotone(a * r, b * s);
  }

  // The exact value of a conversion is Exact / Scale.

  function Up(source: int, target: int): nat {
    Pow10(Positive(target - source - RATE_DECIMALS))
  }

  function Exact(amount: nat, source: int, target: int, rate: nat): nat {
    amount * rate * Up(source, target)
  }

  function Scale(source: int, target: int): nat {
    Pow10(Positive(source + RATE_DECIMALS - target))
  }

  // Rounding to 20 significant digits moves a number by at most one part in PRECISION.
  const PRECISION: nat := 2 * TEN_19

  /** |Convert - E| <= 1/2 + E / PRECISION, for amounts of at most 20 significant digits; E = Exact / Scale. */
  lemma ConvertErrorBound(amount: nat, source: int, target: int, rate: nat)
    requires Significant(amount) == amount
    ensures
      var e, k := Exact(amount, source, target, rate), Scale(source, target);
      2 * PRECISION * Abs(Convert(amount, source, target, rate) * k - e) <= PRECISION * k + 2 * e
  {
    var first, second := RoundingsOf(amount, source, target, rate);
    OneRoundingError(Convert(amount, source, target, rate), amount, source, target, rate, second);
  }

  lemma OneRoundingError(c: nat, amount: nat, source: int, target: int, rate: nat, second: nat)
    requires PRECISION * Abs(second - amount * rate) <= amount * rate
    requires c == HalfUp(second * Up(source, target), Scale(source, target))
    ensures
      var e, k := Exact(amount, source, target, rate), Scale(source, target);
      2 * PRECISION * Abs(c * k - e) <= PRECISION * k + 2 * e
  {
    RelativeError(PRECISION, 1, amount * rate, second, Up(source, target), Scale(source, target));
  }

  /** The last rounding of a conversion. */
  lemma ConvertAsHalfUp(amount: nat, source: int, target: int, rate: nat)
    ensures Convert(amount, source, target, rate)
         == HalfUp(Significant(Significant(amount) * rate) * Up(source, target), Scale(source, target))
  {
    assert -(source + RATE_DECIMALS - target) == target - source - RATE_DECIMALS;
  }

  /** For every amount, |Convert - E| <= 1/2 + 2 * E / PRECISION + E / PRECISION^2: two roundings to 20 digits. */
  lemma ConvertErrorBoundAll(amount: nat, source: int, target: int, rate: nat)
    ensures
      var e, k := Exact(amount, source, target, rate), Scale(source, target);
      2 * (PRECISION * PRECISION) * Abs(Convert(amount, source, target, rate) * k - e)
      <= PRECISION * PRECISION * k + 2 * ((2 * PRECISION + 1) * e)
  {
    var first, second := RoundingsOf(amount, source, target, rate);
    RoundingsError(Convert(amount, source, target, rate), amount, source, target, rate, first, second);
  }

  /** What the two roundings to 20 digits return, and how they lead to the last one. */
  lemma RoundingsOf(amount: nat, source: int, target: int, rate: nat) returns (first: nat, second: nat)
    ensures first == Significant(amount) && PRECISION * Abs(first - amount) <= amount
    ensures PRECISION * Abs(second - first * rate) <= first * rate
    ensures Convert(amount, source, target, rate) == HalfUp(second * Up(source, target), Scale(source, target))
  {
    first := Significant(amount);
    second := Significant(first * rate);
    SignificantError(amount);
    SignificantError(first * rate);
    ConvertAsHalfUp(amount, source, target, rate);
  }

  lemma RoundingsError(c: nat, amount: nat, source: int, target: int, rate: nat, first: nat, second: nat)
    requires PRECISION * Abs(first - amount) <= amount
    requires PRECISION * Abs(second - first * rate) <= first * rate
    requires c == HalfUp(second * Up(source, target), Scale(source, target))
    ensures
      var e, k := Exact(amount, source, target, rate), Scale(source, target);
      2 * (PRECISION * PRECISION) * Abs(c * k - e) <= PRECISION * PRECISION * k + 2 * ((2 * PRECISION + 1) * e)
  {
    ThreeRoundings(PRECISION, amount, first, rate, second, Up(source, target), Scale(source, target));
  }

  lemma ThreeRoundings(g: nat, amount: nat, first: nat, rate: nat, second: nat, up: nat, k: nat)
    requires g * Abs(first - amount) <= amount
    requires g * Abs(second - first * rate) <= first * rate
    requires k > 0
    ensures 2 * (g * g) * Abs(HalfUp(second * up, k) * k - amount * rate * up)
         <= g * g * k + 2 * ((2 * g + 1) * (amount * rate * up))
  {
    TwoRoundings(g, amount, first, rate, second);
    RelativeError(g * g, 2 * g + 1, amount * rate, second, up, k);
  }

  /** Two roundings with a relative error of a g-th, and a multiplication between them. */
  lemma TwoRoundings(g: nat, amount: nat, first: nat, rate: nat, second: nat)
    requires g * Abs(first - amount) <= amount
    requires g * Abs(second - first * rate) <= first * rate
    ensures g * g * Abs(second - amount * rate) <= (2 * g + 1) * (amount * rate)
  {
    ScaledError(g, first, amount, rate);
    AddErrors(g, second, first * rate, amount * rate);
  }

  lemma AddErrors(g: nat, second: nat, rounded: nat, product: nat)
    requires g * Abs(second - rounded) <= rounded
    requires g * Abs(rounded - product) <= product
    ensures g * g * Abs(second - product) <= (2 * g + 1) * product
  {
    var d, x, y := Abs(second - product), Abs(second - rounded), Abs(rounded - product);
    MulMonotone(d, x + y, g);
    Distribute(g, x, y);
    ProductOfBound(g, d, y, product);
  }

  lemma ProductOfBound(g: nat, d: nat, y: nat, product: nat)
    requires d * g <= 2 * product + y
    requires g * y <= product
    ensures g * g * d <= (2 * g + 1) * product
  {
    MulMonotone(d * g, 2 * product + y, g);
    Distribute(g, 2 * product, y);
    ProductRegroup(g, g, d);
    Distribute(product, 2 * g, 1);
    assert g * (2 * product) == 2 * g * product;
  }

  lemma Distribute(a: int, b: int, c: int)
    ensures a * (b + c) == a * b + a * c
    ensures (b + c) * a == a * b + a * c
  {
  }

  /** With more significant digits the first bound fails: both roundings go up here. */
  lemma LongAmountExceedsBound()
    ensures
      var amount, rate := TEN_20 + 5, 15;
      var e, k := Exact(amount, 0, 10, rate), Scale(0, 10);
      2 * PRECISION * Abs(Convert(amount, 0, 10, rate) * k - e) > PRECISION * k + 2 * e
  {
    assert Excess(TEN_20 + 5) == 1 && Significant(TEN_20 + 5) == TEN_20 + 10;
    assert (TEN_20 + 10) * 15 == 15 * TEN_20 + 150;
    assert Excess(15 * TEN_20 + 150) == 2 by {
      assert (15 * TEN_20 + 150) / 10 == 15 * TEN_19 * 10 / 10 + 15;
      assert Excess((15 * TEN_20 + 150) / 10) == 1;
    }
    assert Pow10(2) == 100;
    assert Significant(15 * TEN_20 + 150) == 15 * TEN_20 + 200;
  }

  lemma AbsScaled(x: int, y: int, c: nat)
    ensures Abs(x * c - y * c) == Abs(x - y) * c
  {
    assert x * c - y * c == (x - y) * c;
    if x >= y {
      MulMonotone(0, x - y, c);
    } else {
      MulMonotone(x - y, 0, c);
    }
  }

  lemma ScaledBound(g: nat, d: nat, slack: nat, c: nat)
    requires g * d <= slack
    ensures g * (d * c) <= slack * c
  {
    MulMonotone(g * d, slack, c);
    ProductRegroup(g, d, c);
  }

  /** An error of at most a g-th stays one under multiplication. */
  lemma ScaledError(g: nat, x: nat, y: nat, c: nat)
    requires g * Abs(x - y) <= y
    ensures g * Abs(x * c - y * c) <= y * c
  {
    AbsScaled(x, y, c);
    ScaledBound(g, Abs(x - y), y, c);
  }

  /** A relative error of b / g before the last rounding adds to its half. */
  lemma RelativeError(g: nat, b: nat, product: nat, rounded: nat, up: nat, k: nat)
    requires k > 0
    requires g * Abs(rounded - product) <= b * product
    ensures 2 * g * Abs(HalfUp(rounded * up, k) * k - product * up) <= g * k + 2 * (b * (product * up))
  {
    RoundedError(g, product, rounded, b * product, up, k);
    ProductRegroup(b, product, up);
  }

  lemma RoundedError(g: nat, product: nat, rounded: nat, slack: nat, up: nat, k: nat)
    requires k > 0
    requires g * Abs(rounded - product) <= slack
    ensures 2 * g * Abs(HalfUp(rounded * up, k) * k - product * up) <= g * k + 2 * (slack * up)
  {
    AbsScaled(rounded, product, up);
    ScaledBound(g, Abs(rounded - product), slack, up);
    var chosen := HalfUp(rounded * up, k) * k;
    assert k * HalfUp(rounded * up, k) == chosen;
    NearestError(g, chosen, rounded * up, product * up, Abs(rounded - product) * up, k, slack * up);
  }

  lemma NearestError(g: nat, chosen: int, rounded: int, product: int, moved: nat, k: nat, slack: nat)
    requires 2 * rounded - k < 2 * chosen <= 2 * rounded + k
    requires Abs(rounded - product) == moved
    requires g * moved <= slack
    ensures 2 * g * Abs(chosen - product) <= g * k + 2 * slack
  {
    var x := Abs(chosen - product);
    MulMonotone(2 * x, k + 2 * moved, g);
    assert 2 * g * x == 2 * x * g;
    assert (k + 2 * moved) * g == g * k + 2 * (g * moved);
  }

  /** When amount * rate has at most 20 digits, only the last rounding is left. */
  lemma ConvertExactlyHalfUp(amount: nat, source: int, target: int, rate: nat)
    requires amount * rate < TEN_20
    ensures Convert(amount, source, target, rate) == HalfUp(Exact(amount, source, target, rate), Scale(source, target))
  {
    if rate > 0 {
      MulMonotone(1, rate, amount);
      SignificantShort(amount);
    }
    SignificantShort(amount * rate);
    ConvertAsHalfUp(amount, source, target, rate);
  }

  /** A result that survives bigIntToSafeNumber is within 1/2 + 1/1000 of the exact value. */
  lemma SafeConversionError(amount: nat, source: int, target: int, rate: nat)
    requires SafeNumber(amount)
    requires SafeNumber(Convert(amount, source, target, rate))
    ensures
      var e, k := Exact(amount, source, target, rate), Scale(source, target);
      1000 * Abs(Convert(amount, source, target, rate) * k - e) <= 501 * k
  {
    var e, k := Exact(amount, source, target, rate), Scale(source, target);
    var c := Convert(amount, source, target, rate);
    SignificantShort(amount);
    ConvertErrorBound(amount, source, target, rate);
    MulMonotone(c, MAX_SAFE_INTEGER, k);
    var x := Abs(c * k - e);
    assert 40_000_000_000_000_000_000 * x <= 20_000_000_000_000_000_000 * k + 2 * e;
    assert e <= c * k + x;
    assert e <= MAX_SAFE_INTEGER * k + x;
  }

  /** The rate 1. */
  const ONE: nat := 10_000_000_000

  lemma OneIsPow10()
    ensures Pow10(RATE_DECIMALS) == ONE
  {
    assert Pow10(10) == ONE;
  }

  lemma RescaleExact(digits: nat, q: nat, shift: int)
    requires digits * Pow10(Positive(-shift)) == q * Pow10(Positive(shift))
    ensures Rescale(digits, shift) == q
  {
    HalfUpExact(q, Pow10(Positive(shift)));
  }

  /** 20 significant digits are n * 10^k with an n of at most 20 digits. */
  lemma SignificantForm(amount: nat) returns (n: nat, k: nat)
    ensures n < TEN_20 && Significant(amount) == n * Pow10(k)
  {
    n, k := HalfUp(amount, Pow10(Excess(amount))), Excess(amount);
    if n >= TEN_20 {
      SignificantDecade(amount);
      ProductStep(Pow10(k), TEN_20, n + 1);
      assert n == TEN_20 by {
        if n > TEN_20 {
          ProductStep(Pow10(k), TEN_20, n);
        }
      }
      n, k := TEN_19, k + 1;
    }
  }

  lemma TimesOne(digits: nat, n: nat, k: nat)
    requires n < TEN_20 && digits == n * Pow10(k)
    ensures Significant(digits * ONE) == digits * Pow10(RATE_DECIMALS)
  {
    OneIsPow10();
    Pow10Regroup(n, k, RATE_DECIMALS);
    SignificantExact(n, k + RATE_DECIMALS, digits * ONE);
  }

  /** At rate 1 the digits kept by the first rounding meet only the last one. */
  lemma ConvertAtRateOne(amount: nat, source: int, target: int, up: nat, down: nat, q: nat)
    requires up == Positive(-(source + RATE_DECIMALS - target)) && down == Positive(source + RATE_DECIMALS - target)
    requires Significant(amount) * Pow10(RATE_DECIMALS) * Pow10(up) == q * Pow10(down)
    ensures Convert(amount, source, target, ONE) == q
  {
    var n, k := SignificantForm(amount);
    TimesOne(Significant(amount), n, k);
    RescaleExact(Significant(amount) * Pow10(RATE_DECIMALS), q, source + RATE_DECIMALS - target);
  }

  /** At rate 1, a change of exponent from s to a larger t multiplies the 20 digits kept by 10^(t-s). */
  lemma WidenExactly(amount: nat, source: int, target: int, wide: nat)
    requires source <= target && wide == Significant(amount) * Pow10(target - source)
    ensures Convert(amount, source, target, ONE) == wide
  {
    WidenProduct(Significant(amount), target - source);
    var w := target - source;
    ConvertAtRateOne(amount, source, target, Positive(-(RATE_DECIMALS - w)), Positive(RATE_DECIMALS - w), wide);
  }

  lemma WidenProduct(amount: nat, w: nat)
    ensures amount * Pow10(RATE_DECIMALS) * Pow10(Positive(-(RATE_DECIMALS - w)))
         == amount * Pow10(w) * Pow10(Positive(RATE_DECIMALS - w))
  {
    if w <= RATE_DECIMALS {
      Pow10Regroup(amount, w, RATE_DECIMALS - w);
    } else {
      Pow10Regroup(amount, RATE_DECIMALS, w - RATE_DECIMALS);
    }
  }

  /** At rate 1 and equal exponents the amount comes back, up to its first 20 digits. */
  lemma ConvertIdentity(amount: nat, exponent: int)
    ensures Convert(amount, exponent, exponent, ONE) == Significant(amount)
    ensures SafeNumber(amount) ==> Convert(amount, exponent, exponent, ONE) == amount
  {
    WidenExactly(amount, exponent, exponent, Significant(amount));
    if SafeNumber(amount) {
      SignificantShort(amount);
    }
  }

  /** Narrowing what was widened: the zeros go again. */
  lemma NarrowExactly(wide: nat, digits: nat, w: nat, source: int, target: int)
    requires Significant(wide) == wide && source - target == w
    requires wide * Pow10(RATE_DECIMALS) == digits * Pow10(w + RATE_DECIMALS)
    ensures Convert(wide, source, target, ONE) == digits
  {
    assert Pow10(0) == 1;
    ConvertAtRateOne(wide, source, target, 0, w + RATE_DECIMALS, digits);
  }

  lemma KeptWhenWidened(digits: nat, n: nat, k: nat, w: nat)
    requires n < TEN_20 && digits == n * Pow10(k)
    ensures Significant(digits * Pow10(w)) == digits * Pow10(w)
    ensures digits * Pow10(w) * Pow10(RATE_DECIMALS) == digits * Pow10(w + RATE_DECIMALS)
  {
    Pow10Regroup(n, k, w);
    SignificantExact(n, k + w, digits * Pow10(w));
    Pow10Regroup(digits, w, RATE_DECIMALS);
  }

  /** 20 significant digits, widened by w zeros and narrowed again. */
  lemma NarrowBack(amount: nat, w: nat, source: int, target: int)
    requires source - target == w
    ensures Convert(Significant(amount) * Pow10(w), source, target, ONE) == Significant(amount)
  {
    var n, k := SignificantForm(amount);
    KeptWhenWidened(Significant(amount), n, k, w);
    NarrowExactly(Significant(amount) * Pow10(w), Significant(amount), w, source, target);
  }

  /** Widening the exponent and narrowing it back keeps the first 20 digits, and so short amounts. */
  lemma WidenThenNarrow(amount: nat, source: int, target: int)
    requires source <= target
    ensures Convert(Convert(amount, source, target, ONE), target, source, ONE) == Significant(amount)
    ensures amount < TEN_20 ==> Convert(Convert(amount, source, target, ONE), target, source, ONE) == amount
  {
    var w := target - source;
    WidenExactly(amount, source, target, Significant(amount) * Pow10(w));
    NarrowBack(amount, w, target, source);
    if amount < TEN_20 {
      SignificantShort(amount);
    }
  }
}
