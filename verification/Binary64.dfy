/** Correctly rounded quotients: the 53-bit significand grid, ties to even.

  Quotients here are between 2^-80 and 2^80, so neither overflow nor a subnormal result can occur.
*/
module Binary64 {
  import opened Rounding

  const TWO_53: int := 9007199254740992

  /** 2^79, beyond every rate of windows with safe counts. */
  const LIMIT: int := 604462909807314587353088

  function Pow2(e: int): (p: real)
    ensures p > 0.0
    decreases if e < 0 then -e else e
  {
    if e == 0 then 1.0 else if e > 0 then 2.0 * Pow2(e - 1) else Pow2(e + 1) / 2.0
  }

  lemma Pow2Next(e: int)
    ensures Pow2(e + 1) == 2.0 * Pow2(e)
  {
  }

  lemma Pow2Up4(e: int)
    ensures Pow2(e + 4) == 16.0 * Pow2(e)
  {
    Pow2Next(e);
    Pow2Next(e + 1);
    Pow2Next(e + 2);
    Pow2Next(e + 3);
  }

  lemma Pow2Up13(e: int)
    ensures Pow2(e + 13) == 8192.0 * Pow2(e)
  {
    Pow2Up4(e);
    Pow2Up4(e + 4);
    Pow2Up4(e + 8);
    Pow2Next(e + 12);
  }

  lemma Pow2Up53(e: int)
    ensures Pow2(e + 53) == TWO_53 as real * Pow2(e)
  {
    Pow2Up13(e);
    Pow2Up13(e + 13);
    Pow2Up13(e + 26);
    Pow2Up13(e + 39);
    Pow2Next(e + 52);
  }

  lemma PowersOfTwo()
    ensures Pow2(0) == 1.0 && Pow2(53) == TWO_53 as real && Pow2(79) == LIMIT as real
    ensures Pow2(-79) * LIMIT as real == 1.0
  {
    PowerZero();
    hide Pow2;
    Pow2Up53(0);
    Pow2Up13(53);
    Pow2Up13(66);
    Pow2Up53(-79);
    Pow2Up13(-26);
    Pow2Up13(-13);
  }

  lemma PowerZero()
    ensures Pow2(0) == 1.0
  {
  }

  lemma {:induction false} Pow2Monotone(a: int, b: int)
    requires a <= b
    ensures Pow2(a) <= Pow2(b)
    decreases b - a
  {
    if a < b {
      Pow2Monotone(a, b - 1);
      Pow2Next(b - 1);
    }
  }

  lemma BelowExponent(q: real, e: int, k: int)
    requires Pow2(e) <= q < Pow2(k)
    ensures e < k
  {
    if e >= k { Pow2Monotone(k, e); }
  }

  lemma InverseStep(x: real, y: real)
    requires x * y == 1.0
    ensures (x / 2.0) * (2.0 * y) == 1.0
  {
  }

  const MIN_EXPONENT := -80
  const MAX_EXPONENT := 80

  predicate InRange(q: real) { Pow2(MIN_EXPONENT) <= q < Pow2(MAX_EXPONENT) }

  /** The binade of q, searched from k upward. */
  function ExponentFrom(q: real, k: int): (e: int)
    requires k < MAX_EXPONENT && Pow2(k) <= q < Pow2(MAX_EXPONENT)
    ensures k <= e < MAX_EXPONENT && Pow2(e) <= q < Pow2(e + 1)
    decreases MAX_EXPONENT - k
  {
    if q < Pow2(k + 1) then k else
    ExponentFrom(q, k + 1)
  }

  function Ulp(q: real): (u: real)
    requires InRange(q)
    ensures u > 0.0
  {
    Pow2(ExponentFrom(q, MIN_EXPONENT) - 52)
  }

  function ToDouble(q: real): real
    requires q == 0.0 || InRange(q)
  {
    if q == 0.0 then 0.0 else ToGrid(q, Ulp(q))
  }

  lemma {:induction false} AtLeastOne(k: int)
    requires k >= 0
    ensures Pow2(k) >= 1.0
  {
    if k > 0 { AtLeastOne(k - 1); }
  }

  lemma Below53(q: real, e: int)
    requires Pow2(e) <= q < TWO_53 as real
    ensures e <= 52
  {
    if e > 52 {
      Pow2Up53(e - 53);
      AtLeastOne(e - 53);
    }
  }

  lemma IntegerOnGrid(n: int, k: int)
    requires k >= 0
    ensures ToGrid(n as real, Pow2(-k)) == n as real
  {
    PowerIsPow2(k);
    OnGrid(n, Power(k), Pow2(-k));
  }

  /** Integers below 2^53 are exact. */
  lemma IntegerExact(n: nat, e: int)
    requires n < TWO_53 && Pow2(e) <= n as real
    ensures ToGrid(n as real, Pow2(e - 52)) == n as real
  {
    Below53(n as real, e);
    IntegerOnGrid(n, 52 - e);
    assert -(52 - e) == e - 52;
  }

  // ---------------------------------------------------------------------------
  // Ceilings

  function Ceil(x: real): (n: int)
    ensures n as real - 1.0 < x <= n as real
  {
    -((-x).Floor)
  }

  /** Integer ceiling of a quotient, in the integer form. */
  function CeilDiv(a: int, b: int): (n: int)
    requires b > 0
    ensures b * (n - 1) < a <= b * n
  {
    (a + b - 1) / b
  }

  lemma CeilUnique(x: real, n: int)
    requires n as real - 1.0 < x <= n as real
    ensures Ceil(x) == n
  {
  }

  lemma QuotientBounds(a: real, b: real, q: real, t: real, small: real)
    requires 1.0 <= a < t * b && 1.0 <= b < t && q * b == a && t * small == 1.0 && small > 0.0
    ensures small < q < t
  {
    MulLt(b, t, small);
    CancelLt(small, q, b);
    CancelLt(q, t, b);
  }

  /** The quotients of this module: far from overflow and from the subnormals. */
  predicate Dividable(a: int, b: int) { 0 <= a < LIMIT * b && 0 < b < LIMIT }

  lemma QuotientInRange(a: int, b: int)
    requires Dividable(a, b) && a > 0
    ensures InRange(a as real / b as real)
    ensures a as real / b as real * b as real == a as real
  {
    DivideBack(a as real, b as real);
    PowersOfTwo();
    IntegerProduct(LIMIT, b);
    QuotientBounds(a as real, b as real, a as real / b as real, LIMIT as real, Pow2(-79));
    Pow2Monotone(MIN_EXPONENT, -79);
    Pow2Monotone(79, MAX_EXPONENT);
  }

  /** True division of naturals, rounded. */
  function TrueDivide(a: int, b: int): (f: real)
    requires Dividable(a, b)
  {
    if a == 0 then 0.0 else
    QuotientInRange(a, b);
    ToDouble(a as real / b as real)
  }

  lemma QuotientOf(a: int, b: int) returns (q: real)
    requires Dividable(a, b) && a > 0
    ensures InRange(q) && q * b as real == a as real && TrueDivide(a, b) == ToDouble(q)
  {
    hide ToDouble, InRange;
    q := a as real / b as real;
    QuotientInRange(a, b);
  }

  // ---------------------------------------------------------------------------
  // When the ceiling survives the rounding

  function Power(n: nat): (t: int)
    ensures t > 0
  {
    if n == 0 then 1 else 2 * Power(n - 1)
  }

  lemma {:induction false} PowerIsPow2(n: int)
    requires n >= 0
    ensures Pow2(n) == Power(n) as real && Pow2(-n) * Power(n) as real == 1.0
  {
    if n > 0 {
      PowerIsPow2(n - 1);
      InverseStep(Pow2(-n + 1), Power(n - 1) as real);
    }
  }

  /** The exponent of a positive integer. */
  function Log2(k: int): (e: nat)
    requires k > 0
    ensures Power(e) <= k < Power(e + 1)
  {
    if k == 1 then 0 else Log2(k / 2) + 1
  }

  lemma {:induction false} PowerMonotone(m: nat, n: nat)
    requires m <= n
    ensures Power(m) <= Power(n)
  {
    if m < n { PowerMonotone(m, n - 1); }
  }

  lemma ExponentAt(q: real, e: int)
    requires InRange(q) && Pow2(e) <= q < Pow2(e + 1)
    ensures ExponentFrom(q, MIN_EXPONENT) == e
  {
    var f := ExponentFrom(q, MIN_EXPONENT);
    BelowExponent(q, e, f + 1);
    BelowExponent(q, f, e + 1);
  }

  lemma DoubleIs(q: real, e: int)
    requires InRange(q) && ExponentFrom(q, MIN_EXPONENT) == e
    ensures ToDouble(q) == ToGrid(q, Pow2(e - 52))
  {
    NonZero(q);
  }

  lemma NonZero(q: real)
    requires InRange(q)
    ensures q != 0.0
  {
  }

  lemma Unscale(n: int, t: int, u: real)
    requires u * t as real == 1.0
    ensures (n * t) as real * u == n as real
  {
    IntegerProduct(n, t);
    Associate(n as real, t as real, u);
    var one := t as real * u;
    assert one == 1.0;
    assert n as real * one == n as real;
  }

  /** Rounding to a grid of t steps per unit: down to the integer k up to half a step above it, and otherwise into (k, k
      + 1]. */
  lemma RoundsTo(q: real, k: int, t: int, u: real)
    requires u > 0.0 && t > 0 && t % 2 == 0 && u * t as real == 1.0 && k as real <= q < k as real + 1.0
    ensures 2.0 * ((q - k as real) * t as real) <= 1.0 ==> ToGrid(q, u) == k as real
    ensures 2.0 * ((q - k as real) * t as real) > 1.0 ==> k as real < ToGrid(q, u) <= (k + 1) as real
  {
    hide NearestInteger;
    var (r, x) := (t as real, q / u);
    Quotient(q, r, u);
    Distribute(q, k as real, r);
    IntegerProduct(k, t);
    IntegerProduct(k + 1, t);
    var rest := (q - k as real) * r;
    MulLe(0.0, q - k as real, r);
    MulLe(q, (k + 1) as real, r);
    assert x == (k * t) as real + rest;
    if 2.0 * rest <= 1.0 {
      EvenMultiple(k, t);
      NearEven(x, k * t);
      Unscale(k, t, u);
    } else {
      NearAbove(x, k * t, (k + 1) * t);
      Between(NearestInteger(x), k, t, u);
    }
  }

  lemma EvenMultiple(k: int, t: int)
    requires t % 2 == 0
    ensures k * t % 2 == 0
  {
    var h := t / 2;
    assert k * t == 2 * (k * h);
  }

  lemma Between(m: int, k: int, t: int, u: real)
    requires u > 0.0 && u * t as real == 1.0 && k * t + 1 <= m <= (k + 1) * t
    ensures k as real < m as real * u <= (k + 1) as real
  {
    Unscale(k, t, u);
    Unscale(k + 1, t, u);
    MulLt((k * t) as real, m as real, u);
    MulLe(m as real, ((k + 1) * t) as real, u);
  }

  lemma CeilBetween(f: real, k: int)
    requires k as real < f <= (k + 1) as real
    ensures Ceil(f) == k + 1
  {
  }

  lemma RestScaled(q: real, k: int, r: int, b: int, t: int)
    requires b > 0 && q * b as real == (k * b + r) as real
    ensures 2.0 * ((q - k as real) * t as real) <= 1.0 <==> r * (2 * t) <= b
  {
    var (c, d) := (b as real, q - k as real);
    Distribute(q, k as real, c);
    IntegerProduct(k, b);
    var dc := d * c;
    assert dc == r as real;
    var dt := d * t as real;
    var scaled := 2.0 * dt * c;
    assert scaled == 2.0 * (dt * c) by { Associate(2.0, dt, c); }
    assert dt * c == dc * t as real;
    IntegerProduct(r, t);
    assert scaled == (r * (2 * t)) as real;
    if 2.0 * dt <= 1.0 { MulLe(2.0 * dt, 1.0, c); }
    if 2.0 * dt > 1.0 { MulLt(1.0, 2.0 * dt, c); }
  }

  lemma QuotientBetween(q: real, k: int, r: int, b: int)
    requires b > 0 && 0 <= r < b && q * b as real == (k * b + r) as real
    ensures k as real <= q < (k + 1) as real
  {
    IntegerProduct(k, b);
    IntegerProduct(k + 1, b);
    if q < k as real { MulLt(q, k as real, b as real); }
    if q >= (k + 1) as real { MulLe((k + 1) as real, q, b as real); }
  }

  /** The rounded quotient of k b + r, for k at least one: it rounds down to k up to half a unit in the last place above
      k. */
  lemma RoundedCeiling(q: real, k: int, r: int, b: int)
    requires InRange(q) && 0 < k < Power(52) && b > 0 && 0 <= r < b && q * b as real == (k * b + r) as real
    ensures Log2(k) <= 51
    ensures Ceil(ToDouble(q)) == if r * Power(53 - Log2(k)) <= b then k else k + 1
  {
    hide InRange, ToDouble, Ceil, Log2, ToGrid, Power;
    QuotientBetween(q, k, r, b);
    var t, u := UnitAt(q, k);
    RoundsTo(q, k, t, u);
    RestScaled(q, k, r, b, t);
    if r * (2 * t) <= b {
      CeilUnique(k as real, k);
    } else {
      CeilBetween(ToGrid(q, u), k);
    }
  }

  lemma TwiceEven(n: nat)
    ensures Power(n + 1) == 2 * Power(n)
  {
  }

  /** The binade of an integer in powers of two. */
  lemma BinadeOfInteger(k: int)
    requires 0 < k < Power(52)
    ensures Log2(k) <= 51 && Pow2(Log2(k)) <= k as real && (k + 1) as real <= Pow2(Log2(k) + 1)
  {
    hide Pow2, Log2, Power;
    Log2Bound(k);
    PowerIsPow2(Log2(k));
    PowerIsPow2(Log2(k) + 1);
  }

  lemma StepsPerUnit(e: nat)
    requires e <= 51
    ensures var t := Power(52 - e);
      t % 2 == 0 && 2 * t == Power(53 - e) && Pow2(e - 52) * t as real == 1.0
  {
    hide Pow2, Power;
    PowerIsPow2(52 - e);
    assert -(52 - e) == e - 52;
    TwiceEven(51 - e);
    TwiceEven(52 - e);
  }

  /** The grid that a quotient just above k is rounded to. */
  lemma UnitAt(q: real, k: int) returns (t: int, u: real)
    requires InRange(q) && 0 < k < Power(52) && k as real <= q < (k + 1) as real
    ensures u > 0.0 && t > 0 && t % 2 == 0 && u * t as real == 1.0 && ToDouble(q) == ToGrid(q, u)
    ensures Log2(k) <= 51 && 2 * t == Power(53 - Log2(k))
  {
    hide InRange, Pow2, ToDouble, ToGrid, Log2, Power;
    BinadeOfInteger(k);
    var e: int := Log2(k);
    t, u := Power(52 - e), Pow2(e - 52);
    ExponentAt(q, e);
    DoubleIs(q, e);
    StepsPerUnit(e);
  }

  /** A quotient below one rounds to something above zero and at most one. */
  lemma RoundedFraction(q: real)
    requires InRange(q) && q < 1.0
    ensures Ceil(ToDouble(q)) == 1
  {
    hide Pow2, Ceil, ToGrid, ToDouble;
    PowersOfTwo();
    var e := BinadeOf(q);
    BelowExponent(q, e, 0);
    StaysInBinade(q, e);
    Pow2Monotone(e + 1, 0);
    CeilBetween(ToDouble(q), 0);
  }

  lemma BinadeOf(q: real) returns (e: int)
    requires InRange(q)
    ensures Pow2(e) <= q < Pow2(e + 1) && ToDouble(q) == ToGrid(q, Pow2(e - 52))
  {
    hide Pow2, ToDouble, ToGrid;
    e := ExponentFrom(q, MIN_EXPONENT);
    DoubleIs(q, e);
  }

  lemma StaysInBinade(q: real, e: int)
    requires Pow2(e) <= q < Pow2(e + 1)
    ensures 0.0 < ToGrid(q, Pow2(e - 52)) <= Pow2(e + 1)
  {
    hide NearestInteger, Pow2;
    var u := Pow2(e - 52);
    Pow2Up53(e - 52);
    Pow2Next(e);
    DivideBack(q, u);
    GridInside(q / u, q, u);
  }

  lemma GridInside(x: real, q: real, u: real)
    requires u > 0.0 && x * u == q && u <= q < TWO_53 as real * u
    ensures 0.0 < NearestInteger(x) as real * u <= TWO_53 as real * u
  {
    hide NearestInteger;
    GrownFactor(x, u, q);
    CancelLt(x, TWO_53 as real, u);
    NearAbove(x, 0, TWO_53);
    Positive(NearestInteger(x) as real, u);
    MulLe(NearestInteger(x) as real, TWO_53 as real, u);
  }

  /** For the quotient k + r / b: it is whole, or below one, or its fraction is more than half a unit in the last place
      of k. */
  predicate FractionSurvives(k: int, r: int, b: int)
    requires 0 <= k < Power(52)
  {
    k == 0 || r == 0 || (Log2Bound(k); r * Power(53 - Log2(k)) > b)
  }

  /** The same condition on numerator and denominator. */
  predicate SurvivesRounding(a: int, b: int)
    requires a >= 0 && b > 0 && a / b < Power(52)
  {
    FractionSurvives(a / b, a % b, b)
  }

  lemma Log2Bound(k: int)
    requires 0 < k < Power(52)
    ensures Log2(k) <= 51
  {
    hide Power;
    if Log2(k) >= 52 { PowerMonotone(52, Log2(k)); }
  }

  lemma CeilIs(a: int, b: int)
    requires a >= 0 && b > 0
    ensures CeilDiv(a, b) == if a % b == 0 then a / b else a / b + 1
  {
    var (k, r, n) := (a / b, a % b, CeilDiv(a, b));
    assert a == b * k + r;
    Sandwich(b, k, r, n);
  }

  lemma Sandwich(b: int, k: int, r: int, n: int)
    requires b > 0 && 0 <= r < b && b * (n - 1) < b * k + r <= b * n
    ensures n == if r == 0 then k else k + 1
  {
    if n <= k - 1 { MulAtLeast(b, n, k - 1); }
    if n >= k + 2 { MulAtLeast(b, k + 1, n - 1); }
    if n == k { assert r == 0; }
    if n == k + 1 { assert r > 0; }
  }

  /** The ceiling of the rounded quotient is the exact ceiling if and only if the fraction survives the rounding, and
      otherwise one less. */
  lemma CeilExactly(a: int, b: int)
    requires Dividable(a, b) && a / b < Power(52)
    ensures Ceil(TrueDivide(a, b)) == if SurvivesRounding(a, b) then CeilDiv(a, b) else CeilDiv(a, b) - 1
  {
    hide ToDouble, Ceil, Log2, Power, Pow2, InRange, CeilDiv, TrueDivide;
    CeilIs(a, b);
    if a == 0 {
      ZeroDivided(b);
    } else {
      var q := QuotientOf(a, b);
      RoundedParts(q, a / b, a % b, b);
    }
  }

  /** The rounded quotient of k b + r. */
  lemma RoundedParts(q: real, k: int, r: int, b: int)
    requires InRange(q) && 0 <= k < Power(52) && b > 0 && 0 <= r < b && q * b as real == (k * b + r) as real
    ensures Ceil(ToDouble(q)) == if r == 0 then k else if FractionSurvives(k, r, b) then k + 1 else k
  {
    hide ToDouble, Ceil, Log2, Power, Pow2, InRange;
    if k == 0 {
      QuotientBetween(q, 0, r, b);
      PositiveQuotient(q, r, b);
      RoundedFraction(q);
    } else {
      RoundedCeiling(q, k, r, b);
      if r == 0 { assert 0 * Power(53 - Log2(k)) == 0; }
    }
  }

  lemma PositiveQuotient(q: real, r: int, b: int)
    requires InRange(q) && b > 0 && q * b as real == r as real
    ensures r > 0
  {
    Positive(q, b as real);
  }

  lemma ZeroDivided(b: int)
    requires 0 < b < LIMIT
    ensures Dividable(0, b) && Ceil(TrueDivide(0, b)) == 0
  {
    CeilUnique(0.0, 0);
  }

  /** Below 2^53 every fraction survives, so the rounded ceiling is the exact one. */
  lemma CeilOfTrueDivide(a: int, b: int)
    requires 0 <= a < TWO_53 && 0 < b < TWO_53
    ensures Ceil(TrueDivide(a, b)) == CeilDiv(a, b)
  {
    hide ToDouble, Ceil, Log2, Power, Pow2, InRange, CeilDiv, TrueDivide;
    PowerValues();
    CeilIs(a, b);
    if b == 1 {
      WholeQuotient(a);
    } else {
      AtMostHalf(a, b);
      SmallSurvives(a / b, a % b, b);
      CeilExactly(a, b);
    }
  }

  lemma PowerValues()
    ensures Power(13) == 8192 && Power(14) == 16384 && Power(40) == 1099511627776
    ensures Power(52) == 4503599627370496 && Power(53) == TWO_53
  {
    assert Power(13) == 8192;
    hide Power;
    TwiceEven(13);
    PowerSum(13, 13);
    PowerSum(26, 13);
    TwiceEven(39);
    PowerSum(39, 13);
    TwiceEven(52);
  }

  lemma AtMostHalf(a: int, b: int)
    requires 0 <= a < TWO_53 && b >= 2
    ensures a / b < TWO_53 / 2
  {
    var k := a / b;
    assert b * k <= a;
    assert k >= 0;
    Twofold(b, k);
  }

  lemma Twofold(b: int, k: int)
    requires b >= 2 && k >= 0
    ensures 2 * k <= b * k
  {
  }

  lemma SmallSurvives(k: int, r: int, b: int)
    requires 0 <= k < Power(52) && 0 <= r && b > 0 && k * b < TWO_53
    ensures FractionSurvives(k, r, b)
  {
    hide Log2, Power;
    if k > 0 && r > 0 {
      Log2Bound(k);
      PowerValues();
      PowerSum(Log2(k), 53 - Log2(k));
      var (p, rest) := (Power(Log2(k)), Power(53 - Log2(k)));
      MulAtLeast(b, p, k);
      MulAtLeast(rest, 1, r);
      assert b * p < p * rest;
      SmallerFactor(p, b, rest);
    }
  }

  lemma SmallerFactor(p: int, b: int, c: int)
    requires p > 0 && b * p < p * c
    ensures b < c
  {
    if c <= b { MulAtLeast(p, c, b); }
  }

  lemma {:induction false} PowerSum(m: nat, n: nat)
    ensures Power(m + n) == Power(m) * Power(n)
  {
    if m > 0 { PowerSum(m - 1, n); }
  }

  lemma WholeQuotient(a: int)
    requires 0 <= a < TWO_53
    ensures Ceil(TrueDivide(a, 1)) == a
  {
    hide ToDouble, InRange, Pow2, Ceil, TrueDivide;
    assert Dividable(a, 1);
    if a == 0 {
      ZeroDivided(1);
    } else {
      var q := QuotientOf(a, 1);
      WholeAt(a, q);
    }
  }

  lemma WholeAt(a: int, q: real)
    requires 0 < a < TWO_53 && InRange(q) && q * 1 as real == a as real
    ensures Ceil(ToDouble(q)) == a
  {
    hide Pow2, ToGrid, ToDouble, Ceil;
    var e := BinadeOf(q);
    assert q == a as real;
    IntegerExact(a, e);
    CeilUnique(a as real, a);
  }

  // ---------------------------------------------------------------------------
  // Rounding keeps the order, and most of the value

  lemma AboveBinade(q: real, e: int)
    requires Pow2(e) <= q
    ensures Pow2(e) <= ToGrid(q, Pow2(e - 52))
  {
    var u := Pow2(e - 52);
    hide Pow2;
    Pow2Up53(e - 52);
    Pow2Next(e);
    Multiple(4503599627370496, u, Pow2(e));
    GridMonotone(Pow2(e), q, u);
  }

  lemma LaterBinade(p: real, q: real, d: int, e: int)
    requires Pow2(d) <= p < Pow2(d + 1) && Pow2(e) <= q && d < e
    ensures ToGrid(p, Pow2(d - 52)) <= ToGrid(q, Pow2(e - 52))
  {
    hide Pow2;
    StaysInBinade(p, d);
    AboveBinade(q, e);
    Pow2Monotone(d + 1, e);
  }

  lemma ToDoubleMonotone(p: real, q: real)
    requires InRange(p) && InRange(q) && p <= q
    ensures ToDouble(p) <= ToDouble(q)
  {
    hide Pow2, ToGrid, ToDouble, InRange;
    var d := BinadeOf(p);
    var e := BinadeOf(q);
    BelowExponent(p, d, e + 1);
    if d == e { GridMonotone(p, q, Pow2(d - 52)); } else { LaterBinade(p, q, d, e); }
  }

  lemma SmallUnit(q: real, e: int)
    requires Pow2(e) <= q
    ensures TWO_53 as real * Pow2(e - 52) <= 2.0 * q
  {
    hide Pow2;
    Pow2Up53(e - 52);
    Pow2Next(e);
  }

  /** The error is at most 2^-53 of the value. */
  lemma RelativeError(q: real)
    requires InRange(q)
    ensures -q <= TWO_53 as real * (ToDouble(q) - q) <= q
  {
    hide Pow2, ToGrid, ToDouble, InRange;
    var e := BinadeOf(q);
    GridError(q, Pow2(e - 52));
    SmallUnit(q, e);
  }

  lemma Within(q: real)
    requires 0.0 < q && 1.0 <= 1024.0 * q && q <= LIMIT as real
    ensures InRange(q)
  {
    PowersOfTwo();
    Pow2Next(79);
    Pow2Monotone(MIN_EXPONENT, -10);
    Kibi();
  }

  lemma Kibi()
    ensures Pow2(-10) * 1024.0 == 1.0
  {
    PowerIsPow2(10);
    assert Power(10) == 1024;
  }
}
