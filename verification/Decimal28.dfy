/** Decimal arithmetic of 28 significant digits, halfway cases to the even last digit: the product and quotient of
    naturals, and how far the fraction of a rounded quotient still orders the exact remainders. */
module Decimal28 {
  import opened Rounding

  const TEN_27: int := 1000000000000000000000000000
  const TEN_28: int := 10000000000000000000000000000

  function Power10(n: nat): (t: nat)
    ensures t > 0
  {
    if n == 0 then 1 else 10 * Power10(n - 1)
  }

  function Pow10(e: int): (p: real)
    ensures p > 0.0
  {
    if e >= 0 then Power10(e) as real else 1.0 / Power10(-e) as real
  }

  lemma Pow10Next(e: int)
    ensures Pow10(e + 1) == 10.0 * Pow10(e)
  {
    if e < 0 {
      var t := Power10(-e - 1) as real;
      assert Power10(-e) as real == 10.0 * t;
      Inverse(t);
    }
  }

  lemma Inverse(t: real)
    requires t > 0.0
    ensures 1.0 / t == 10.0 * (1.0 / (10.0 * t))
  {
    DivideBack(1.0, t);
    DivideBack(1.0, 10.0 * t);
    CancelEq(1.0 / t, 10.0 * (1.0 / (10.0 * t)), t);
  }

  lemma Pow10Inverse(n: int)
    requires n >= 0
    ensures Pow10(-n) * Power10(n) as real == 1.0
  {
    DivideBack(1.0, Power10(n) as real);
  }

  lemma {:induction false} Pow10Monotone(a: int, b: int)
    requires a <= b
    ensures Pow10(a) <= Pow10(b)
    decreases b - a
  {
    hide Pow10;
    if a < b {
      Pow10Monotone(a, b - 1);
      Pow10Next(b - 1);
    }
  }

  lemma PowerValues()
    ensures Power10(0) == 1 && Power10(27) == TEN_27 && Power10(28) == TEN_28
    ensures Pow10(0) == 1.0 && Pow10(27) == TEN_27 as real && Pow10(28) == TEN_28 as real
  {
    PowerZero();
    hide Pow10, Power10;
    Pow10Up27(0);
    Pow10Next(27);
    WholePower(27);
    WholePower(28);
  }

  lemma PowerZero()
    ensures Power10(0) == 1 && Pow10(0) == 1.0
  {
  }

  // ---------------------------------------------------------------------------
  // Rounding to 28 digits

  /** The decade k of n / d. */
  ghost predicate InDecade(n: int, d: int, k: int)
  {
    Pow10(k) * d as real <= n as real < Pow10(k + 1) * d as real
  }

  lemma TimesTen(n: int, d: int, k: int)
    requires n > 0 && d > 0
    ensures InDecade(10 * n, d, k) <==> InDecade(n, d, k - 1)
    ensures InDecade(n, 10 * d, k) <==> InDecade(n, d, k + 1)
  {
    Pow10Next(k - 1);
    Pow10Next(k);
    Pow10Next(k + 1);
    hide Pow10;
    var (p, c) := (Pow10(k), d as real);
    Associate(10.0, Pow10(k - 1), c);
    Associate(10.0, p, c);
    Associate(10.0, Pow10(k + 1), c);
    Associate(p, 10.0, c);
    Associate(Pow10(k + 1), 10.0, c);
  }

  /** The decimal exponent of n / d. */
  function Magnitude(n: int, d: int): (k: int)
    requires n > 0 && d > 0
    ensures InDecade(n, d, k)
    decreases n < d, if n < d then d - n else n - d
  {
    if n < d then
      var k := Magnitude(10 * n, d);
      TimesTen(n, d, k);
      k - 1
    else if n >= 10 * d then
      var k := Magnitude(n, 10 * d);
      TimesTen(n, d, k);
      k + 1
    else
      assert InDecade(n, d, 0);
      0
  }

  lemma MagnitudeIs(n: int, d: int, k: int)
    requires n > 0 && d > 0 && InDecade(n, d, k)
    ensures Magnitude(n, d) == k
  {
    hide Pow10;
    var m := Magnitude(n, d);
    NotLater(n, d, k, m);
    NotLater(n, d, m, k);
  }

  lemma NotLater(n: int, d: int, k: int, m: int)
    requires d > 0 && InDecade(n, d, k) && InDecade(n, d, m)
    ensures m <= k
  {
    hide Pow10;
    if m > k {
      Pow10Monotone(k + 1, m);
      MulLe(Pow10(k + 1), Pow10(m), d as real);
    }
  }

  /** n / d, correctly rounded. */
  function Round28(n: nat, d: nat): (v: real)
    requires d > 0
  {
    if n == 0 then 0.0 else ToGrid(n as real / d as real, Pow10(Magnitude(n, d) - 27))
  }

  // ---------------------------------------------------------------------------
  // Products

  /** The rounded value of a natural number, which is a natural number. */
  function Product28(a: nat, b: nat): (p: int)
    ensures p as real == Round28(a * b, 1) && p >= 0
  {
    var n := a * b;
    WholeRounded(n);
    Round28(n, 1).Floor
  }

  lemma NonNegativeQuotient(q: real, c: real)
    requires c > 0.0 && q >= 0.0
    ensures q / c >= 0.0
  {
    DivideBack(q, c);
    CancelLe(0.0, q / c, c);
  }

  lemma WholeMultiple(m: int, t: int, v: real)
    requires m >= 0 && t > 0 && v == m as real * t as real
    ensures v.Floor >= 0 && v == v.Floor as real
  {
    IntegerProduct(m, t);
    assert m * t >= 0;
    assert ((m * t) as real).Floor == m * t;
  }

  lemma GridWhole(q: real, t: int)
    requires t > 0 && q >= 0.0
    ensures ToGrid(q, t as real).Floor >= 0 && ToGrid(q, t as real) == ToGrid(q, t as real).Floor as real
  {
    hide NearestInteger;
    var x := q / t as real;
    NonNegativeQuotient(q, t as real);
    WholeMultiple(NearestInteger(x), t, ToGrid(q, t as real));
  }

  lemma WholeRounded(n: nat)
    ensures Round28(n, 1).Floor >= 0 && Round28(n, 1) == Round28(n, 1).Floor as real
    ensures n < TEN_28 ==> Round28(n, 1) == n as real
  {
    if n > 0 {
      var k := Magnitude(n, 1);
      hide Magnitude, Pow10, ToGrid;
      assert n as real / 1 as real == n as real;
      if n < TEN_28 { BelowTen28(n, k); }
      if k <= 27 {
        WholeOnGrid(n, k);
      } else {
        WholePower(k - 27);
        GridWhole(n as real, Power10(k - 27));
      }
    }
  }

  lemma WholePower(e: nat)
    ensures Pow10(e) == Power10(e) as real
  {
  }

  lemma BelowTen28(n: int, k: int)
    requires 0 < n < TEN_28 && InDecade(n, 1, k)
    ensures k <= 27
  {
    hide Pow10, Power10;
    PowerValues();
    if k >= 28 { Pow10Monotone(28, k); }
  }

  lemma WholeOnGrid(n: int, k: int)
    requires k <= 27
    ensures ToGrid(n as real, Pow10(k - 27)) == n as real
  {
    hide Pow10;
    Pow10Inverse(27 - k);
    assert -(27 - k) == k - 27;
    OnGrid(n, Power10(27 - k), Pow10(k - 27));
  }

  // ---------------------------------------------------------------------------
  // Fractions of rounded quotients

  function Fraction(v: real): (f: real)
    ensures 0.0 <= f < 1.0
  {
    v - v.Floor as real
  }

  /** A rounding step of u is less than one c-th. */
  ghost predicate Finer(u: real, c: real) { u * c < 1.0 }

  lemma SmallStep(p: real, u: real, c: real, n: real, t: real)
    requires p == t * u && p * c <= n < t && t > 0.0
    ensures Finer(u, c)
  {
    SameProduct(p, t * u, c);
    Associate(t, u, c);
    CancelLt(u * c, 1.0, t);
  }

  lemma DecadeStarts(n: int, d: int, k: int)
    requires InDecade(n, d, k)
    ensures Pow10(k) * d as real <= n as real
  {
  }

  /** Below 10^27 a rounding step of n / d is less than one d-th. */
  lemma FineGrid(n: int, d: int, k: int)
    requires 0 < n < TEN_27 && d > 0 && InDecade(n, d, k)
    ensures Finer(Pow10(k - 27), d as real)
  {
    hide Pow10, Power10, InDecade, Finer;
    DecadeStarts(n, d, k);
    Pow10Up27(k - 27);
    SmallStep(Pow10(k), Pow10(k - 27), d as real, n as real, TEN_27 as real);
  }

  lemma Pow10Up3(e: int)
    ensures Pow10(e + 3) == 1000.0 * Pow10(e)
  {
    hide Pow10;
    Pow10Next(e);
    Pow10Next(e + 1);
    Pow10Next(e + 2);
  }

  lemma Pow10Up9(e: int)
    ensures Pow10(e + 9) == 1000000000.0 * Pow10(e)
  {
    hide Pow10;
    Pow10Up3(e);
    Pow10Up3(e + 3);
    Pow10Up3(e + 6);
  }

  lemma Pow10Up27(e: int)
    ensures Pow10(e + 27) == TEN_27 as real * Pow10(e)
  {
    hide Pow10;
    Pow10Up9(e);
    Pow10Up9(e + 9);
    Pow10Up9(e + 18);
  }

  lemma SmallDecade(n: int, d: int, k: int)
    requires 0 < n < TEN_27 && d > 0 && InDecade(n, d, k)
    ensures k <= 26
  {
    hide Pow10, Power10;
    PowerValues();
    if k >= 27 {
      Pow10Monotone(27, k);
      MulLe(Pow10(27), Pow10(k), d as real);
      IntegerProduct(TEN_27, d);
    }
  }

  /** The quotient keeps so many fractional digits that a step is less than one d-th. */
  predicate Fine(n: nat, d: nat)
    requires d > 0
  {
    n == 0 || (var k := Magnitude(n, d); k <= 26 && d < Power10(27 - k))
  }

  lemma StepBelow(u: real, p: real, c: real, one: real)
    requires u > 0.0 && u * p == one
    ensures u * c < one <==> c < p
  {
    if c < p { MulLt(c, p, u); } else { MulLe(p, c, u); }
  }

  lemma FinerThan(u: real, p: real, c: real)
    requires u > 0.0 && u * p == 1.0
    ensures Finer(u, c) <==> c < p
  {
    StepBelow(u, p, c, 1.0);
  }

  lemma StepAt(k: int, d: nat)
    requires k <= 26
    ensures Finer(Pow10(k - 27), d as real) <==> d < Power10(27 - k)
  {
    hide Pow10, Power10, Finer;
    Pow10Inverse(27 - k);
    assert -(27 - k) == k - 27;
    FinerThan(Pow10(k - 27), Power10(27 - k) as real, d as real);
  }

  lemma FineStep(n: nat, d: nat)
    requires n > 0 && d > 0 && Fine(n, d)
    ensures Finer(Pow10(Magnitude(n, d) - 27), d as real)
  {
    hide Pow10, Power10, Magnitude, Finer, InDecade;
    StepAt(Magnitude(n, d), d);
  }

  /** Every numerator below 10^27 will do. */
  lemma FineBelow(n: nat, d: nat)
    requires d > 0 && n < TEN_27
    ensures Fine(n, d)
  {
    hide Pow10, Power10, Magnitude, Finer, InDecade;
    if n > 0 {
      var k := Magnitude(n, d);
      FineGrid(n, d, k);
      SmallDecade(n, d, k);
      StepAt(k, d);
    }
  }

  lemma ErrorScaled(v: real, q: real, u: real, c: real, one: real)
    requires c > 0.0 && -u <= 2.0 * (v - q) <= u && u * c < one
    ensures -one < 2.0 * (v * c - q * c) < one
  {
    var e := v - q;
    MulLe(2.0 * e, u, c);
    MulLe(-2.0 * e, u, c);
  }

  lemma ErrorBelowOne(v: real, q: real, u: real, c: real)
    requires c > 0.0 && -u <= 2.0 * (v - q) <= u && Finer(u, c)
    ensures -1.0 < 2.0 * (v * c - q * c) < 1.0
  {
    ErrorScaled(v, q, u, c, 1.0);
  }

  /** Twice the error of a rounded quotient, in d-ths. */
  lemma RoundedNear(n: nat, d: nat)
    requires d > 0 && Fine(n, d)
    ensures -1.0 < 2.0 * (Round28(n, d) * d as real - n as real) < 1.0
  {
    hide ToGrid, Pow10, Finer, InDecade;
    if n > 0 {
      var (q, c, u) := (n as real / d as real, d as real, Pow10(Magnitude(n, d) - 27));
      DivideBack(n as real, c);
      FineStep(n, d);
      GridError(q, u);
      ErrorBelowOne(ToGrid(q, u), q, u, c);
    }
  }

  lemma ExactlyDivided(f: int, d: int)
    requires d > 0
    ensures (f * d) as real / d as real == f as real
  {
    IntegerProduct(f, d);
    DivideBack((f * d) as real, d as real);
    CancelEq((f * d) as real / d as real, f as real, d as real);
  }

  lemma WholeQuotient(n: nat, d: nat)
    requires d > 0 && Fine(n, d) && n % d == 0
    ensures Round28(n, d) == (n / d) as real
  {
    hide ToGrid, Pow10;
    if n > 0 {
      var (f, k) := (n / d, Magnitude(n, d));
      assert n == f * d;
      ExactlyDivided(f, d);
      WholeOnGrid(f, k);
    }
  }

  /** Within half a d-th of a d-ths. */
  ghost predicate Near(f: real, a: int, d: int) { -1.0 < 2.0 * (f * d as real - a as real) < 1.0 }

  lemma StaysBetween(v: real, f: int, e: int, d: int)
    requires 0 < e < d && -1.0 < 2.0 * (v * d as real - (f * d + e) as real) < 1.0
    ensures f as real < v < (f + 1) as real
  {
    IntegerProduct(f, d);
    IntegerProduct(f + 1, d);
    CancelLt(f as real, v, d as real);
    CancelLt(v, (f + 1) as real, d as real);
  }

  lemma FractionNear(v: real, f: int, e: int, d: int)
    requires v.Floor == f && -1.0 < 2.0 * (v * d as real - (f * d + e) as real) < 1.0
    ensures Near(Fraction(v), e, d)
  {
    IntegerProduct(f, d);
    Distribute(v, f as real, d as real);
  }

  /** The rounded quotient keeps the whole part, and its fraction is the exact remainder to within half a d-th. */
  lemma QuotientKeeps(n: nat, d: nat)
    requires d > 0 && Fine(n, d)
    ensures Round28(n, d).Floor == n / d
    ensures Near(Fraction(Round28(n, d)), n % d, d)
  {
    hide Round28, Near, Fraction, Fine;
    var (v, f, e) := (Round28(n, d), n / d, n % d);
    RoundedNear(n, d);
    assert n == f * d + e;
    if e == 0 { WholeQuotient(n, d); } else { StaysBetween(v, f, e, d); }
    FractionNear(v, f, e, d);
  }

  lemma OrderKept(f: real, g: real, a: int, b: int, d: int)
    requires d > 0 && a > b && Near(f, a, d) && Near(g, b, d)
    ensures f > g
  {
    CancelLt(g, f, d as real);
  }

  /** Larger exact remainders have larger rounded fractions. */
  lemma FractionsFollowRemainders(m: nat, n: nat, d: nat)
    requires d > 0 && Fine(m, d) && Fine(n, d) && m % d > n % d
    ensures Fraction(Round28(m, d)) > Fraction(Round28(n, d))
  {
    hide Round28, Fraction, Near, Fine;
    QuotientKeeps(m, d);
    QuotientKeeps(n, d);
    OrderKept(Fraction(Round28(m, d)), Fraction(Round28(n, d)), m % d, n % d, d);
  }

  // ---------------------------------------------------------------------------
  // Rounding is monotone

  /** The quotient of a decade stays in it, up to its upper end. */
  lemma StaysInDecade(n: nat, d: nat, k: int)
    requires n > 0 && d > 0 && Magnitude(n, d) == k
    ensures Pow10(k) <= Round28(n, d) <= Pow10(k + 1)
  {
    hide Pow10, ToGrid, Magnitude;
    var (q, c, u) := (n as real / d as real, d as real, Pow10(k - 27));
    DivideBack(n as real, c);
    CancelLe(Pow10(k), q, c);
    CancelLe(q, Pow10(k + 1), c);
    Pow10Up27(k - 27);
    Pow10Next(k);
    Multiple(TEN_27, u, Pow10(k));
    Multiple(TEN_28, u, Pow10(k + 1));
    GridMonotone(Pow10(k), q, u);
    GridMonotone(q, Pow10(k + 1), u);
  }

  lemma LargerMagnitude(m: nat, n: nat, d: nat)
    requires 0 < m <= n && d > 0
    ensures Magnitude(m, d) <= Magnitude(n, d)
  {
    hide Pow10, Magnitude;
    var (j, k) := (Magnitude(m, d), Magnitude(n, d));
    if j > k {
      Pow10Monotone(k + 1, j);
      MulLe(Pow10(k + 1), Pow10(j), d as real);
    }
  }

  /** A larger numerator never has a smaller rounded quotient. */
  lemma RoundMonotone(m: nat, n: nat, d: nat)
    requires m <= n && d > 0
    ensures 0.0 <= Round28(m, d) <= Round28(n, d)
  {
    hide Round28, Magnitude, Pow10;
    if m == 0 {
      ZeroRounded(d);
      if n > 0 { StaysInDecade(n, d, Magnitude(n, d)); }
    } else {
      var (j, k) := (Magnitude(m, d), Magnitude(n, d));
      LargerMagnitude(m, n, d);
      StaysInDecade(m, d, j);
      if j < k {
        StaysInDecade(n, d, k);
        Pow10Monotone(j + 1, k);
      } else {
        SameDecade(m, n, d);
      }
    }
  }

  lemma ZeroRounded(d: nat)
    requires d > 0
    ensures Round28(0, d) == 0.0
  {
  }

  lemma SameDecade(m: nat, n: nat, d: nat)
    requires 0 < m <= n && d > 0 && Magnitude(m, d) == Magnitude(n, d)
    ensures Round28(m, d) <= Round28(n, d)
  {
    hide ToGrid, Pow10, Magnitude;
    var c := d as real;
    DivideBack(m as real, c);
    DivideBack(n as real, c);
    CancelLe(m as real / c, n as real / c, c);
    GridMonotone(m as real / c, n as real / c, Pow10(Magnitude(m, d) - 27));
  }

  // ---------------------------------------------------------------------------
  // Integers from decimals

  /** The nearest integer, halves upward, of a value that is not negative. */
  function HalfUp(x: real): (r: int)
    ensures 2.0 * x - 1.0 < 2.0 * r as real <= 2.0 * x + 1.0
  {
    (x + 0.5).Floor
  }

  lemma HalfUpIs(x: real, r: int)
    requires 2.0 * x - 1.0 < 2.0 * r as real <= 2.0 * x + 1.0
    ensures HalfUp(x) == r
  {
  }

  lemma HalfUpMonotone(x: real, y: real)
    requires x <= y
    ensures HalfUp(x) <= HalfUp(y)
  {
  }

  lemma HalfTimes(h: real, s: real, u: real, q: real, hs: real)
    requires hs == h * s && 2.0 * (s * u) == 1.0 && 2.0 * q == h
    ensures hs * u == q
  {
    SameProduct(hs, h * s, u);
    Associate(h, s, u);
    var half := s * u;
    assert half == 0.5;
    assert h * half == q;
  }

  lemma HalfOnGrid(h: int, s: int, u: real, q: real)
    requires u > 0.0 && 2.0 * (s as real * u) == 1.0 && 2.0 * q == h as real
    ensures ToGrid(q, u) == q
  {
    hide ToGrid;
    IntegerProduct(h, s);
    HalfTimes(h as real, s as real, u, q, (h * s) as real);
    Multiple(h * s, u, q);
  }

  /** Halves are exact. */
  lemma HalfExact(n: nat, d: nat, h: int)
    requires d > 0 && Fine(n, d) && 2 * n == h * d
    ensures 2.0 * Round28(n, d) == h as real
  {
    hide ToGrid, Pow10, Power10, Magnitude;
    if n > 0 {
      var (q, k) := (n as real / d as real, Magnitude(n, d));
      HalfQuotient(n, d, h);
      FiveSteps(26 - k);
      HalfOnGrid(h, 5 * Power10(26 - k), Pow10(k - 27), q);
    } else {
      ZeroFactor(h, d);
    }
  }

  lemma ZeroFactor(h: int, d: nat)
    requires d > 0 && h * d == 0
    ensures h == 0
  {
  }

  lemma HalfQuotient(n: nat, d: nat, h: int)
    requires d > 0 && 2 * n == h * d
    ensures 2.0 * (n as real / d as real) == h as real
  {
    var q := n as real / d as real;
    DivideBack(n as real, d as real);
    IntegerProduct(h, d);
    Associate(2.0, q, d as real);
    CancelEq(2.0 * q, h as real, d as real);
  }

  lemma FiveTimes(t: int, p: real)
    requires p * (10 * t) as real == 1.0
    ensures 2.0 * ((5 * t) as real * p) == 1.0
  {
    Associate(2.0, (5 * t) as real, p);
    assert 2.0 * (5 * t) as real == (10 * t) as real;
  }

  lemma FiveSteps(e: int)
    requires e >= 0
    ensures 2.0 * ((5 * Power10(e)) as real * Pow10(-e - 1)) == 1.0
  {
    assert Power10(e + 1) == 10 * Power10(e);
    hide Pow10, Power10;
    Pow10Inverse(e + 1);
    assert -(e + 1) == -e - 1;
    FiveTimes(Power10(e), Pow10(-e - 1));
  }

  /** On a fine quotient rounding to 28 digits first does not change the rounding to an integer. */
  lemma HalfUpOfQuotient(n: nat, d: nat)
    requires d > 0 && Fine(n, d)
    ensures var r := HalfUp(Round28(n, d)); 2 * n - d < 2 * d * r <= 2 * n + d
  {
    hide Round28, HalfUp, Fine;
    var (v, r) := (Round28(n, d), HalfUp(Round28(n, d)));
    RoundedNear(n, d);
    ScaledBounds(v, r, d, n);
    if 2 * d * r == 2 * n - d {
      assert 2 * n == (2 * r + 1) * d;
      HalfExact(n, d, 2 * r + 1);
    }
  }

  lemma ScaledBounds(v: real, r: int, d: nat, n: nat)
    requires d > 0 && 2.0 * v - 1.0 < 2.0 * r as real <= 2.0 * v + 1.0
    requires -1.0 < 2.0 * (v * d as real - n as real) < 1.0
    ensures 2 * n - d <= 2 * d * r <= 2 * n + d
  {
    IntegerProduct(r, d);
    HalfStep(r as real, v, d as real, (r * d) as real, v * d as real);
    assert 2 * d * r == 2 * (r * d);
  }

  // ---------------------------------------------------------------------------
  // Square roots

  const TEN_12: int := 1000000000000
  const TEN_24: int := 1000000000000000000000000

  ghost predicate IsRoot(root: real, n: nat) { root >= 0.0 && root * root == n as real }

  /** The root of n, correctly rounded: half the decades of n. */
  ghost function Root28(n: nat, root: real): real
    requires IsRoot(root, n)
  {
    if n == 0 then 0.0 else ToGrid(root, Pow10(Magnitude(n, 1) / 2 - 27))
  }

  lemma {:induction false} PowerSquare(k: nat)
    ensures Power10(2 * k) == Power10(k) * Power10(k)
  {
    if k > 0 {
      PowerSquare(k - 1);
      assert Power10(2 * k) == 100 * Power10(2 * (k - 1)) && Power10(k) == 10 * Power10(k - 1);
    }
  }

  lemma WholeMagnitude(n: nat)
    requires n > 0
    ensures Magnitude(n, 1) >= 0
  {
    PowerZero();
    hide Pow10, Power10;
    if Magnitude(n, 1) < 0 { Pow10Monotone(Magnitude(n, 1) + 1, 0); }
  }

  lemma RootDecade(n: nat, root: real)
    requires n > 0 && IsRoot(root, n)
    ensures Pow10(Magnitude(n, 1) / 2) <= root
  {
    WholeMagnitude(n);
    var m := Magnitude(n, 1);
    var k := m / 2;
    WholePower(k);
    WholePower(2 * k);
    PowerSquare(k);
    IntegerProduct(Power10(k), Power10(k));
    hide Pow10, Power10, Magnitude;
    Pow10Monotone(2 * k, m);
    Squares(Pow10(k), root);
  }

  /** A step of the root's grid is less than the gap between the squares of half-integers and integers. */
  lemma TinyStep(u: real, p: real, root: real, w: real)
    requires p == TEN_27 as real * u && p <= root && 1.0 <= root < TEN_12 as real && w == 4.0 * root + 2.0
    ensures Finer(u, w)
  {
    MulLe(p, TEN_12 as real, w);
    SmallStep(p, u, w, TEN_12 as real * w, TEN_27 as real);
  }

  lemma Gap(x: real, y: real, u: real, w: real, one: real)
    requires 0.0 <= x <= y && x + y <= w && u > 0.0 && u * w < one && one <= y * y - x * x
    ensures y - x > u
  {
    if y - x <= u {
      MulLe(y - x, u, x + y);
      MulLe(x + y, w, u);
    }
  }

  /** The square root of an integer stays away from the halves. */
  lemma AwayFromHalves(n: nat, root: real, e: int, u: real, w: real)
    requires IsRoot(root, n) && e >= 1 && 2.0 * root - 1.0 < 2.0 * e as real <= 2.0 * root + 1.0
    requires u > 0.0 && w == 4.0 * root + 2.0 && Finer(u, w)
    ensures 2.0 * root - (2 * e - 1) as real > u && (2 * e + 1) as real - 2.0 * root > u
  {
    var (a, b, c) := (2.0 * root, (2 * e - 1) as real, (2 * e + 1) as real);
    OddSquares(n, root, e, a, b, c);
    Gap(b, a, u, w, 1.0);
    Gap(a, c, u, w, 1.0);
  }

  lemma OddSquares(n: nat, root: real, e: int, a: real, b: real, c: real)
    requires IsRoot(root, n) && e >= 1 && 2.0 * root - 1.0 < 2.0 * e as real <= 2.0 * root + 1.0
    requires a == 2.0 * root && b == (2 * e - 1) as real && c == (2 * e + 1) as real
    ensures a * a - b * b >= 1.0 && c * c - a * a >= 1.0
  {
    Squares(b, a);
    Squares(a, c);
    DoubleSquare(a, root, n);
    IntegerSquare(b, 2 * e - 1);
    IntegerSquare(c, 2 * e + 1);
    Odd(e, n);
    Odd(e + 1, n);
    assert 2 * (e + 1) - 1 == 2 * e + 1;
  }

  lemma IntegerSquare(b: real, m: int)
    requires b == m as real
    ensures b * b == (m * m) as real
  {
    IntegerProduct(m, m);
  }

  lemma DoubleSquare(a: real, root: real, n: nat)
    requires a == 2.0 * root && root * root == n as real
    ensures a * a == (4 * n) as real
  {
  }

  lemma Odd(e: int, n: int)
    ensures (2 * e - 1) * (2 * e - 1) != 4 * n
  {
    assert (2 * e - 1) * (2 * e - 1) == 4 * (e * e - e) + 1;
  }

  lemma RootBelow(n: nat, root: real)
    requires IsRoot(root, n) && 0 < n < TEN_24
    ensures 1.0 <= root < TEN_12 as real
  {
    Squares(1.0, root);
    Squares(TEN_12 as real, root);
  }

  /** Below 10^24 rounding to 28 digits first does not change the rounding of a square root to an integer. */
  lemma HalfUpOfRoot(n: nat, root: real)
    requires IsRoot(root, n) && n < TEN_24
    ensures HalfUp(Root28(n, root)) == HalfUp(root)
  {
    hide ToGrid, Pow10, Power10, Magnitude, Finer, HalfUp;
    if n > 0 {
      var k := Magnitude(n, 1) / 2;
      var (u, w, e) := (Pow10(k - 27), 4.0 * root + 2.0, HalfUp(root));
      RootBelow(n, root);
      RootDecade(n, root);
      Pow10Up27(k - 27);
      TinyStep(u, Pow10(k), root, w);
      AwayFromHalves(n, root, e, u, w);
      GridError(root, u);
      HalfUpIs(ToGrid(root, u), e);
    } else {
      Squares(root, 0.0);
    }
  }

  // ---------------------------------------------------------------------------
  // Computed values

  /** m is the integer nearest to n t / d. */
  ghost predicate Nearest(n: int, t: int, d: int, m: int) { -d < 2 * (n * t - m * d) < d }

  lemma ScaledQuotient(n: int, t: int, d: int, m: int, x: real)
    requires d > 0 && x * d as real == (n * t) as real && Nearest(n, t, d, m)
    ensures NearestInteger(x) == m
  {
    hide NearestInteger;
    IntegerProduct(2 * m - 1, d);
    IntegerProduct(2 * m + 1, d);
    CancelLt((2 * m - 1) as real, 2.0 * x, d as real);
    CancelLt(2.0 * x, (2 * m + 1) as real, d as real);
    NearestWithin(x, m);
  }

  lemma Scaled(q: real, n: int, d: int, t: int)
    requires q * d as real == n as real
    ensures q * t as real * d as real == (n * t) as real
  {
    IntegerProduct(n, t);
    SameProduct(q * d as real, n as real, t as real);
    Associate(q, d as real, t as real);
    Associate(q, t as real, d as real);
  }

  lemma FineAt(n: int, d: int, t: int, u: real, m: int)
    requires d > 0 && u > 0.0 && u * t as real == 1.0 && Nearest(n, t, d, m)
    ensures ToGrid(n as real / d as real, u) * t as real == m as real
  {
    hide NearestInteger, Nearest;
    var q := n as real / d as real;
    DivideBack(n as real, d as real);
    Quotient(q, t as real, u);
    Scaled(q, n, d, t);
    SameProduct(q / u, q * t as real, d as real);
    ScaledQuotient(n, t, d, m, q / u);
    Associate(m as real, u, t as real);
    SameProduct(ToGrid(q, u), m as real * u, t as real);
  }

  /** A quotient below 10^28 is rounded to the nearest multiple of a reciprocal power of ten. */
  lemma RoundsFinely(n: int, d: int, k: int, t: int, m: int)
    requires n > 0 && d > 0 && k <= 27 && InDecade(n, d, k) && t == Power10(27 - k) && Nearest(n, t, d, m)
    ensures Round28(n, d) * t as real == m as real
  {
    hide Pow10, Power10, InDecade, Nearest, ToGrid;
    MagnitudeIs(n, d, k);
    Pow10Inverse(27 - k);
    assert -(27 - k) == k - 27;
    FineAt(n, d, t, Pow10(k - 27), m);
  }

  lemma CoarseAt(n: int, t: int, m: int)
    requires t > 0 && Nearest(n, 1, t, m)
    ensures ToGrid(n as real, t as real) == m as real * t as real
  {
    hide NearestInteger, Nearest;
    DivideBack(n as real, t as real);
    ScaledQuotient(n, 1, t, m, n as real / t as real);
  }

  /** A natural number of more than 28 digits is rounded to the nearest multiple of a power of ten. */
  lemma RoundsCoarsely(n: int, k: int, t: int, m: int)
    requires n > 0 && k >= 28 && InDecade(n, 1, k) && t == Power10(k - 27) && Nearest(n, 1, t, m)
    ensures Round28(n, 1) == (m * t) as real
  {
    hide Pow10, Power10, InDecade, Nearest, ToGrid;
    MagnitudeIs(n, 1, k);
    WholePower(k - 27);
    assert n as real / 1 as real == n as real;
    CoarseAt(n, t, m);
    IntegerProduct(m, t);
  }
}
