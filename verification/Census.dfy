/** Bounds and forecast counts of the known-universe census, in decimals of 28 digits. */
module Census {
  import opened Decimal28
  import opened Rounding

  /** One value for each case of the census. */
  datatype PerCase<T> = PerCase(lower: T, expected: T, conservative: T)

  datatype Case = Lower | Expected | Conservative

  const CASES: seq<Case> := [Lower, Expected, Conservative]

  function At<T>(values: PerCase<T>, k: Case): T {
    match k
    case Lower => values.lower
    case Expected => values.expected
    case Conservative => values.conservative
  }

  type Bounds = PerCase<nat>

  /** The planning basis; the cases differ in their historical profiles only. */
  datatype Basis = Basis(facilities: nat, releaseLines: nat, currentProfiles: nat, historicalProfiles: PerCase<nat>)

  datatype Forecast = Forecast(surfaces: int, releaseLines: int, currentProfiles: int, historicalProfiles: int)

  datatype Report = Report(bounds: Bounds, basis: Basis, cases: PerCase<Forecast>)

  /** Surfaces times count over facilities, as the code computes it. */
  function Scaled(surfaces: nat, count: nat, facilities: nat): real
    requires facilities > 0
  {
    Round28(Product28(surfaces, count), facilities)
  }

  /** The value rounds to the claimed integer; an integer of more than 28 digits is an error. */
  predicate RoundsTo(x: real, claimed: int) { HalfUp(x) < TEN_28 && claimed == HalfUp(x) }

  predicate CaseOk(r: Report, k: Case)
    requires r.basis.facilities > 0
  {
    var (s, b, c) := (At(r.bounds, k), r.basis, At(r.cases, k));
    && c.surfaces == s
    && RoundsTo(Scaled(s, b.releaseLines, b.facilities), c.releaseLines)
    && RoundsTo(Scaled(s, b.currentProfiles, b.facilities), c.currentProfiles)
    && RoundsTo(Scaled(s, At(b.historicalProfiles, k), b.facilities), c.historicalProfiles)
  }

  ghost predicate Accepts(r: Report, root: real)
    requires r.basis.facilities > 0 && IsRoot(root, r.bounds.lower * r.bounds.conservative)
  {
    && RoundsTo(Root28(r.bounds.lower * r.bounds.conservative, root), r.bounds.expected)
    && forall k: Case :: CaseOk(r, k)
  }

  /** `mean` is the decimal square root of the product of the outer bounds. */
  method VerifyReport(r: Report, mean: real, ghost root: real) returns (ok: bool)
    requires r.basis.facilities > 0 && IsRoot(root, r.bounds.lower * r.bounds.conservative)
    requires mean == Root28(r.bounds.lower * r.bounds.conservative, root)
    ensures ok <==> Accepts(r, root)
  {
    if !RoundsTo(mean, r.bounds.expected) { return false; }
    for k := 0 to |CASES|
      invariant forall j :: 0 <= j < k ==> CaseOk(r, CASES[j])
    {
      var (surfaces, b, c) := (At(r.bounds, CASES[k]), r.basis, At(r.cases, CASES[k]));
      if c.surfaces != surfaces {
        assert !CaseOk(r, CASES[k]);
        return false;
      }
      if !RoundsTo(Scaled(surfaces, b.releaseLines, b.facilities), c.releaseLines) {
        assert !CaseOk(r, CASES[k]);
        return false;
      }
      if !RoundsTo(Scaled(surfaces, b.currentProfiles, b.facilities), c.currentProfiles) {
        assert !CaseOk(r, CASES[k]);
        return false;
      }
      if !RoundsTo(Scaled(surfaces, At(b.historicalProfiles, CASES[k]), b.facilities), c.historicalProfiles) {
        assert !CaseOk(r, CASES[k]);
        return false;
      }
    }
    forall k: Case ensures CaseOk(r, k) { EveryCase(k); }
    return true;
  }

  lemma EveryCase(k: Case)
    ensures k in CASES && (k == CASES[0] || k == CASES[1] || k == CASES[2])
  {
  }

  /** No claim of more than 28 digits is accepted. */
  lemma LongClaimsAreRefused(x: real, claimed: int)
    requires RoundsTo(x, claimed)
    ensures claimed <= 9999999999999999999999999999
  {
  }

  /** Below 10^27 an accepted count is the exact quotient to the nearest integer, halves upward. */
  lemma ScaledIsNearest(surfaces: nat, count: nat, facilities: nat, claimed: int)
    requires facilities > 0 && surfaces * count < TEN_27
    ensures RoundsTo(Scaled(surfaces, count, facilities), claimed) <==>
            2 * (surfaces * count) - facilities < 2 * facilities * claimed <= 2 * (surfaces * count) + facilities
  {
    hide HalfUp, Round28;
    var (n, r) := (surfaces * count, HalfUp(Scaled(surfaces, count, facilities)));
    WholeRounded(n);
    FineBelow(n, facilities);
    HalfUpOfQuotient(n, facilities);
    OneNearest(n, facilities, r, claimed);
    AtMost(n, facilities, r);
  }

  lemma OneNearest(n: nat, d: nat, r: int, s: int)
    requires d > 0 && 2 * n - d < 2 * d * r <= 2 * n + d
    ensures 2 * n - d < 2 * d * s <= 2 * n + d <==> r == s
  {
    if s < r { Apart(d, s, r); }
    if r < s { Apart(d, r, s); }
  }

  lemma Apart(d: nat, r: int, s: int)
    requires d > 0 && r < s
    ensures 2 * d * r + 2 * d <= 2 * d * s
  {
    var c := 2 * d;
    MulAtLeast(c, r + 1, s);
    assert c * (r + 1) == c * r + c;
  }

  lemma AtMost(n: nat, d: nat, r: int)
    requires d > 0 && n < TEN_27 && 2 * d * r <= 2 * n + d
    ensures r < TEN_28
  {
    if r >= TEN_28 { Apart(d, TEN_28 - 1, r); }
  }

  /** The expected bound is the geometric mean to the nearest integer, and lies between the outer bounds. */
  lemma ExpectedBound(b: Bounds, root: real)
    requires IsRoot(root, b.lower * b.conservative) && b.lower * b.conservative < TEN_24
    requires RoundsTo(Root28(b.lower * b.conservative, root), b.expected) && b.lower <= b.conservative
    ensures b.lower <= b.expected <= b.conservative
    ensures b.lower > 0 ==>
              (2 * b.expected - 1) * (2 * b.expected - 1) < 4 * (b.lower * b.conservative)
              < (2 * b.expected + 1) * (2 * b.expected + 1)
  {
    hide Root28;
    var n := b.lower * b.conservative;
    HalfUpOfRoot(n, root);
    RootBetween(b, root);
    if b.lower > 0 {
      assert n > 0;
      RootBelow(n, root);
      SquareBounds(b.expected, n, root);
    }
  }

  lemma RootBetween(b: Bounds, root: real)
    requires IsRoot(root, b.lower * b.conservative) && b.lower <= b.conservative
    ensures b.lower as real <= root <= b.conservative as real
  {
    var (l, c) := (b.lower as real, b.conservative as real);
    IntegerProduct(b.lower, b.conservative);
    MulLe(l, c, l);
    MulLe(l, c, c);
    Squares(l, root);
    Squares(root, c);
  }

  lemma SquareBounds(e: int, n: nat, root: real)
    requires IsRoot(root, n) && e >= 1 && 2.0 * root - 1.0 < 2.0 * e as real <= 2.0 * root + 1.0
    ensures (2 * e - 1) * (2 * e - 1) < 4 * n < (2 * e + 1) * (2 * e + 1)
  {
    var (a, b, c) := (2.0 * root, (2 * e - 1) as real, (2 * e + 1) as real);
    OddSquares(n, root, e, a, b, c);
    DoubleSquare(a, root, n);
    IntegerSquare(b, 2 * e - 1);
    IntegerSquare(c, 2 * e + 1);
  }

  lemma ScaledMonotone(s: nat, t: nat, count: nat, facilities: nat)
    requires facilities > 0 && s <= t
    ensures HalfUp(Scaled(s, count, facilities)) <= HalfUp(Scaled(t, count, facilities))
  {
    hide Round28;
    assert s * count <= t * count;
    RoundMonotone(s * count, t * count, 1);
    RoundMonotone(Product28(s, count), Product28(t, count), facilities);
    HalfUpMonotone(Scaled(s, count, facilities), Scaled(t, count, facilities));
  }

  /** n / d to the nearest integer, halves upward. */
  predicate Nearest(n: nat, d: nat, x: int) { 2 * n - d < 2 * d * x <= 2 * n + d }

  /** The forecast of a case, in exact numbers. */
  predicate Forecasts(r: Report, surfaces: nat, historical: nat, f: Forecast) {
    && f.surfaces == surfaces
    && Nearest(surfaces * r.basis.releaseLines, r.basis.facilities, f.releaseLines)
    && Nearest(surfaces * r.basis.currentProfiles, r.basis.facilities, f.currentProfiles)
    && Nearest(surfaces * historical, r.basis.facilities, f.historicalProfiles)
  }

  /** No integer is nearer to the square root of n: twice its odd neighbours' halves enclose it. */
  predicate NearestRoot(n: nat, e: int) {
    if n == 0 then e == 0 else e >= 1 && (2 * e - 1) * (2 * e - 1) < 4 * n < (2 * e + 1) * (2 * e + 1)
  }

  predicate SmallCase(r: Report, surfaces: nat, historical: nat) {
    && surfaces * r.basis.releaseLines < TEN_27 && surfaces * r.basis.currentProfiles < TEN_27
    && surfaces * historical < TEN_27
  }

  lemma OneRoot(n: nat, e: int, f: int)
    requires NearestRoot(n, e) && NearestRoot(n, f)
    ensures e == f
  {
    if n > 0 && e < f { OddApart(e, f); }
    if n > 0 && f < e { OddApart(f, e); }
  }

  lemma OddApart(e: int, f: int)
    requires 1 <= e < f
    ensures (2 * e + 1) * (2 * e + 1) <= (2 * f - 1) * (2 * f - 1)
  {
    var (a, b) := (2 * e + 1, 2 * f - 1);
    MulAtLeast(a, a, b);
    MulAtLeast(b, a, b);
  }

  lemma RootIsNearest(n: nat, root: real)
    requires IsRoot(root, n) && n < TEN_24
    ensures var e := HalfUp(Root28(n, root)); NearestRoot(n, e) && e < TEN_28
  {
    if n > 0 {
      hide Root28;
      HalfUpOfRoot(n, root);
      RootBelow(n, root);
      RootAtMost(n, root);
      SquareBounds(HalfUp(root), n, root);
    }
  }

  lemma RootAtMost(n: nat, root: real)
    requires IsRoot(root, n) && n >= 1
    ensures 1.0 <= root <= n as real
  {
    Squares(1.0, root);
    MulLe(1.0, n as real, n as real);
    Squares(root, n as real);
  }

  /** A census whose exact products have at most 27 digits, and whose outer bounds' product has at most 24, is accepted
      if and only if its expected bound is the geometric mean of the outer ones to the nearest integer, and in each case
      the surfaces are the case's bound and the three forecasts are its share of the basis, to the nearest integer. */
  lemma AcceptedExactly(r: Report, root: real)
    requires r.basis.facilities > 0 && IsRoot(root, r.bounds.lower * r.bounds.conservative)
    requires r.bounds.lower * r.bounds.conservative < TEN_24
    requires SmallCase(r, r.bounds.lower, r.basis.historicalProfiles.lower)
    requires SmallCase(r, r.bounds.expected, r.basis.historicalProfiles.expected)
    requires SmallCase(r, r.bounds.conservative, r.basis.historicalProfiles.conservative)
    ensures Accepts(r, root) <==>
            && NearestRoot(r.bounds.lower * r.bounds.conservative, r.bounds.expected)
            && Forecasts(r, r.bounds.lower, r.basis.historicalProfiles.lower, r.cases.lower)
            && Forecasts(r, r.bounds.expected, r.basis.historicalProfiles.expected, r.cases.expected)
            && Forecasts(r, r.bounds.conservative, r.basis.historicalProfiles.conservative, r.cases.conservative)
  {
    var n := r.bounds.lower * r.bounds.conservative;
    RootIsNearest(n, root);
    if NearestRoot(n, r.bounds.expected) { OneRoot(n, r.bounds.expected, HalfUp(Root28(n, root))); }
    CaseExactly(r, Lower);
    CaseExactly(r, Expected);
    CaseExactly(r, Conservative);
    hide Root28, HalfUp, CaseOk, Forecasts, NearestRoot;
    if CaseOk(r, Lower) && CaseOk(r, Expected) && CaseOk(r, Conservative) {
      forall k: Case ensures CaseOk(r, k) { EveryCase(k); }
    }
  }

  lemma CaseExactly(r: Report, k: Case)
    requires r.basis.facilities > 0 && SmallCase(r, At(r.bounds, k), At(r.basis.historicalProfiles, k))
    ensures CaseOk(r, k) <==> Forecasts(r, At(r.bounds, k), At(r.basis.historicalProfiles, k), At(r.cases, k))
  {
    hide Scaled, RoundsTo;
    var (s, b, c) := (At(r.bounds, k), r.basis, At(r.cases, k));
    ScaledIsNearest(s, b.releaseLines, b.facilities, c.releaseLines);
    ScaledIsNearest(s, b.currentProfiles, b.facilities, c.currentProfiles);
    ScaledIsNearest(s, At(b.historicalProfiles, k), b.facilities, c.historicalProfiles);
  }

  /** Accepted censuses forecast no fewer current profiles or release lines in a wider case. */
  lemma CasesAreOrdered(r: Report, root: real)
    requires r.basis.facilities > 0 && IsRoot(root, r.bounds.lower * r.bounds.conservative) && Accepts(r, root)
    requires r.bounds.lower <= r.bounds.conservative && r.bounds.lower * r.bounds.conservative < TEN_24
    ensures r.cases.lower.releaseLines <= r.cases.expected.releaseLines <= r.cases.conservative.releaseLines
    ensures r.cases.lower.currentProfiles <= r.cases.expected.currentProfiles <= r.cases.conservative.currentProfiles
  {
    hide Scaled, HalfUp, Root28;
    ExpectedBound(r.bounds, root);
    var b := r.basis;
    assert CaseOk(r, Lower) && CaseOk(r, Expected) && CaseOk(r, Conservative);
    var (l, e, c) := (r.bounds.lower, r.bounds.expected, r.bounds.conservative);
    ScaledMonotone(l, e, b.releaseLines, b.facilities);
    ScaledMonotone(e, c, b.releaseLines, b.facilities);
    ScaledMonotone(l, e, b.currentProfiles, b.facilities);
    ScaledMonotone(e, c, b.currentProfiles, b.facilities);
  }
}
