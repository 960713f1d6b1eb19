/** Order statistics of throughput rates, their degradation, and the running threshold. */
module Throughput {
  import opened Binary64
  import opened Rounding
  import opened Checkpoints
  import opened Options
  import opened Sorting

  // ---------------------------------------------------------------------------
  // Order statistics

  predicate AtMost(x: real, y: real) { x <= y }

  lemma AtMostPreorder()
    ensures Preorder(AtMost)
  {
  }

  function Apply(f: real -> real, s: seq<real>): (r: seq<real>)
    ensures |r| == |s| && forall i :: 0 <= i < |s| ==> r[i] == f(s[i])
  {
    seq(|s|, i requires 0 <= i < |s| => f(s[i]))
  }

  ghost predicate Monotone(f: real -> real) { forall x, y :: x <= y ==> f(x) <= f(y) }

  lemma ApplyConcat(f: real -> real, s: seq<real>, t: seq<real>)
    ensures Apply(f, s + t) == Apply(f, s) + Apply(f, t)
  {
  }

  lemma ApplyMiddle(f: real -> real, front: seq<real>, x: real, back: seq<real>)
    ensures multiset(Apply(f, front + [x] + back)) == multiset(Apply(f, front + back)) + multiset{f(x)}
  {
    hide Apply;
    ApplyConcat(f, front + [x], back);
    ApplyConcat(f, front, [x]);
    ApplyConcat(f, front, back);
    assert Apply(f, [x]) == [f(x)];
  }

  lemma {:induction false} ApplyPermutation(f: real -> real, a: seq<real>, b: seq<real>)
    requires multiset(a) == multiset(b)
    ensures multiset(Apply(f, a)) == multiset(Apply(f, b))
  {
    hide Apply;
    if a == [] {
      assert |multiset(b)| == 0;
    } else {
      var j := TakeFirst(a, b);
      var (front, back) := (b[..j], b[j + 1..]);
      ApplyPermutation(f, a[1..], front + back);
      assert a == [a[0]] + a[1..] && b == front + [a[0]] + back;
      ApplyMiddle(f, [], a[0], a[1..]);
      ApplyMiddle(f, front, a[0], back);
      assert [] + [a[0]] + a[1..] == a && [] + a[1..] == a[1..];
    }
  }

  /** A monotone map commutes with sorting. */
  lemma SortCommutes(f: real -> real, s: seq<real>)
    requires Monotone(f)
    ensures Sort(Apply(f, s), AtMost) == Apply(f, Sort(s, AtMost))
  {
    var (a, b) := (Sort(Apply(f, s), AtMost), Apply(f, Sort(s, AtMost)));
    AtMostPreorder();
    SortOrders(s, AtMost);
    SortOrders(Apply(f, s), AtMost);
    ApplyPermutation(f, s, Sort(s, AtMost));
    assert Ordered(b, AtMost);
    OrderedUnique(a, b, AtMost);
  }

  function LowerMedian(s: seq<real>): real
    requires s != []
  {
    Sort(s, AtMost)[(|s| - 1) / 2]
  }

  function Minimum(s: seq<real>): real
    requires s != []
  {
    Sort(s, AtMost)[0]
  }

  lemma StatisticsIn(s: seq<real>)
    requires s != []
    ensures LowerMedian(s) in s && Minimum(s) in s
    ensures forall i :: 0 <= i < |s| ==> Minimum(s) <= s[i]
  {
    AtMostPreorder();
    SortOrders(s, AtMost);
    var r := Sort(s, AtMost);
    Sorting.SameMembers(s, r);
    forall i | 0 <= i < |s| ensures Minimum(s) <= s[i] {
      assert s[i] in r;
      var j :| 0 <= j < |r| && r[j] == s[i];
      assert j > 0 ==> AtMost(r[0], r[j]);
    }
  }

  function Under(m: real): real -> bool { x => x < m }

  function UpTo(m: real): real -> bool { x => x <= m }

  /** In a sorted list at most k elements are smaller than the one at k, and at least k + 1 are no larger. */
  lemma RankCounts(r: seq<real>, k: nat)
    requires k < |r| && Ordered(r, AtMost)
    ensures CountOf(r, Under(r[k])) <= k && CountOf(r, UpTo(r[k])) >= k + 1
  {
    hide CountOf;
    var (front, back) := (r[..k], r[k..]);
    assert r == front + back;
    forall i | 0 <= i < |back| ensures !Under(r[k])(back[i]) { assert AtMost(r[k], r[k + i]) || i == 0; }
    CountConcat(front, back, Under(r[k]));
    CountNone(back, Under(r[k]));
    var (low, high) := (r[..k + 1], r[k + 1..]);
    assert r == low + high;
    forall i | 0 <= i < |low| ensures UpTo(r[k])(low[i]) { assert AtMost(r[i], r[k]) || i == k; }
    CountConcat(low, high, UpTo(r[k]));
    CountAll(low, UpTo(r[k]));
  }

  /** Fewer than half of the values are below m, and at least half are not above it. */
  predicate Halves(s: seq<real>, m: real) {
    m in s && 2 * CountOf(s, Under(m)) < |s| && 2 * CountOf(s, UpTo(m)) >= |s|
  }

  /** The lower median is the one value of the list that fewer than half are below and at least half are not above. */
  lemma LowerMedianHalves(s: seq<real>, m: real)
    requires s != []
    ensures m == LowerMedian(s) <==> Halves(s, m)
  {
    var (r, k, median) := (Sort(s, AtMost), (|s| - 1) / 2, LowerMedian(s));
    AtMostPreorder();
    SortOrders(s, AtMost);
    RankCounts(r, k);
    StatisticsIn(s);
    CountPermuted(s, r, Under(median));
    CountPermuted(s, r, UpTo(median));
    if Halves(s, m) && m < median { CountWithin(s, UpTo(m), Under(median)); }
    if Halves(s, m) && median < m { CountWithin(s, UpTo(median), Under(m)); }
  }

  // ---------------------------------------------------------------------------
  // Rates

  predicate Measured(w: Window) { w.completedWork >= 0 && w.durationMs >= 1 }

  function Rate(w: Window): real
    requires Measured(w)
  {
    (w.completedWork * 1_000) as real / w.durationMs as real
  }

  /** The reported integer rate, in thousandths of a unit of work per second. */
  function Reported(w: Window): int
    requires Measured(w)
  {
    CeilDiv(w.completedWork * 1_000_000, w.durationMs)
  }

  function Milli(x: real): real { Ceil(1000.0 * x) as real }

  lemma MilliMonotone()
    ensures Monotone(Milli)
  {
    forall x: real, y: real | x <= y ensures Milli(x) <= Milli(y) {
      CeilMonotone(1000.0 * x, 1000.0 * y);
    }
  }

  lemma CeilMonotone(x: real, y: real)
    requires x <= y
    ensures Ceil(x) <= Ceil(y)
  {
    hide Ceil;
    assert Ceil(x) as real - 1.0 < Ceil(y) as real;
  }

  lemma CeilOfQuotient(a: int, b: int, q: real)
    requires b > 0 && q * b as real == a as real
    ensures Ceil(q) == CeilDiv(a, b)
  {
    hide Ceil, CeilDiv;
    var n := CeilDiv(a, b);
    var (below, above, c) := ((n - 1) as real, n as real, b as real);
    IntegerProduct(n, b);
    IntegerProduct(n - 1, b);
    CancelLt(below, q, c);
    CancelLe(q, above, c);
    CeilUnique(q, n);
  }

  /** The reported rate is the exact rate, rounded up. */
  lemma ReportedIsRounded(w: Window)
    requires Measured(w)
    ensures Reported(w) as real == Milli(Rate(w))
  {
    var b := w.durationMs as real;
    DivideBack((w.completedWork * 1_000) as real, b);
    Associate(1000.0, Rate(w), b);
    CeilOfQuotient(w.completedWork * 1_000_000, w.durationMs, 1000.0 * Rate(w));
  }

  /** The reported rate is the least whole number of thousandths a second that the work does not exceed. */
  lemma RateIsLeast(w: Window, r: int)
    requires Measured(w)
    ensures Reported(w) <= r <==> w.completedWork * 1_000_000 <= r * w.durationMs
  {
    var n := Reported(w);
    if n <= r { MulAtLeast(w.durationMs, n, r); } else { MulAtLeast(w.durationMs, r, n - 1); }
  }

  function Rates(ws: seq<Window>): (r: seq<real>)
    requires forall w :: w in ws ==> Measured(w)
    ensures |r| == |ws|
  {
    seq(|ws|, i requires 0 <= i < |ws| => Rate(ws[i]))
  }

  function ReportedRates(ws: seq<Window>): (r: seq<int>)
    requires forall w :: w in ws ==> Measured(w)
    ensures |r| == |ws| && forall i :: 0 <= i < |ws| ==> r[i] == Reported(ws[i])
  {
    seq(|ws|, i requires 0 <= i < |ws| => Reported(ws[i]))
  }

  function Reals(s: seq<int>): (r: seq<real>)
    ensures |r| == |s| && forall i :: 0 <= i < |s| ==> r[i] == s[i] as real
  {
    seq(|s|, i requires 0 <= i < |s| => s[i] as real)
  }

  /** Lower median and minimum of integers, sorted as numbers. */
  function Median(s: seq<int>): int
    requires s != []
  {
    LowerMedian(Reals(s)).Floor
  }

  function Least(s: seq<int>): int
    requires s != []
  {
    Minimum(Reals(s)).Floor
  }

  lemma IntegerStatistics(s: seq<int>)
    requires s != []
    ensures Median(s) in s && LowerMedian(Reals(s)) == Median(s) as real
    ensures Least(s) in s && Minimum(Reals(s)) == Least(s) as real
    ensures forall i :: 0 <= i < |s| ==> Least(s) <= s[i]
    ensures Least(s) <= Median(s)
  {
    hide LowerMedian, Minimum;
    var r := Reals(s);
    StatisticsIn(r);
    var i :| 0 <= i < |s| && r[i] == LowerMedian(r);
    var j :| 0 <= j < |s| && r[j] == Minimum(r);
    assert LowerMedian(r) == s[i] as real && Minimum(r) == s[j] as real;
    forall k | 0 <= k < |s| ensures Least(s) <= s[k] {
      assert r[k] in r;
    }
    assert Median(s) == s[i];
  }

  lemma {:induction false} CountReals(s: seq<int>, p: int -> bool, q: real -> bool)
    requires forall x: int :: p(x) == q(x as real)
    ensures CountOf(Reals(s), q) == CountOf(s, p)
  {
    if s != [] {
      assert Reals(s)[1..] == Reals(s[1..]);
      CountReals(s[1..], p, q);
    }
  }

  /** One of the integers, with fewer than half of them below it and at least half not above it. */
  predicate IsMedian(s: seq<int>, m: int) {
    m in s && 2 * CountOf(s, x => x < m) < |s| && 2 * CountOf(s, x => x <= m) >= |s|
  }

  /** The same of integers. */
  lemma MedianHalves(s: seq<int>, m: int)
    requires s != []
    ensures m == Median(s) <==> IsMedian(s, m)
  {
    hide LowerMedian;
    IntegerStatistics(s);
    LowerMedianHalves(Reals(s), m as real);
    CountReals(s, x => x < m, Under(m as real));
    CountReals(s, x => x <= m, UpTo(m as real));
    if m in s {
      var i :| 0 <= i < |s| && s[i] == m;
      assert Reals(s)[i] == m as real;
    }
    if m as real in Reals(s) {
      var i :| 0 <= i < |s| && Reals(s)[i] == m as real;
      assert s[i] == m;
    }
  }

  /** Median and minimum of the reported rates are the reported median and minimum rates. */
  lemma ReportedStatistics(ws: seq<Window>)
    requires ws != [] && forall w :: w in ws ==> Measured(w)
    ensures Median(ReportedRates(ws)) as real == Milli(LowerMedian(Rates(ws)))
    ensures Least(ReportedRates(ws)) as real == Milli(Minimum(Rates(ws)))
  {
    var (exact, reported) := (Rates(ws), ReportedRates(ws));
    forall i | 0 <= i < |ws| ensures Reals(reported)[i] == Apply(Milli, exact)[i] {
      ReportedIsRounded(ws[i]);
    }
    assert Reals(reported) == Apply(Milli, exact);
    MilliMonotone();
    SortCommutes(Milli, exact);
    IntegerStatistics(reported);
  }

  // ---------------------------------------------------------------------------
  // Degradation

  /** Exact degradation in basis points, rounded up; 0 for a non-positive reference. */
  function Degradation(reference: real, observed: real): int {
    if reference <= 0.0 then 0
    else Ceil((if reference > observed then reference - observed else 0.0) * 10_000.0 / reference)
  }

  /** The report's integer form of the same ratio. */
  function BasisPoints(numerator: int, denominator: int): int {
    if denominator <= 0 then 0 else CeilDiv(numerator * 10_000, denominator)
  }

  /** A ratio in basis points is within a limit exactly when the products are. */
  lemma ShareAtMost(numerator: int, denominator: int, limit: int)
    requires denominator > 0
    ensures BasisPoints(numerator, denominator) <= limit <==> numerator * 10_000 <= limit * denominator
  {
    var n := BasisPoints(numerator, denominator);
    if n <= limit { MulAtLeast(denominator, n, limit); } else { MulAtLeast(denominator, limit, n - 1); }
  }

  /** The exact degradation is the least whole number of basis points that the shortfall does not exceed. */
  lemma DegradationAtMost(reference: real, observed: real, limit: int)
    requires 0.0 <= observed <= reference && reference > 0.0
    ensures Degradation(reference, observed) <= limit <==>
            (reference - observed) * 10_000.0 <= limit as real * reference
  {
    var (d, gap) := (Degradation(reference, observed), (reference - observed) * 10_000.0);
    var q := gap / reference;
    DivideBack(gap, reference);
    if d <= limit {
      MulLe(q, limit as real, reference);
    } else if gap <= limit as real * reference {
      CancelLe(q, limit as real, reference);
    }
  }

  /** The analysis' form of it: a true division, then a ceiling. */
  function FloatDegradation(reference: int, least: int): int
    requires 0 <= least <= reference < LIMIT
  {
    if reference == 0 then 0 else
    DegradationDivides(reference, least);
    Ceil(TrueDivide((reference - least) * 10_000, reference))
  }

  lemma DegradationDivides(reference: int, least: int)
    requires 0 <= least <= reference < LIMIT && reference > 0
    ensures Dividable((reference - least) * 10_000, reference)
    ensures (reference - least) * 10_000 / reference <= 10_000 < Power(52)
  {
    hide Power;
    PowerValues();
    QuotientAtMost((reference - least) * 10_000, reference, 10_000);
  }

  lemma QuotientAtMost(a: int, b: int, n: int)
    requires b > 0 && 0 <= a <= n * b
    ensures a / b <= n
  {
    var k := a / b;
    assert b * k <= a;
    if k > n { MulAtLeast(b, n + 1, k); }
  }

  /** Reference and minimum for which the float form is exact: see SurvivesRounding. */
  predicate FloatKeeps(reference: int, least: int)
    requires 0 <= least <= reference < LIMIT
  {
    reference == 0 ||
    (DegradationDivides(reference, least); SurvivesRounding((reference - least) * 10_000, reference))
  }

  /** Float and integer forms of the degradation agree if and only if the fraction of basis points survives the
      rounding; when they do not, the float form is one basis point too low. */
  lemma FloatExactly(reference: int, least: int)
    requires 0 <= least <= reference < LIMIT
    ensures var (f, n) := (FloatDegradation(reference, least), BasisPoints(reference - least, reference));
      (f == n <==> FloatKeeps(reference, least)) && (f != n ==> f == n - 1)
  {
    hide SurvivesRounding, Ceil, TrueDivide, CeilDiv;
    if reference > 0 {
      DegradationDivides(reference, least);
      CeilExactly((reference - least) * 10_000, reference);
    }
  }

  /** So they agree for every reference below 2^40. */
  lemma FloatIsExact(reference: int, least: int)
    requires 0 <= least <= reference < 1099511627776
    ensures FloatDegradation(reference, least) == BasisPoints(reference - least, reference)
  {
    hide FloatDegradation, BasisPoints;
    FloatExactly(reference, least);
    if reference > 0 {
      DegradationDivides(reference, least);
      var a := (reference - least) * 10_000;
      SmallReference(a / reference, a % reference, reference);
    }
  }

  lemma SmallReference(k: int, r: int, reference: int)
    requires 0 < reference < 1099511627776 && 0 <= k <= 10_000 < Power(52) && r >= 0
    ensures FractionSurvives(k, r, reference)
  {
    hide Power, Log2;
    PowerValues();
    if k > 0 && r > 0 {
      Log2Bound(k);
      if Log2(k) >= 14 { PowerMonotone(14, Log2(k)); }
      PowerMonotone(40, 53 - Log2(k));
      MulAtLeast(Power(53 - Log2(k)), 1, r);
    }
  }

  /** Beyond 2^40 they need not: here the float form reports 9999 basis points where the exact ceiling is 10000. */
  lemma FloatLosesABasisPoint()
    ensures FloatDegradation(1099511630001, 109951163) == 9999
    ensures BasisPoints(1099511630001 - 109951163, 1099511630001) == 10_000
  {
    hide Power, Log2, FloatDegradation;
    var (reference, least) := (1099511630001, 109951163);
    FloatExactly(reference, least);
    DegradationDivides(reference, least);
    LostFraction(reference);
  }

  lemma LostFraction(reference: int)
    requires 1099511627776 <= reference
    ensures 9999 < Power(52) && !FractionSurvives(9999, 1, reference)
  {
    hide Power, Log2;
    PowerValues();
    Log2Bound(9999);
    if Log2(9999) >= 14 { PowerMonotone(14, Log2(9999)); }
    if Log2(9999) <= 12 { PowerMonotone(Log2(9999) + 1, 13); }
  }

  lemma IntegerDegradation(reference: int, observed: int)
    requires 0 <= observed <= reference
    ensures Degradation(reference as real, observed as real) == BasisPoints(reference - observed, reference)
  {
    if reference > 0 {
      var a := (reference - observed) * 10_000;
      DivideBack(a as real, reference as real);
      CeilOfQuotient(a, reference, a as real / reference as real);
    }
  }

  // ---------------------------------------------------------------------------
  // How far rounding the rates can move the degradation

  lemma CeilGap(x: real, y: real, gap: real)
    requires -gap < y - x < gap
    ensures -(gap + 1.0) < Ceil(y) as real - Ceil(x) as real < gap + 1.0
  {
  }

  lemma FractionGap(p: real, q: real, p': real, q': real)
    requires 0.0 <= p <= q && q > 0.0 && p <= p' < p + 1.0 && q <= q' < q + 1.0
    ensures -1.0 / q < p' / q' - p / q < 1.0 / q
  {
    DivideBack(p, q);
    DivideBack(p', q');
    DivideBack(1.0, q);
    GapAbove(p, q, p', q', p / q, p' / q', 1.0 / q);
    GapBelow(p, q, p', q', p / q, p' / q', 1.0 / q);
    assert -1.0 / q == -(1.0 / q);
  }

  lemma GapAbove(p: real, q: real, p': real, q': real, f: real, f': real, unit: real)
    requires 0.0 <= p && q > 0.0 && p' < p + 1.0 && q <= q'
    requires f * q == p && f' * q' == p' && unit * q == 1.0
    ensures f' < f + unit
  {
    var g := f + unit;
    assert g * q == p + 1.0;
    CancelLe(0.0, g, q);
    MulLe(q, q', g);
    assert g * q <= g * q';
    CancelLt(f', g, q');
  }

  lemma GapBelow(p: real, q: real, p': real, q': real, f: real, f': real, unit: real)
    requires 0.0 <= p <= q && q > 0.0 && p <= p' && q <= q' < q + 1.0
    requires f * q == p && f' * q' == p' && unit * q == 1.0
    ensures f - unit < f'
  {
    ShortFall(p, q, q', f, unit);
    CancelLt(f - unit, f', q');
  }

  lemma ShortFall(p: real, q: real, q': real, f: real, unit: real)
    requires 0.0 <= p <= q && q > 0.0 && q <= q' < q + 1.0 && f * q == p && unit * q == 1.0
    ensures (f - unit) * q' < p
  {
    var extra := q' - q;
    var (fe, ue) := (f * extra, unit * extra);
    CancelLe(f, 1.0, q);
    CancelLe(0.0, unit, q);
    MulLe(f, 1.0, extra);
    MulLe(0.0, unit, extra);
    assert fe <= extra && ue >= 0.0;
    assert (f - unit) * q' == p - 1.0 + fe - ue by { Expand(f, unit, q, extra); }
  }

  lemma Expand(f: real, unit: real, q: real, extra: real)
    ensures (f - unit) * (q + extra) == f * q - unit * q + f * extra - unit * extra
  {
  }

  lemma Complement(m: real, n: real, f: real, a: real)
    requires m > 0.0 && f * m == n && a * m == (m - n) * 10_000.0
    ensures a == 10_000.0 - 10_000.0 * f
  {
    Associate(10_000.0, f, m);
    Distribute(10_000.0, 10_000.0 * f, m);
    CancelEq(a, 10_000.0 - 10_000.0 * f, m);
  }

  lemma DegradationIs(m: real, n: real)
    requires 0.0 <= n <= m && m > 0.0
    ensures Degradation(m, n) == Ceil(10_000.0 - 10_000.0 * (n / m))
  {
    DivideBack(n, m);
    DivideBack((m - n) * 10_000.0, m);
    Complement(m, n, n / m, (m - n) * 10_000.0 / m);
  }

  lemma ScaledDegradation(m: real, n: real)
    requires 0.0 <= n <= m && m > 0.0
    ensures Degradation(1000.0 * m, 1000.0 * n) == Degradation(m, n)
  {
    DegradationIs(m, n);
    DegradationIs(1000.0 * m, 1000.0 * n);
    DivideBack(n, m);
    var f := n / m;
    assert f * (1000.0 * m) == 1000.0 * (f * m);
    DivideBack(1000.0 * n, 1000.0 * m);
    var g := 1000.0 * n / (1000.0 * m);
    var (fm, gm) := (f * (1000.0 * m), g * (1000.0 * m));
    assert fm == 1000.0 * n && gm == 1000.0 * n;
    CancelEq(f, g, 1000.0 * m);
  }

  /** Degradation of rates rounded up to thousandths is within 10^4 / (1000 m) + 1 basis points of the exact one. */
  lemma RoundingError(m: real, n: real)
    requires 0.0 <= n <= m && m > 0.0
    ensures var error := (Degradation(Milli(m), Milli(n)) - Degradation(m, n)) as real;
      -(10_000.0 / (1000.0 * m) + 1.0) < error < 10_000.0 / (1000.0 * m) + 1.0
  {
    hide Degradation, Ceil;
    var (q, p) := (1000.0 * m, 1000.0 * n);
    MilliMonotone();
    ScaledDegradation(m, n);
    RoundingErrorAt(q, p, Milli(m), Milli(n));
  }

  lemma RoundingErrorAt(q: real, p: real, q': real, p': real)
    requires 0.0 <= p <= q && q > 0.0 && p <= p' < p + 1.0 && q <= q' < q + 1.0 && p' <= q'
    ensures var error := (Degradation(q', p') - Degradation(q, p)) as real;
      -(10_000.0 / q + 1.0) < error < 10_000.0 / q + 1.0
  {
    hide Degradation, Ceil;
    DegradationIs(q, p);
    DegradationIs(q', p');
    FractionGap(p, q, p', q');
    ScaleGap(p / q, p' / q', q);
    CeilGap(10_000.0 - 10_000.0 * (p / q), 10_000.0 - 10_000.0 * (p' / q'), 10_000.0 / q);
  }

  lemma ScaleGap(f: real, f': real, q: real)
    requires q > 0.0 && -1.0 / q < f' - f < 1.0 / q
    ensures -(10_000.0 / q) < 10_000.0 * f - 10_000.0 * f' < 10_000.0 / q
  {
    var (unit, gap) := (1.0 / q, 10_000.0 / q);
    DivideBack(1.0, q);
    DivideBack(10_000.0, q);
    Associate(10_000.0, unit, q);
    CancelEq(gap, 10_000.0 * unit, q);
  }

  /** The report's degradation against the exact one, for any windows with a positive median rate. */
  lemma ReportedDegradation(ws: seq<Window>)
    requires ws != [] && forall w :: w in ws ==> Measured(w)
    requires LowerMedian(Rates(ws)) > 0.0
    ensures var (m, reported) := (LowerMedian(Rates(ws)), ReportedRates(ws));
      var error := (BasisPoints(Median(reported) - Least(reported), Median(reported))
                    - Degradation(m, Minimum(Rates(ws)))) as real;
      -(10_000.0 / (1000.0 * m) + 1.0) < error < 10_000.0 / (1000.0 * m) + 1.0
  {
    hide LowerMedian, Minimum, Median, Least, Degradation, BasisPoints;
    var (m, n, reported) := (LowerMedian(Rates(ws)), Minimum(Rates(ws)), ReportedRates(ws));
    StatisticsIn(Rates(ws));
    IntegerStatistics(reported);
    ReportedStatistics(ws);
    var i :| 0 <= i < |ws| && Rates(ws)[i] == n;
    RateNonNegative(ws[i]);
    RoundingError(m, n);
    var j :| 0 <= j < |ws| && reported[j] == Least(reported);
    IntegerDegradation(Median(reported), Least(reported));
  }

  lemma RateNonNegative(w: Window)
    requires Measured(w)
    ensures Rate(w) >= 0.0 && Reported(w) >= 0
  {
    DivideBack((w.completedWork * 1_000) as real, w.durationMs as real);
    CancelLe(0.0, Rate(w), w.durationMs as real);
    NotNegative(w.durationMs, Reported(w));
  }

  lemma NotNegative(d: int, n: int)
    requires d > 0 && d * n >= 0
    ensures n >= 0
  {
  }

  // ---------------------------------------------------------------------------
  // The running threshold

  predicate SafeRates(reported: seq<int>) { forall i :: 0 <= i < |reported| ==> 0 <= reported[i] < LIMIT }

  /** Degradation of the windows seen so far, as the analysis computes it. */
  function Running(prefix: seq<int>): int
    requires prefix != [] && SafeRates(prefix)
  {
    RunningBounds(prefix);
    FloatDegradation(Median(prefix), Least(prefix))
  }

  lemma RunningBounds(prefix: seq<int>)
    requires prefix != [] && SafeRates(prefix)
    ensures 0 <= Least(prefix) <= Median(prefix) < LIMIT
  {
    hide Median, Least;
    IntegerStatistics(prefix);
    var i :| 0 <= i < |prefix| && prefix[i] == Median(prefix);
    var j :| 0 <= j < |prefix| && prefix[j] == Least(prefix);
  }

  lemma NoReference(reference: int, least: int)
    requires 0 <= least <= reference < LIMIT
    ensures reference == 0 ==> FloatDegradation(reference, least) == 0
  {
  }

  datatype Crossing = Crossing(windows: nat, degradation: int)

  /** The crossing is the first prefix whose degradation exceeds the maximum; none only if there is no such prefix. */
  predicate FirstAbove(reported: seq<int>, maximum: int, crossing: Option<Crossing>)
    requires SafeRates(reported)
  {
    match crossing
    case None => forall k :: 1 <= k <= |reported| ==> Running(reported[..k]) <= maximum
    case Some(Crossing(k, d)) =>
      && 1 <= k <= |reported| && d == Running(reported[..k]) > maximum
      && forall j :: 1 <= j < k ==> Running(reported[..j]) <= maximum
  }

  method FirstCrossing(reported: seq<int>, maximum: int) returns (crossing: Option<Crossing>)
    requires SafeRates(reported)
    ensures FirstAbove(reported, maximum, crossing)
  {
    hide FloatDegradation, Median, Least;
    for offset := 1 to |reported| + 1
      invariant forall k :: 1 <= k < offset ==> Running(reported[..k]) <= maximum
    {
      var prefix := reported[..offset];
      RunningBounds(prefix);
      var reference := Median(prefix);
      NoReference(reference, Least(prefix));
      var degradation := if reference != 0 then FloatDegradation(reference, Least(prefix)) else 0;
      if degradation > maximum { return Some(Crossing(offset, degradation)); }
    }
    return None;
  }

  /** Some rate is further below the median than the limit allows. */
  predicate FallsShort(rates: seq<int>, limit: int)
    requires rates != []
  {
    exists i :: 0 <= i < |rates| && 10_000 * (Median(rates) - rates[i]) > limit * Median(rates)
  }

  /** The least rate decides. */
  lemma LeastFallsShort(rates: seq<int>, limit: int)
    requires rates != []
    ensures FallsShort(rates, limit) <==> 10_000 * (Median(rates) - Least(rates)) > limit * Median(rates)
  {
    hide Median, Least;
    IntegerStatistics(rates);
    var j :| 0 <= j < |rates| && rates[j] == Least(rates);
    assert 10_000 * (Median(rates) - rates[j]) > limit * Median(rates) ==> FallsShort(rates, limit);
  }

  lemma RunningExceeds(prefix: seq<int>, limit: int)
    requires prefix != [] && limit >= 0 && forall i :: 0 <= i < |prefix| ==> 0 <= prefix[i] < 1099511627776
    ensures SafeRates(prefix) && (Running(prefix) > limit <==> FallsShort(prefix, limit))
  {
    hide Median, Least, FloatDegradation, BasisPoints, FallsShort;
    RunningBounds(prefix);
    IntegerStatistics(prefix);
    LeastFallsShort(prefix, limit);
    var (m, n) := (Median(prefix), Least(prefix));
    var i :| 0 <= i < |prefix| && prefix[i] == m;
    FloatIsExact(m, n);
    if m > 0 { ShareAtMost(m - n, m, limit); } else { NoReference(m, n); }
  }

  /** On rates below 2^40, where the division is exact, the crossing is the first prefix in which some window falls
      short of the prefix's median by more than the limit. */
  lemma CrossingExactly(reported: seq<int>, limit: int, crossing: Option<Crossing>)
    requires SafeRates(reported) && FirstAbove(reported, limit, crossing) && limit >= 0
    requires forall i :: 0 <= i < |reported| ==> 0 <= reported[i] < 1099511627776
    ensures crossing.None? <==> forall k :: 1 <= k <= |reported| ==> !FallsShort(reported[..k], limit)
    ensures crossing.Some? ==>
              var k := crossing.value.windows;
              && 1 <= k <= |reported| && FallsShort(reported[..k], limit)
              && (forall j :: 1 <= j < k ==> !FallsShort(reported[..j], limit))
              && !FallsShort(reported[..k], crossing.value.degradation)
              && FallsShort(reported[..k], crossing.value.degradation - 1)
  {
    hide Running, FallsShort;
    forall k | 1 <= k <= |reported|
      ensures Running(reported[..k]) > limit <==> FallsShort(reported[..k], limit)
    {
      RunningExceeds(reported[..k], limit);
    }
    if crossing.Some? {
      RunningExceeds(reported[..crossing.value.windows], crossing.value.degradation);
      RunningExceeds(reported[..crossing.value.windows], crossing.value.degradation - 1);
    }
  }
}
