/** Largest-remainder apportionment of a total over weighted names.

  The code divides decimals of 28 digits, so it has an order of its own among equal exact fractions; the promise of the
  method is in terms of the exact quotas. A name carries its rank in the order of names, the only thing the algorithm
  uses of it.
*/
module Apportionment {
  import opened Decimal28
  import opened Options
  import opened Sorting
  import opened Sums

  datatype Name = Name(rank: int)

  // ---------------------------------------------------------------------------
  // Quotas

  ghost function Denominator(weights: map<Name, nat>): int { Total(weights) }

  function Floor(total: nat, weight: nat, denominator: int): nat
    requires denominator > 0
  {
    total * weight / denominator
  }

  function Excess(total: nat, weight: nat, denominator: int): int
    requires denominator > 0
  {
    total * weight % denominator
  }

  lemma Divided(total: nat, weight: nat, d: int)
    requires d > 0
    ensures 0 <= Excess(total, weight, d) < d
    ensures total * weight == d * Floor(total, weight, d) + Excess(total, weight, d)
  {
  }

  ghost predicate Extra(total: nat, weights: map<Name, nat>, r: map<Name, int>, n: Name)
    requires Denominator(weights) > 0 && n in weights && n in r
  {
    r[n] == Floor(total, weights[n], Denominator(weights)) + 1
  }

  /** The promise of largest remainders: the total is spent, every count is its quota's floor or one more, and no name
      gets an extra unit before one with a larger fraction. */
  ghost predicate Apportions(total: nat, weights: map<Name, nat>, r: map<Name, int>)
    requires Denominator(weights) > 0
  {
    && r.Keys == weights.Keys
    && Total(r) == total
    && (forall n :: n in r ==> r[n] == Floor(total, weights[n], Denominator(weights)) || Extra(total, weights, r, n))
    && (forall m, n :: m in r && n in r && Extra(total, weights, r, n) && LargerFraction(total, weights, m, n)
                       ==> Extra(total, weights, r, m))
  }

  /** m's quota has the larger fraction. */
  ghost predicate LargerFraction(total: nat, weights: map<Name, nat>, m: Name, n: Name)
    requires Denominator(weights) > 0 && m in weights && n in weights
  {
    Excess(total, weights[m], Denominator(weights)) > Excess(total, weights[n], Denominator(weights))
  }

  // ---------------------------------------------------------------------------
  // The code's order and what it hands out, on all inputs

  /** The quota as the code has it: a rounded product, divided and rounded. */
  function Raw(total: nat, weight: nat, d: int): (v: real)
    requires d > 0
  {
    Round28(Product28(total, weight), d)
  }

  /** int(raw), on the quotas of a dictionary. */
  ghost function Wholes(total: nat, weights: map<Name, nat>): map<Name, int>
    requires Denominator(weights) > 0
  {
    map n | n in weights :: Raw(total, weights[n], Denominator(weights)).Floor
  }

  /** raw - int(raw). */
  function Part28(total: nat, weights: map<Name, nat>, d: int, n: Name): real
    requires d > 0
  {
    if n in weights then Fraction(Raw(total, weights[n], d)) else 0.0
  }

  /** sorted(weights, key=(fraction, name), reverse=True) as a comparison. */
  function Precedence(total: nat, weights: map<Name, nat>, d: int): (Name, Name) -> bool
    requires d > 0
  {
    (m: Name, n: Name) => Ahead(Part28(total, weights, d, m), m, Part28(total, weights, d, n), n)
  }

  predicate Ahead(a: real, m: Name, b: real, n: Name) { a > b || (a == b && m.rank >= n.rank) }

  /** How many elements order[:k] has, of n: a negative bound counts from the end. */
  function Taken(k: int, n: nat): (t: nat)
    ensures t <= n
  {
    if k >= n then n else if k >= 0 then k else if n + k >= 0 then n + k else 0
  }

  ghost predicate Topped(total: nat, weights: map<Name, nat>, r: map<Name, int>, n: Name)
    requires Denominator(weights) > 0 && n in weights && n in r
  {
    r[n] == Wholes(total, weights)[n] + 1
  }

  /** What the code hands out: its whole parts, one more for each of the first names in its order. */
  ghost predicate HandedOut(total: nat, weights: map<Name, nat>, r: map<Name, int>)
    requires Denominator(weights) > 0
  {
    var wholes := Wholes(total, weights);
    && r.Keys == weights.Keys
    && Total(r) == Total(wholes) + Taken(total - Total(wholes), |weights|)
    && (forall n :: n in r ==> r[n] == wholes[n] || Topped(total, weights, r, n))
    && (forall m, n :: m in r && n in r && Precedence(total, weights, Denominator(weights))(m, n)
                       ==> Topped(total, weights, r, n) ==> Topped(total, weights, r, m))
  }

  // ---------------------------------------------------------------------------
  // The algorithm

  lemma PrecedenceOrders(total: nat, weights: map<Name, nat>, d: int)
    requires d > 0
    ensures Preorder(Precedence(total, weights, d))
  {
    hide Part28;
  }

  /** The iteration order of a dictionary: every key once. */
  ghost predicate Lists(names: seq<Name>, weights: map<Name, int>) {
    && Distinct(names)
    && (forall n :: n in names <==> n in weights)
  }

  ghost function Part<T>(m: map<Name, T>, names: seq<Name>): map<Name, T>
    requires forall n :: n in names ==> n in m
  {
    map n | n in names :: m[n]
  }

  lemma PartStep<T>(m: map<Name, T>, names: seq<Name>, i: nat)
    requires i < |names| && (forall n :: n in names ==> n in m) && Distinct(names)
    ensures Part(m, names[..i + 1]) == Part(m, names[..i])[names[i] := m[names[i]]]
    ensures names[i] !in Part(m, names[..i])
  {
    assert names[..i + 1] == names[..i] + [names[i]];
  }

  method SumOf(names: seq<Name>, m: map<Name, int>) returns (sum: int)
    requires Lists(names, m)
    ensures sum == Total(m)
  {
    sum := 0;
    assert Part(m, names[..0]) == map[];
    for i := 0 to |names|
      invariant sum == Total(Part(m, names[..i]))
    {
      PartStep(m, names, i);
      TotalUpdate(Part(m, names[..i]), names[i], m[names[i]]);
      sum := sum + m[names[i]];
    }
    assert names[..|names|] == names;
    assert Part(m, names).Keys == m.Keys;
    assert Part(m, names) == m;
  }

  ghost function Floors(total: nat, weights: map<Name, nat>): map<Name, nat>
    requires Denominator(weights) > 0
  {
    map n | n in weights :: Floor(total, weights[n], Denominator(weights))
  }

  /** The left-over units are fewer than the names. */
  lemma LeftOver(total: nat, weights: map<Name, nat>)
    requires Denominator(weights) > 0
    ensures 0 <= total - Total(Floors(total, weights)) < |weights|
  {
    hide Floor, Excess;
    var d := Denominator(weights);
    var floors := Floors(total, weights);
    var excess := map n | n in weights :: Excess(total, weights[n], d);
    assert excess.Keys == floors.Keys == weights.Keys;
    forall n | n in excess
      ensures 0 <= excess[n] < d && Differs(total, weights[n], d, floors[n], excess[n])
    {
      Divided(total, weights[n], d);
    }
    TotalDifference(total, weights, d, floors, excess);
    TotalBelow(excess, d);
    assert |excess| == |excess.Keys| == |weights|;
    assert weights != map[];
    var left := total - Total(floors);
    Scale(total, d, Total(floors), left, |weights|);
  }

  lemma Scale(total: int, d: int, floors: int, left: int, n: int)
    requires d > 0 && left == total - floors && 0 <= total * d - d * floors < d * n
    ensures 0 <= left < n
  {
    assert total * d - d * floors == d * left;
  }

  method WholesOf(total: nat, names: seq<Name>, weights: map<Name, nat>, denominator: int)
    returns (result: map<Name, int>)
    requires Lists(names, weights) && denominator == Denominator(weights) > 0
    ensures result == Wholes(total, weights) && result.Keys == weights.Keys && Lists(names, result)
  {
    hide Raw;
    result := map[];
    ghost var wholes := Wholes(total, weights);
    for i := 0 to |names|
      invariant result == Part(wholes, names[..i])
    {
      PartStep(wholes, names, i);
      result := result[names[i] := Raw(total, weights[names[i]], denominator).Floor];
    }
    assert names[..|names|] == names;
  }

  /** One more unit for each of the first k names. */
  method HandOut(order: seq<Name>, k: nat, base: map<Name, int>) returns (result: map<Name, int>)
    requires Lists(order, base) && k <= |order|
    ensures result.Keys == base.Keys && Total(result) == Total(base) + k
    ensures forall n :: n in result ==> result[n] == base[n] + if n in order[..k] then 1 else 0
  {
    result := base;
    for i := 0 to k
      invariant result.Keys == base.Keys && Total(result) == Total(base) + i
      invariant forall n :: n in result ==> result[n] == base[n] + if n in order[..i] then 1 else 0
    {
      var name := order[i];
      TotalUpdate(result, name, result[name] + 1);
      HandOne(order, i, base, result);
      result := result[name := result[name] + 1];
    }
  }

  lemma HandOne(order: seq<Name>, i: nat, base: map<Name, int>, result: map<Name, int>)
    requires i < |order| && Distinct(order)
    requires result.Keys == base.Keys && order[i] in base
    requires forall n :: n in result ==> result[n] == base[n] + if n in order[..i] then 1 else 0
    ensures var next := result[order[i] := result[order[i]] + 1];
      next.Keys == base.Keys && forall n :: n in next ==> next[n] == base[n] + if n in order[..i + 1] then 1 else 0
  {
    assert order[..i + 1] == order[..i] + [order[i]];
    assert order[i] !in order[..i];
  }

  /** Largest remainder, over the names in any order the dictionary may have. An empty dictionary gives an empty result,
      whatever the total; otherwise a zero sum of weights is a division by zero. */
  method LargestRemainder(total: nat, names: seq<Name>, weights: map<Name, nat>) returns (r: Option<map<Name, int>>)
    requires Lists(names, weights)
    ensures names == [] ==> r == Some(map[])
    ensures r.None? <==> names != [] && Denominator(weights) == 0
    ensures r.Some? && names != [] ==> Denominator(weights) > 0 && HandedOut(total, weights, r.value)
    ensures r.Some? && names != [] && Precise(total, weights) ==> Apportions(total, weights, r.value)
  {
    hide Raw, Ordered, Apportions, HandedOut, Total, Precedence, Precise, Taken, Lists, Wholes;
    var denominator := SumOf(names, weights);
    NonNegative(weights);
    if names == [] { return Some(map[]); }
    if denominator == 0 { return None; }
    assert denominator == Denominator(weights);
    hide Denominator;
    var wholes := WholesOf(total, names, weights, denominator);
    var granted := SumOf(names, wholes);
    var order := InOrder(total, names, weights, denominator);
    SameKeys(order, weights, wholes);
    var taken := Taken(total - granted, |order|);
    var result := HandOut(order, taken, wholes);
    Outcome(total, weights, order, wholes, taken, result);
    r := Some(result);
  }

  lemma NonNegative(weights: map<Name, nat>)
    ensures Denominator(weights) >= 0
  {
    var zero := map n | n in weights :: 0;
    TotalLe(zero, weights);
    TotalDifference(0, zero, 0, zero, zero);
  }

  /** sorted(weights, key=(fraction, name), reverse=True), of the dictionary's keys. */
  method InOrder(total: nat, names: seq<Name>, weights: map<Name, nat>, d: int) returns (order: seq<Name>)
    requires Lists(names, weights) && d > 0
    ensures Lists(order, weights) && Ordered(order, Precedence(total, weights, d)) && |order| == |weights|
  {
    hide Ordered, Precedence;
    var precedence := Precedence(total, weights, d);
    order := Sort(names, precedence);
    PrecedenceOrders(total, weights, d);
    SortOrders(names, precedence);
    SameMembers(names, order);
    PermutationDistinct(names, order);
    AsMany(names, weights);
  }

  lemma {:induction false} AsMany(names: seq<Name>, weights: map<Name, nat>)
    requires Lists(names, weights)
    ensures |names| == |weights|
  {
    if names == [] {
      assert weights == map[];
    } else {
      OneLess(weights, names[0]);
      AsMany(names[1..], weights - {names[0]});
    }
  }

  lemma Precedes(total: nat, weights: map<Name, nat>, d: int, order: seq<Name>, i: nat, j: nat)
    requires d > 0 && i < |order| && j < |order| && order[i] != order[j]
    requires Ordered(order, Precedence(total, weights, d)) && Precedence(total, weights, d)(order[i], order[j])
    ensures i < j
  {
    hide Part28;
  }

  /** The first k names in the code's order are closed under it. */
  lemma TakenFirst(total: nat, weights: map<Name, nat>, d: int, order: seq<Name>, k: nat, m: Name, n: Name)
    requires d > 0 && Lists(order, weights) && k <= |order| && m in weights && n in order[..k]
    requires Ordered(order, Precedence(total, weights, d)) && Precedence(total, weights, d)(m, n)
    ensures m in order[..k]
  {
    hide Precedence, Ordered;
    var i :| 0 <= i < |order| && order[i] == m;
    var j :| 0 <= j < k && order[j] == n;
    if m != n {
      Precedes(total, weights, d, order, i, j);
      assert order[..k][i] == m;
    }
  }

  lemma InCodeOrder(total: nat, weights: map<Name, nat>, order: seq<Name>, k: nat, r: map<Name, int>)
    requires Denominator(weights) > 0 && Lists(order, weights) && k <= |order|
    requires Ordered(order, Precedence(total, weights, Denominator(weights)))
    requires k == Taken(total - Total(Wholes(total, weights)), |weights|)
    requires r.Keys == weights.Keys && Total(r) == Total(Wholes(total, weights)) + k
    requires forall n :: n in r ==> r[n] == Wholes(total, weights)[n] + if n in order[..k] then 1 else 0
    ensures HandedOut(total, weights, r)
  {
    hide Raw, Precedence, Ordered, Taken, Total, Lists, Denominator;
    var d := Denominator(weights);
    forall m, n | m in r && n in r && Topped(total, weights, r, n) && Precedence(total, weights, d)(m, n)
      ensures Topped(total, weights, r, m)
    {
      TakenFirst(total, weights, d, order, k, m, n);
    }
  }

  lemma SameKeys(names: seq<Name>, a: map<Name, int>, b: map<Name, int>)
    requires Lists(names, a) && a.Keys == b.Keys
    ensures Lists(names, b)
  {
  }

  lemma Outcome(
    total: nat, weights: map<Name, nat>, order: seq<Name>, wholes: map<Name, int>, k: nat, r: map<Name, int>)
    requires Denominator(weights) > 0 && Lists(order, weights) && wholes == Wholes(total, weights)
    requires Ordered(order, Precedence(total, weights, Denominator(weights)))
    requires |order| == |weights| && k == Taken(total - Total(wholes), |order|)
    requires r.Keys == wholes.Keys && Total(r) == Total(wholes) + k
    requires forall n :: n in r ==> r[n] == wholes[n] + if n in order[..k] then 1 else 0
    ensures HandedOut(total, weights, r)
    ensures Precise(total, weights) ==> Apportions(total, weights, r)
  {
    hide Raw, Ordered, Apportions, HandedOut, Precedence, Precise, Taken, Total, Denominator;
    InCodeOrder(total, weights, order, k, r);
    if Precise(total, weights) { KeepsThePromise(total, weights, r); }
  }

  /** Two outcomes the code may have are the same, so the dictionary's order cannot matter. */
  lemma Unique(total: nat, weights: map<Name, nat>, r: map<Name, int>, s: map<Name, int>)
    requires Denominator(weights) > 0 && HandedOut(total, weights, r) && HandedOut(total, weights, s)
    ensures r == s
  {
    NotMore(total, weights, r, s);
    NotMore(total, weights, s, r);
    assert forall n :: n in r ==> r[n] == s[n];
  }

  lemma NoTrade(total: nat, weights: map<Name, nat>, r: map<Name, int>, s: map<Name, int>, m: Name, n: Name)
    requires Denominator(weights) > 0 && HandedOut(total, weights, r) && HandedOut(total, weights, s)
    requires m in weights && n in weights && s[n] < r[n]
    ensures s[m] <= r[m]
  {
    hide Raw, Part28, Taken;
    var precedence := Precedence(total, weights, Denominator(weights));
    assert precedence(m, n) || precedence(n, m);
  }

  lemma NotMore(total: nat, weights: map<Name, nat>, r: map<Name, int>, s: map<Name, int>)
    requires Denominator(weights) > 0 && HandedOut(total, weights, r) && HandedOut(total, weights, s)
    ensures forall n :: n in r ==> r[n] <= s[n]
  {
    forall n | n in r ensures r[n] <= s[n] {
      if s[n] < r[n] {
        forall m | m in s ensures s[m] <= r[m] { NoTrade(total, weights, r, s, m, n); }
        TotalLt(s, r, n);
      }
    }
  }

  // ---------------------------------------------------------------------------
  // The code keeps the promise

  /** The product has at most 28 digits, and its quotient keeps enough fractional digits for the denominator. */
  predicate PreciseQuota(total: nat, weight: nat, d: int)
    requires d > 0
  {
    total * weight < TEN_28 && Fine(total * weight, d)
  }

  ghost predicate Precise(total: nat, weights: map<Name, nat>)
    requires Denominator(weights) > 0
  {
    forall n :: n in weights ==> PreciseQuota(total, weights[n], Denominator(weights))
  }

  /** Products below 10^27 are precise, whatever the denominator. */
  lemma SmallIsPrecise(total: nat, weights: map<Name, nat>)
    requires Denominator(weights) > 0 && forall n :: n in weights ==> total * weights[n] < TEN_27
    ensures Precise(total, weights)
  {
    hide Fine;
    forall n | n in weights ensures PreciseQuota(total, weights[n], Denominator(weights)) {
      FineBelow(total * weights[n], Denominator(weights));
    }
  }

  lemma RawKeeps(total: nat, weight: nat, d: int)
    requires d > 0 && PreciseQuota(total, weight, d)
    ensures Raw(total, weight, d).Floor == Floor(total, weight, d)
    ensures Raw(total, weight, d) == Round28(total * weight, d)
  {
    hide Round28, Fine;
    WholeRounded(total * weight);
    QuotientKeeps(total * weight, d);
  }

  lemma OrderKept(total: nat, a: nat, b: nat, d: int)
    requires d > 0 && PreciseQuota(total, a, d) && PreciseQuota(total, b, d)
    requires Excess(total, a, d) > Excess(total, b, d)
    ensures Fraction(Raw(total, a, d)) > Fraction(Raw(total, b, d))
  {
    hide Round28, Raw, Fraction, Fine;
    RawKeeps(total, a, d);
    RawKeeps(total, b, d);
    FractionsFollowRemainders(total * a, total * b, d);
  }

  lemma WholesAreFloors(total: nat, weights: map<Name, nat>)
    requires Denominator(weights) > 0 && Precise(total, weights)
    ensures Wholes(total, weights) == Floors(total, weights)
  {
    hide Raw, Floor, Denominator;
    forall n | n in weights
      ensures Wholes(total, weights)[n] == Floors(total, weights)[n]
    {
      RawKeeps(total, weights[n], Denominator(weights));
    }
  }

  /** For precise quotas the code's digits do not matter: what it hands out keeps the promise on the exact quotas. */
  lemma KeepsThePromise(total: nat, weights: map<Name, nat>, r: map<Name, int>)
    requires Denominator(weights) > 0 && HandedOut(total, weights, r) && Precise(total, weights)
    ensures Apportions(total, weights, r)
  {
    hide Raw, Floor, Excess, Denominator, Total;
    WholesAreFloors(total, weights);
    LeftOver(total, weights);
    var d := Denominator(weights);
    forall m, n | m in r && n in r && Extra(total, weights, r, n) && LargerFraction(total, weights, m, n)
      ensures Extra(total, weights, r, m)
    {
      OrderKept(total, weights[m], weights[n], d);
      assert Topped(total, weights, r, n) && Precedence(total, weights, d)(m, n);
    }
  }

  // ---------------------------------------------------------------------------
  // Where the digits show

  const A := Name(0)
  const B := Name(1)
  const C := Name(2)

  /** The decimal of 1/3 has 28 threes and that of 4/3 has 27 after the point. */
  lemma Thirds()
    ensures Raw(2, 1, 6).Floor == 0 && Raw(2, 4, 6).Floor == 1
    ensures Fraction(Raw(2, 1, 6)) > Fraction(Raw(2, 4, 6))
  {
    FineBelow(2, 6);
    FineBelow(8, 6);
    RawKeeps(2, 1, 6);
    RawKeeps(2, 4, 6);
    ThirdsRounded();
    hide Round28, Raw;
    var (x, y) := (Raw(2, 1, 6), Raw(2, 4, 6));
    assert Floor(2, 1, 6) == 0 && Floor(2, 4, 6) == 1;
    assert x * TEN_28 as real == 3333333333333333333333333333.0 && y * TEN_27 as real == 1333333333333333333333333333.0;
  }

  lemma ThirdsRounded()
    ensures Round28(2, 6) * TEN_28 as real == 3333333333333333333333333333.0
    ensures Round28(8, 6) * TEN_27 as real == 1333333333333333333333333333.0
  {
    PowerValues();
    Pow10Next(-1);
    Pow10Next(0);
    hide Pow10, Power10, Round28;
    RoundsFinely(2, 6, -1, TEN_28, 3333333333333333333333333333);
    RoundsFinely(8, 6, 0, TEN_27, 1333333333333333333333333333);
  }

  lemma TotalOfThree(x: int, y: int, z: int)
    ensures Total(map[A := x, B := y, C := z]) == x + y + z
  {
    hide Total;
    TotalEmpty();
    TotalUpdate(map[], A, x);
    TotalUpdate(map[A := x], B, y);
    TotalUpdate(map[A := x, B := y], C, z);
  }

  lemma TotalEmpty()
    ensures Total<Name>(map[]) == 0
  {
  }

  const THIRDS: map<Name, nat> := map[A := 1, B := 1, C := 4]

  lemma ThirdsSum()
    ensures Denominator(THIRDS) == 6
  {
    TotalOfThree(1, 1, 4);
  }

  lemma ThirdsWholes()
    ensures Denominator(THIRDS) == 6 && Wholes(2, THIRDS) == map[A := 0, B := 0, C := 1]
  {
    ThirdsSum();
    Thirds();
    hide Raw, Denominator;
  }

  /** Only the second name precedes itself. */
  lemma SecondIsFirst(m: Name)
    requires m in THIRDS && Precedence(2, THIRDS, 6)(m, B)
    ensures m == B
  {
    Thirds();
    hide Raw, Fraction;
  }

  lemma ThirdsHandedOut()
    ensures Denominator(THIRDS) == 6 && HandedOut(2, THIRDS, map[A := 0, B := 1, C := 1])
  {
    hide Total, Denominator, Precedence, Wholes;
    ThirdsWholes();
    TotalOfThree(0, 0, 1);
    TotalOfThree(0, 1, 1);
    var r := map[A := 0, B := 1, C := 1];
    assert |THIRDS| == 3;
    forall m, n | m in r && n in r && Precedence(2, THIRDS, 6)(m, n) && Topped(2, THIRDS, r, n)
      ensures Topped(2, THIRDS, r, m)
    {
      assert n == B;
      SecondIsFirst(m);
    }
  }

  /** Among equal exact fractions the code follows the digits and not the names: of weights 1, 1 and 4 and a total of 2
      all fractions are a third, and the one unit left over goes to the second name. */
  lemma TiesFollowDigits(r: map<Name, int>)
    ensures Denominator(THIRDS) == 6 && forall n :: n in THIRDS ==> Excess(2, THIRDS[n], 6) == 2
    ensures HandedOut(2, THIRDS, r) <==> r == map[A := 0, B := 1, C := 1]
  {
    ThirdsSum();
    ThirdsHandedOut();
    hide HandedOut, Denominator;
    if HandedOut(2, THIRDS, r) { Unique(2, THIRDS, r, map[A := 0, B := 1, C := 1]); }
  }

  const E := Name(3)
  const M: nat := 1900000000000000000000000000

  /** Four weights of which the first is larger by one. */
  const CLOSE: map<Name, nat> := map[A := M + 1, B := M, C := M, E := M]

  lemma TotalOfFour(x: int, y: int)
    ensures Total(map[A := x, B := x, C := x, E := y]) == 3 * x + y
    ensures Total(map[A := y, B := x, C := x, E := x]) == 3 * x + y
  {
    hide Total;
    TotalOfThree(x, x, x);
    TotalOfThree(y, x, x);
    TotalUpdate(map[A := x, B := x, C := x], E, y);
    TotalUpdate(map[A := y, B := x, C := x], E, x);
  }

  lemma OneAndAQuarter(v: real)
    requires v * TEN_27 as real == (5 * TEN_27 / 4) as real
    ensures v == 1.25
  {
  }

  lemma QuarterRounded(n: nat)
    requires n == 5 * M || n == 5 * M + 5
    ensures Round28(n, 4 * M + 1) == 1.25
  {
    PowerValues();
    Pow10Next(0);
    hide Pow10, Power10, Round28;
    RoundsFinely(n, 4 * M + 1, 0, TEN_27, 5 * TEN_27 / 4);
    OneAndAQuarter(Round28(n, 4 * M + 1));
  }

  /** Both quotas are rounded to one and a quarter. */
  lemma QuartersRounded()
    ensures Raw(5, M + 1, 4 * M + 1) == Raw(5, M, 4 * M + 1) == 1.25
  {
    hide Round28;
    assert 5 * (M + 1) == 5 * M + 5;
    WholeRounded(5 * M + 5);
    WholeRounded(5 * M);
    QuarterRounded(5 * M + 5);
    QuarterRounded(5 * M);
  }

  lemma CloseWholes()
    ensures Denominator(CLOSE) == 4 * M + 1 && Wholes(5, CLOSE) == map[A := 1, B := 1, C := 1, E := 1]
  {
    TotalOfFour(M, M + 1);
    QuartersRounded();
    hide Raw, Total;
    assert Denominator(CLOSE) == 4 * M + 1;
    hide Denominator;
  }

  lemma LastIsFirst(m: Name)
    requires m in CLOSE && Precedence(5, CLOSE, 4 * M + 1)(m, E)
    ensures m == E
  {
    QuarterLeft(m);
    QuarterLeft(E);
    hide Part28;
  }

  lemma QuarterLeft(n: Name)
    requires n in CLOSE
    ensures Part28(5, CLOSE, 4 * M + 1, n) == 0.25
  {
    QuartersRounded();
    hide Raw;
    assert CLOSE[n] == M || CLOSE[n] == M + 1;
  }

  lemma CloseHandedOut()
    ensures Denominator(CLOSE) > 0 && HandedOut(5, CLOSE, map[A := 1, B := 1, C := 1, E := 2])
  {
    hide Total, Denominator, Precedence, Wholes, Part28;
    CloseWholes();
    TotalOfFour(1, 1);
    TotalOfFour(1, 2);
    var r := map[A := 1, B := 1, C := 1, E := 2];
    assert |CLOSE| == 4;
    forall m, n | m in r && n in r && Precedence(5, CLOSE, 4 * M + 1)(m, n) && Topped(5, CLOSE, r, n)
      ensures Topped(5, CLOSE, r, m)
    {
      assert n == E;
      LastIsFirst(m);
    }
  }

  /** Products below 10^28, which are exact, are not enough: here the first name has the largest exact fraction, but all
      decimal fractions are a quarter, and the unit left over goes to the last name. */
  lemma DigitsRunOut(r: map<Name, int>)
    ensures forall n :: n in CLOSE ==> 5 * CLOSE[n] < TEN_28
    ensures Denominator(CLOSE) == 4 * M + 1
    ensures HandedOut(5, CLOSE, r) <==> r == map[A := 1, B := 1, C := 1, E := 2]
    ensures HandedOut(5, CLOSE, r) ==> !Apportions(5, CLOSE, r)
  {
    CloseHandedOut();
    CloseWholes();
    hide HandedOut, Denominator, Wholes, Part28, Total;
    if HandedOut(5, CLOSE, r) {
      Unique(5, CLOSE, r, map[A := 1, B := 1, C := 1, E := 2]);
      CloseFractions();
      assert LargerFraction(5, CLOSE, A, E) && Extra(5, CLOSE, r, E) && !Extra(5, CLOSE, r, A);
    }
  }

  lemma CloseFractions()
    ensures Floor(5, M + 1, 4 * M + 1) == Floor(5, M, 4 * M + 1) == 1
    ensures Excess(5, M + 1, 4 * M + 1) > Excess(5, M, 4 * M + 1)
  {
  }

  const LARGE: int := 100000000000000000000000000015
  const ONE_NAME: map<Name, nat> := map[A := 1]

  lemma LargeHandedOut()
    ensures Denominator(ONE_NAME) == 1 && HandedOut(LARGE, ONE_NAME, map[A := 10 * TEN_28 + 1])
  {
    TotalOfOne(1);
    TotalOfOne(10 * TEN_28);
    TotalOfOne(10 * TEN_28 + 1);
    LargeRounded();
    hide Raw, Total, Precedence;
    assert Denominator(ONE_NAME) == 1;
    hide Denominator;
    assert Wholes(LARGE, ONE_NAME) == map[A := 10 * TEN_28];
    assert |ONE_NAME| == 1;
  }

  /** Beyond the stated size a total need not be spent: of 10^29 + 15, one name gets 10^29 + 1. */
  lemma LargeTotalsLeak(r: map<Name, int>)
    ensures Denominator(ONE_NAME) == 1
    ensures HandedOut(LARGE, ONE_NAME, r) <==> r == map[A := 10 * TEN_28 + 1]
    ensures HandedOut(LARGE, ONE_NAME, r) ==> Total(r) == LARGE - 14 && !Apportions(LARGE, ONE_NAME, r)
  {
    LargeHandedOut();
    TotalOfOne(10 * TEN_28 + 1);
    hide HandedOut, Denominator, Total;
    if HandedOut(LARGE, ONE_NAME, r) { Unique(LARGE, ONE_NAME, r, map[A := 10 * TEN_28 + 1]); }
  }

  lemma TotalOfOne(x: int)
    ensures Total(map[A := x]) == x
  {
    hide Total;
    TotalEmpty();
    TotalUpdate(map[], A, x);
  }

  lemma LargeRounded()
    ensures Raw(LARGE, 1, 1) == (10 * TEN_28) as real
  {
    PowerValues();
    Pow10Next(28);
    Pow10Next(29);
    HundredIsPower();
    hide Pow10, Power10, Round28;
    RoundsCoarsely(LARGE, 29, 100, TEN_27);
    RoundsCoarsely(10 * TEN_28, 29, 100, TEN_27);
  }

  lemma HundredIsPower()
    ensures Power10(2) == 100
  {
  }

  // ---------------------------------------------------------------------------
  // What the promise implies

  ghost function Surplus(total: nat, weights: map<Name, nat>, r: map<Name, int>, d: int, k: Name): int
    requires k in weights && k in r
  {
    d * r[k] - total * weights[k]
  }

  lemma SurplusAt(total: nat, weights: map<Name, nat>, r: map<Name, int>, d: int, k: Name)
    requires d > 0 && k in weights && k in r
    ensures r[k] == Floor(total, weights[k], d) ==> Surplus(total, weights, r, d, k) == -Excess(total, weights[k], d)
    ensures r[k] == Floor(total, weights[k], d) + 1 ==>
              Surplus(total, weights, r, d, k) == d - Excess(total, weights[k], d)
    ensures 0 <= Excess(total, weights[k], d) < d
  {
    hide Floor, Excess;
    Divided(total, weights[k], d);
    var f := Floor(total, weights[k], d);
    assert d * (f + 1) == d * f + d;
  }

  /** An extra unit on an exact quota would put every name at or above its quota, and itself above. */
  lemma ExactQuotaGetsNoExtra(total: nat, weights: map<Name, nat>, r: map<Name, int>, n: Name)
    requires Denominator(weights) > 0 && Apportions(total, weights, r) && n in r && Extra(total, weights, r, n)
    ensures Excess(total, weights[n], Denominator(weights)) > 0
  {
    hide Floor, Excess, Surplus;
    var d := Denominator(weights);
    SurplusAt(total, weights, r, d, n);
    if Excess(total, weights[n], d) == 0 {
      var zero := map k | k in r :: 0;
      var surplus := map k | k in r :: Surplus(total, weights, r, d, k);
      forall k | k in r ensures 0 <= surplus[k] {
        NoDeficit(total, weights, r, k, n);
      }
      TotalLt(zero, surplus, n);
      NoSurplusInAll(total, weights, r, d, zero, surplus);
    }
  }

  lemma NoDeficit(total: nat, weights: map<Name, nat>, r: map<Name, int>, k: Name, n: Name)
    requires Denominator(weights) > 0 && Apportions(total, weights, r) && n in r && k in r
    requires Extra(total, weights, r, n) && Excess(total, weights[n], Denominator(weights)) == 0
    ensures Surplus(total, weights, r, Denominator(weights), k) >= 0
  {
    hide Floor, Excess, Surplus;
    var d := Denominator(weights);
    SurplusAt(total, weights, r, d, k);
    assert Excess(total, weights[k], d) > 0 ==> LargerFraction(total, weights, k, n);
  }

  lemma NoSurplusInAll(
    total: nat, weights: map<Name, nat>, r: map<Name, int>, d: int, zero: map<Name, int>, surplus: map<Name, int>)
    requires d == Denominator(weights) && r.Keys == weights.Keys && Total(r) == total
    requires zero.Keys == surplus.Keys == r.Keys
    requires forall k :: k in r ==> zero[k] == 0 && surplus[k] == Surplus(total, weights, r, d, k)
    ensures Total(zero) == Total(surplus) == 0
  {
    TotalDifference(0, r, 0, r, zero);
    TotalDifference(d, r, total, weights, surplus);
    Commutes(d, total);
  }

  lemma Commutes(a: int, b: int)
    ensures a * b == b * a
  {
  }

  /** Every name gets the floor or the ceiling of its exact quota. */
  lemma QuotaRule(total: nat, weights: map<Name, nat>, r: map<Name, int>, n: Name)
    requires Denominator(weights) > 0 && Apportions(total, weights, r) && n in r
    ensures -Denominator(weights) < Denominator(weights) * r[n] - total * weights[n] < Denominator(weights)
  {
    hide Floor, Excess;
    SurplusAt(total, weights, r, Denominator(weights), n);
    if Extra(total, weights, r, n) { ExactQuotaGetsNoExtra(total, weights, r, n); }
  }

  /** A larger weight never gets fewer units. */
  lemma WeightMonotone(total: nat, weights: map<Name, nat>, r: map<Name, int>, m: Name, n: Name)
    requires Denominator(weights) > 0 && Apportions(total, weights, r) && m in r && n in r
    requires weights[m] < weights[n]
    ensures r[m] <= r[n]
  {
    hide Floor, Excess;
    var d := Denominator(weights);
    var (f, g) := (Floor(total, weights[m], d), Floor(total, weights[n], d));
    var (e, h) := (Excess(total, weights[m], d), Excess(total, weights[n], d));
    Divided(total, weights[m], d);
    Divided(total, weights[n], d);
    Grows(total, weights[m], weights[n]);
    QuotientOrder(d, f, e, g, h);
    if f == g && e == h {
      if Extra(total, weights, r, m) {
        ExactQuotaGetsNoExtra(total, weights, r, m);
        SmallQuotient(d, f, e);
      }
    } else if f == g {
      assert e < h ==> LargerFraction(total, weights, n, m);
    }
  }

  lemma SmallQuotient(d: int, f: int, e: int)
    requires d > 0 && 0 < e && d * f + e == 0
    ensures f < 0
  {
  }

  lemma Grows(total: nat, a: nat, b: nat)
    requires a < b
    ensures total * a <= total * b
    ensures total > 0 ==> total * a < total * b
  {
  }

  lemma QuotientOrder(d: int, f: int, e: int, g: int, h: int)
    requires d > 0 && 0 <= e < d && 0 <= h < d && d * f + e <= d * g + h
    ensures f < g || (f == g && e <= h)
  {
    if f > g { AtLeastOnce(d, f - g); }
    assert d * (f - g) == d * f - d * g;
  }

  // ---------------------------------------------------------------------------
  // Least total deviation

  function Distance(a: int, b: int): (c: nat)
    ensures c == a - b || c == b - a
  {
    if a < b then b - a else a - b
  }

  /** Distances from the exact quotas, scaled by the denominator. */
  ghost function Deviations(total: nat, weights: map<Name, nat>, s: map<Name, int>): (d: map<Name, int>)
    requires s.Keys == weights.Keys
    ensures d.Keys == s.Keys
  {
    map n | n in s :: Distance(Denominator(weights) * s[n], total * weights[n])
  }

  lemma SlopeUp(d: int, e: int, rho: int, j: int)
    requires 0 <= e <= rho <= d && j >= 1
    ensures d * j - 2 * e >= (d - 2 * rho) * j
  {
    assert (d - 2 * rho) * j == d * j - 2 * (rho * j);
    assert rho * j >= rho;
  }

  lemma SlopeDown(d: int, e: int, rho: int, i: int)
    requires 0 <= rho <= e < d && i >= 1
    ensures d * i - 2 * d + 2 * e >= (d - 2 * rho) * (-i)
  {
    assert (d - 2 * rho) * (-i) == -(d * i) + 2 * (rho * i);
    assert (d - rho) * (i - 1) == d * i - d - rho * i + rho;
    assert (d - rho) * (i - 1) >= 0;
  }

  lemma SlopeFlat(d: int, rho: int, j: int)
    requires 0 <= rho <= d
    ensures j >= 0 ==> d * j >= (d - 2 * rho) * j
    ensures j <= 0 ==> -(d * j) >= (d - 2 * rho) * j
  {
    assert (d - 2 * rho) * j == d * j - 2 * (rho * j);
    assert (d - rho) * j == d * j - rho * j;
    assert j >= 0 ==> rho * j >= 0;
    assert j <= 0 ==> (d - rho) * j <= 0;
  }

  lemma AtLeastOnce(d: int, j: int)
    requires d > 0
    ensures j >= 1 ==> d * j >= d
    ensures j <= 0 ==> d * j <= 0
    ensures j <= -1 ==> d * j <= -d
  {
  }

  lemma FloorChosen(d: int, below: int, e: int, rho: int, j: int)
    requires 0 <= e < d && e <= rho <= d
    ensures Distance(below + d * j, below + e) - Distance(below, below + e) >= (d - 2 * rho) * j
  {
    AtLeastOnce(d, j);
    if j >= 1 { SlopeUp(d, e, rho, j); } else { SlopeFlat(d, rho, j); }
  }

  lemma CeilingChosen(d: int, above: int, e: int, rho: int, j: int)
    requires 0 <= rho <= e < d
    ensures Distance(above + d * j, above - d + e) - Distance(above, above - d + e) >= (d - 2 * rho) * j
  {
    AtLeastOnce(d, j);
    if j >= 0 {
      SlopeFlat(d, rho, j);
    } else {
      SlopeDown(d, e, rho, -j);
      assert d * -j == -(d * j);
    }
  }

  /** The chosen count minimises distance minus a price per unit, among all counts. */
  lemma Supported(d: int, x: int, f: int, e: int, rho: int, chosen: int, k: int)
    requires d > 0 && x == d * f + e && 0 <= e < d && 0 <= rho <= d
    requires (chosen == f && e <= rho) || (chosen == f + 1 && rho <= e)
    ensures (d - 2 * rho) * k - (d - 2 * rho) * chosen <= Distance(d * k, x) - Distance(d * chosen, x)
  {
    hide Distance;
    Distributes(d - 2 * rho, k, chosen);
    Distributes(d, k, chosen);
    assert d * k == d * chosen + d * (k - chosen);
    if chosen == f {
      FloorChosen(d, d * f, e, rho, k - chosen);
    } else {
      assert d * chosen == d * f + d;
      CeilingChosen(d, d * chosen, e, rho, k - chosen);
    }
  }

  /** A remainder that separates the names with an extra unit from the others. */
  lemma Threshold(total: nat, weights: map<Name, nat>, r: map<Name, int>) returns (rho: int)
    requires Denominator(weights) > 0 && Apportions(total, weights, r)
    ensures 0 <= rho <= Denominator(weights)
    ensures forall n :: n in r ==>
              var e := Excess(total, weights[n], Denominator(weights));
              if Extra(total, weights, r, n) then rho <= e else e <= rho
  {
    hide Floor, Excess;
    var d := Denominator(weights);
    forall n | n in r ensures Excess(total, weights[n], d) <= d { Divided(total, weights[n], d); }
    var lucky := set n | n in r && Extra(total, weights, r, n);
    assert forall n :: n in r && Extra(total, weights, r, n) ==> n in lucky;
    if lucky == {} { return d; }
    var last := LeastExcess(total, weights, d, lucky);
    rho := Excess(total, weights[last], d);
    Divided(total, weights[last], d);
    forall n | n in r && !Extra(total, weights, r, n)
      ensures Excess(total, weights[n], d) <= rho
    {
      assert Excess(total, weights[n], d) > rho ==> LargerFraction(total, weights, n, last);
    }
  }

  lemma {:induction false} LeastExcess(total: nat, weights: map<Name, nat>, d: int, names: set<Name>)
    returns (least: Name)
    requires d > 0 && names != {} && names <= weights.Keys
    ensures least in names
    ensures forall n :: n in names ==> Excess(total, weights[least], d) <= Excess(total, weights[n], d)
    decreases |names|
  {
    hide Excess;
    least := Any(names);
    var rest := names - {least};
    if rest != {} {
      var other := LeastExcess(total, weights, d, rest);
      if Excess(total, weights[other], d) < Excess(total, weights[least], d) { least := other; }
    }
    assert forall n :: n in names ==> n == Any(names) || n in rest;
  }

  lemma SupportedAt(total: nat, weights: map<Name, nat>, r: map<Name, int>, s: map<Name, int>, rho: int, n: Name)
    requires Denominator(weights) > 0 && Apportions(total, weights, r) && n in r && s.Keys == r.Keys
    requires 0 <= rho <= Denominator(weights)
    requires var e := Excess(total, weights[n], Denominator(weights));
      if Extra(total, weights, r, n) then rho <= e else e <= rho
    ensures var (d, price) := (Denominator(weights), Denominator(weights) - 2 * rho);
      price * s[n] - price * r[n] <= Distance(d * s[n], total * weights[n]) - Distance(d * r[n], total * weights[n])
  {
    assert r[n] == Floor(total, weights[n], Denominator(weights)) || Extra(total, weights, r, n);
    hide Floor, Excess, Apportions, Distance;
    var d := Denominator(weights);
    Divided(total, weights[n], d);
    Supported(d, total * weights[n], Floor(total, weights[n], d), Excess(total, weights[n], d), rho, r[n], s[n]);
  }

  lemma ChangesSupported(total: nat, weights: map<Name, nat>, r: map<Name, int>, s: map<Name, int>, rho: int)
    requires Denominator(weights) > 0 && Apportions(total, weights, r) && s.Keys == r.Keys
    requires 0 <= rho <= Denominator(weights)
    requires forall n :: n in r ==>
               var e := Excess(total, weights[n], Denominator(weights));
               if Extra(total, weights, r, n) then rho <= e else e <= rho
    ensures Total(Change(Denominator(weights) - 2 * rho, s, r)) <=
            Total(Change(1, Deviations(total, weights, s), Deviations(total, weights, r)))
  {
    var (dr, ds) := (Deviations(total, weights, r), Deviations(total, weights, s));
    var (moved, gain) := (Change(Denominator(weights) - 2 * rho, s, r), Change(1, ds, dr));
    hide Floor, Excess, Apportions, Extra, Distance;
    forall n | n in moved ensures moved[n] <= gain[n] {
      SupportedAt(total, weights, r, s, rho, n);
    }
    TotalLe(moved, gain);
  }

  /** No allocation of the same total, even one with negative counts, deviates less from the quotas in all. */
  lemma LeastDeviation(total: nat, weights: map<Name, nat>, r: map<Name, int>, s: map<Name, int>)
    requires Denominator(weights) > 0 && Apportions(total, weights, r)
    requires s.Keys == weights.Keys && Total(s) == total
    ensures Total(Deviations(total, weights, r)) <= Total(Deviations(total, weights, s))
  {
    hide Floor, Excess, Extra, Change, Distance, Total, Deviations, Denominator, Apportions;
    Conserves(total, weights, r);
    var rho := Threshold(total, weights, r);
    ChangesSupported(total, weights, r, s, rho);
    Compare(Denominator(weights) - 2 * rho, s, r, Deviations(total, weights, s), Deviations(total, weights, r));
  }

  lemma Conserves(total: nat, weights: map<Name, nat>, r: map<Name, int>)
    requires Denominator(weights) > 0 && Apportions(total, weights, r)
    ensures r.Keys == weights.Keys && Total(r) == total
  {
  }

  lemma Compare(p: int, s: map<Name, int>, r: map<Name, int>, ds: map<Name, int>, dr: map<Name, int>)
    requires s.Keys == r.Keys && ds.Keys == dr.Keys && Total(s) == Total(r)
    requires Total(Change(p, s, r)) <= Total(Change(1, ds, dr))
    ensures Total(dr) <= Total(ds)
  {
    hide Total, Change;
    NoChange(p, s, r);
    UnitChange(ds, dr);
  }
}
