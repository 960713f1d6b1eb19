/** Sums over the values of a map. */
module Sums {

  ghost function Any<T>(s: set<T>): (x: T)
    requires s != {}
    ensures x in s
  {
    var x :| x in s;
    x
  }

  ghost function Total<K>(m: map<K, int>): int
    decreases |m|
  {
    if m == map[] then 0 else
    var k := Any(m.Keys);
    m[k] + Total(m - {k})
  }

  lemma {:induction false} TotalAt<K>(m: map<K, int>, k: K)
    requires k in m
    ensures Total(m) == m[k] + Total(m - {k})
    decreases |m|
  {
    var j := Any(m.Keys);
    if j != k {
      TotalAt(m - {j}, k);
      TotalAt(m - {k}, j);
      assert m - {j} - {k} == m - {k} - {j};
    }
  }

  lemma TotalUpdate<K>(m: map<K, int>, k: K, v: int)
    ensures Total(m[k := v]) == Total(m) + v - (if k in m then m[k] else 0)
  {
    TotalAt(m[k := v], k);
    if k in m {
      TotalAt(m, k);
      assert m[k := v] - {k} == m - {k};
    } else {
      assert m[k := v] - {k} == m;
    }
  }

  lemma {:induction false} TotalLe<K>(a: map<K, int>, b: map<K, int>)
    requires a.Keys == b.Keys && forall n :: n in a ==> a[n] <= b[n]
    ensures Total(a) <= Total(b)
    decreases |a|
  {
    if a == map[] {
      assert b == map[];
    } else {
      var k := Any(a.Keys);
      TotalAt(a, k);
      TotalAt(b, k);
      assert (a - {k}).Keys == (b - {k}).Keys;
      TotalLe(a - {k}, b - {k});
    }
  }

  lemma TotalLt<K>(a: map<K, int>, b: map<K, int>, k: K)
    requires a.Keys == b.Keys && k in a && a[k] < b[k] && forall n :: n in a ==> a[n] <= b[n]
    ensures Total(a) < Total(b)
  {
    TotalAt(a, k);
    TotalAt(b, k);
    assert (a - {k}).Keys == (b - {k}).Keys;
    TotalLe(a - {k}, b - {k});
  }

  lemma Combine(x: int, a: int, a': int, y: int, b: int, b': int, c: int, c': int)
    requires Differs(x, a, y, b, c) && Differs(x, a', y, b', c')
    ensures Differs(x, a + a', y, b + b', c + c')
  {
  }

  lemma NothingDiffers(x: int, y: int)
    ensures Differs(x, 0, y, 0, 0)
  {
  }

  predicate Differs(x: int, a: int, y: int, b: int, c: int) { c == x * a - y * b }

  lemma {:induction false} TotalDifference<K>(x: int, a: map<K, int>, y: int, b: map<K, int>, c: map<K, int>)
    requires a.Keys == b.Keys == c.Keys && forall n :: n in c ==> Differs(x, a[n], y, b[n], c[n])
    ensures Differs(x, Total(a), y, Total(b), Total(c))
    decreases |c|
  {
    hide Differs;
    if c == map[] {
      assert a == map[] && b == map[];
      NothingDiffers(x, y);
    } else {
      var k := Any(c.Keys);
      TotalAt(a, k);
      TotalAt(b, k);
      TotalAt(c, k);
      var (a', b', c') := (a - {k}, b - {k}, c - {k});
      assert a'.Keys == b'.Keys == c'.Keys;
      TotalDifference(x, a', y, b', c');
      Combine(x, a[k], Total(a'), y, b[k], Total(b'), c[k], Total(c'));
    }
  }

  lemma {:induction false} TotalBelow<K>(m: map<K, int>, bound: int)
    requires forall n :: n in m ==> 0 <= m[n] < bound
    ensures 0 <= Total(m)
    ensures m != map[] ==> Total(m) < bound * |m|
    decreases |m|
  {
    if m != map[] {
      var k := Any(m.Keys);
      TotalAt(m, k);
      var rest := m - {k};
      OneLess(m, k);
      TotalBelow(rest, bound);
      OneMore(bound, |rest|);
      if rest == map[] { assert bound * |rest| == 0; }
    }
  }

  lemma OneMore(bound: int, n: int)
    ensures bound * (n + 1) == bound * n + bound
  {
  }

  lemma OneLess<K, T>(m: map<K, T>, k: K)
    requires k in m
    ensures (m - {k}).Keys == m.Keys - {k} && |m - {k}| == |m| - 1
  {
    assert (m - {k}).Keys == m.Keys - {k};
    assert |m.Keys - {k}| == |m.Keys| - 1;
  }

  ghost function Change<K>(p: int, a: map<K, int>, b: map<K, int>): (c: map<K, int>)
    requires a.Keys == b.Keys
    ensures c.Keys == a.Keys
  {
    map n | n in a :: p * a[n] - p * b[n]
  }

  lemma ChangeTotal<K>(p: int, a: map<K, int>, b: map<K, int>)
    requires a.Keys == b.Keys
    ensures Total(Change(p, a, b)) == p * (Total(a) - Total(b))
  {
    TotalDifference(p, a, p, b, Change(p, a, b));
    Distributes(p, Total(a), Total(b));
  }

  lemma Distributes(p: int, a: int, b: int)
    ensures p * (a - b) == p * a - p * b
  {
  }

  lemma NoChange<K>(p: int, a: map<K, int>, b: map<K, int>)
    requires a.Keys == b.Keys && Total(a) == Total(b)
    ensures Total(Change(p, a, b)) == 0
  {
    hide Total, Change;
    ChangeTotal(p, a, b);
  }

  lemma UnitChange<K>(a: map<K, int>, b: map<K, int>)
    requires a.Keys == b.Keys
    ensures Total(Change(1, a, b)) == Total(a) - Total(b)
  {
    hide Total, Change;
    ChangeTotal(1, a, b);
  }
}
