/** Sorting by a comparison, and what does not depend on the algorithm. */
module Sorting {

  ghost predicate Preorder<T(!new)>(le: (T, T) -> bool) {
    && (forall x, y :: le(x, y) || le(y, x))
    && (forall x, y, z :: le(x, y) && le(y, z) ==> le(x, z))
  }

  ghost predicate Ordered<T(!new)>(s: seq<T>, le: (T, T) -> bool) {
    forall i, j :: 0 <= i < j < |s| ==> le(s[i], s[j])
  }

  function Insert<T>(x: T, s: seq<T>, le: (T, T) -> bool): (r: seq<T>)
    ensures multiset(r) == multiset(s) + multiset{x}
  {
    if s == [] || le(x, s[0]) then [x] + s
    else
      assert s == [s[0]] + s[1..];
      [s[0]] + Insert(x, s[1..], le)
  }

  function Sort<T>(s: seq<T>, le: (T, T) -> bool): (r: seq<T>)
    ensures multiset(r) == multiset(s) && |r| == |s|
  {
    if s == [] then [] else
    assert s == [s[0]] + s[1..];
    var r := Insert(s[0], Sort(s[1..], le), le);
    assert |multiset(r)| == |multiset(s)|;
    r
  }

  lemma Prepend<T(!new)>(x: T, s: seq<T>, le: (T, T) -> bool)
    requires Ordered(s, le) && forall k :: 0 <= k < |s| ==> le(x, s[k])
    ensures Ordered([x] + s, le)
  {
  }

  lemma {:induction false} InsertOrders<T(!new)>(x: T, s: seq<T>, le: (T, T) -> bool)
    requires Preorder(le) && Ordered(s, le)
    ensures Ordered(Insert(x, s, le), le)
  {
    if s == [] || le(x, s[0]) {
      Prepend(x, s, le);
    } else {
      var tail := Insert(x, s[1..], le);
      InsertOrders(x, s[1..], le);
      forall k | 0 <= k < |tail| ensures le(s[0], tail[k]) {
        assert tail[k] in multiset(tail);
      }
      Prepend(s[0], tail, le);
    }
  }

  lemma {:induction false} SortOrders<T(!new)>(s: seq<T>, le: (T, T) -> bool)
    requires Preorder(le)
    ensures Ordered(Sort(s, le), le)
  {
    if s != [] {
      SortOrders(s[1..], le);
      InsertOrders(s[0], Sort(s[1..], le), le);
    }
  }

  lemma {:induction false} SortOfOrdered<T(!new)>(s: seq<T>, le: (T, T) -> bool)
    requires Ordered(s, le)
    ensures Sort(s, le) == s
  {
    if s != [] {
      SortOfOrdered(s[1..], le);
      assert s == [s[0]] + s[1..];
    }
  }

  lemma SameMembers<T>(a: seq<T>, b: seq<T>)
    requires multiset(a) == multiset(b)
    ensures |a| == |b|
    ensures forall x :: x in a <==> x in b
  {
    assert |multiset(a)| == |multiset(b)|;
    forall x ensures x in a <==> x in b {
      assert x in a <==> x in multiset(a);
      assert x in b <==> x in multiset(b);
    }
  }

  lemma Without<T>(s: seq<T>, j: nat)
    requires j < |s|
    ensures multiset(s) == multiset{s[j]} + multiset(s[..j] + s[j + 1..])
  {
    assert s == s[..j] + ([s[j]] + s[j + 1..]);
    assert multiset(s[..j] + s[j + 1..]) == multiset(s[..j]) + multiset(s[j + 1..]);
  }

  lemma HeadIsLeast<T(!new)>(a: seq<T>, b: seq<T>, le: (T, T) -> bool)
    requires a != [] && b != [] && Preorder(le) && Ordered(b, le) && multiset(a) == multiset(b)
    ensures le(b[0], a[0])
  {
    SameMembers(a, b);
    assert a[0] in b;
  }

  lemma SameHead<T(!new)>(a: seq<T>, b: seq<T>, le: (T, T) -> bool)
    requires a != [] && b != [] && Preorder(le) && Ordered(a, le) && Ordered(b, le) && multiset(a) == multiset(b)
    requires forall x, y :: x in a && y in a && le(x, y) && le(y, x) ==> x == y
    ensures a[0] == b[0]
  {
    SameMembers(a, b);
    HeadIsLeast(a, b, le);
    HeadIsLeast(b, a, le);
    assert b[0] in a;
  }

  lemma HeadAndTail<T>(a: seq<T>)
    requires a != []
    ensures multiset(a) == multiset{a[0]} + multiset(a[1..])
  {
    assert a == [a[0]] + a[1..];
  }

  lemma CancelOne<T>(x: T, a: multiset<T>, b: multiset<T>)
    requires multiset{x} + a == multiset{x} + b
    ensures a == b
  {
    assert a == (multiset{x} + a) - multiset{x};
    assert b == (multiset{x} + b) - multiset{x};
  }

  lemma SameTails<T>(a: seq<T>, b: seq<T>)
    requires a != [] && b != [] && a[0] == b[0] && multiset(a) == multiset(b)
    ensures multiset(a[1..]) == multiset(b[1..])
  {
    HeadAndTail(a);
    HeadAndTail(b);
    CancelOne(a[0], multiset(a[1..]), multiset(b[1..]));
  }

  lemma OrderedTail<T(!new)>(a: seq<T>, le: (T, T) -> bool)
    requires a != [] && Ordered(a, le)
    ensures Ordered(a[1..], le)
  {
  }

  /** When only equal elements are equivalent, an ordered arrangement is unique, whichever algorithm produced it. */
  lemma {:induction false} OrderedUnique<T(!new)>(a: seq<T>, b: seq<T>, le: (T, T) -> bool)
    requires Preorder(le) && Ordered(a, le) && Ordered(b, le) && multiset(a) == multiset(b)
    requires forall x, y :: x in a && y in a && le(x, y) && le(y, x) ==> x == y
    ensures a == b
  {
    hide Preorder, Ordered;
    SameMembers(a, b);
    if a != [] {
      SameHead(a, b, le);
      SameTails(a, b);
      OrderedTail(a, le);
      OrderedTail(b, le);
      OrderedUnique(a[1..], b[1..], le);
      assert a == [a[0]] + a[1..] && b == [b[0]] + b[1..];
    }
  }

  /** Matching the first element of one permutation in another. */
  lemma TakeFirst<T>(a: seq<T>, b: seq<T>) returns (j: nat)
    requires a != [] && multiset(a) == multiset(b)
    ensures j < |b| && b[j] == a[0] && multiset(a[1..]) == multiset(b[..j] + b[j + 1..])
  {
    SameMembers(a, b);
    assert a[0] in b;
    j :| j < |b| && b[j] == a[0];
    HeadAndTail(a);
    Without(b, j);
    CancelOne(a[0], multiset(a[1..]), multiset(b[..j] + b[j + 1..]));
  }

  // ---------------------------------------------------------------------------
  // Counting

  /** How many elements of the list satisfy a condition. */
  function CountOf<T>(s: seq<T>, p: T -> bool): (n: nat)
    ensures n <= |s|
  {
    if s == [] then 0 else (if p(s[0]) then 1 else 0) + CountOf(s[1..], p)
  }

  lemma {:induction false} CountConcat<T>(a: seq<T>, b: seq<T>, p: T -> bool)
    ensures CountOf(a + b, p) == CountOf(a, p) + CountOf(b, p)
  {
    if a == [] {
      assert a + b == b;
    } else {
      CountConcat(a[1..], b, p);
      assert (a + b)[1..] == a[1..] + b;
    }
  }

  lemma {:induction false} CountPermuted<T>(a: seq<T>, b: seq<T>, p: T -> bool)
    requires multiset(a) == multiset(b)
    ensures CountOf(a, p) == CountOf(b, p)
  {
    if a == [] {
      assert |multiset(b)| == 0;
    } else {
      var j := TakeFirst(a, b);
      CountPermuted(a[1..], b[..j] + b[j + 1..], p);
      assert b == b[..j] + ([b[j]] + b[j + 1..]);
      CountConcat(b[..j], [b[j]] + b[j + 1..], p);
      CountConcat(b[..j], b[j + 1..], p);
    }
  }

  lemma {:induction false} CountWithin<T>(s: seq<T>, p: T -> bool, q: T -> bool)
    requires forall i :: 0 <= i < |s| && p(s[i]) ==> q(s[i])
    ensures CountOf(s, p) <= CountOf(s, q)
  {
    if s != [] { CountWithin(s[1..], p, q); }
  }

  lemma {:induction false} CountNone<T>(s: seq<T>, p: T -> bool)
    requires forall i :: 0 <= i < |s| ==> !p(s[i])
    ensures CountOf(s, p) == 0
  {
    if s != [] { CountNone(s[1..], p); }
  }

  lemma {:induction false} CountAll<T>(s: seq<T>, p: T -> bool)
    requires forall i :: 0 <= i < |s| ==> p(s[i])
    ensures CountOf(s, p) == |s|
  {
    if s != [] { CountAll(s[1..], p); }
  }

  predicate Distinct<T(==)>(s: seq<T>) { forall i, j :: 0 <= i < j < |s| ==> s[i] != s[j] }

  lemma DistinctConcat<T>(a: seq<T>, b: seq<T>)
    requires Distinct(a) && Distinct(b) && forall x :: x in a ==> x !in b
    ensures Distinct(a + b)
  {
    forall i, j | 0 <= i < j < |a + b| ensures (a + b)[i] != (a + b)[j] {
      if i < |a| <= j { assert a[i] in a && b[j - |a|] in b; }
    }
  }

  lemma Twice<T>(s: seq<T>, i: nat, j: nat)
    requires i < j < |s| && s[i] == s[j]
    ensures multiset(s)[s[i]] >= 2
  {
    assert s == s[..j] + s[j..];
    assert s[..j][i] == s[i] && s[j..][0] == s[j];
    assert s[i] in multiset(s[..j]) && s[j] in multiset(s[j..]);
  }

  lemma {:induction false} Once<T>(s: seq<T>, x: T)
    requires Distinct(s)
    ensures multiset(s)[x] <= 1
  {
    if s != [] {
      assert s == [s[0]] + s[1..];
      Once(s[1..], x);
      if x == s[0] {
        assert x !in s[1..];
        assert x !in multiset(s[1..]);
      }
    }
  }

  /** A permutation of distinct elements has distinct elements. */
  lemma PermutationDistinct<T>(a: seq<T>, b: seq<T>)
    requires multiset(a) == multiset(b) && Distinct(a)
    ensures Distinct(b)
  {
    forall i, j | 0 <= i < j < |b| ensures b[i] != b[j] {
      if b[i] == b[j] {
        Twice(b, i, j);
        Once(a, b[i]);
      }
    }
  }
}
