/** The names of checkpoint files, and how far their lexicographic order is the order of their numbers. */
module CheckpointNames {
  import opened Sorting
  import Decimal28
  import Runner

  function Digit(d: nat): char
    requires d < 10
  {
    ('0' as int + d) as char
  }

  function Fixed(n: nat, width: nat): (s: string)
    ensures |s| == width
  {
    if width == 0 then "" else Fixed(n / 10, width - 1) + [Digit(n % 10)]
  }

  /** Decimal, zero-padded to at least six digits. */
  function Padded(n: nat): string {
    if n < 1_000_000 then Fixed(n, 6) else Padded(n / 10) + [Digit(n % 10)]
  }

  function Name(n: nat): string { "checkpoint-" + Padded(n) + ".json" }

  // ---------------------------------------------------------------------------
  // Lexicographic order

  predicate Less(a: string, b: string) {
    b != "" && (a == "" || a[0] < b[0] || (a[0] == b[0] && Less(a[1..], b[1..])))
  }

  predicate LexLe(a: string, b: string) { a == b || Less(a, b) }

  lemma {:induction false} LessTotal(a: string, b: string)
    ensures a == b || Less(a, b) || Less(b, a)
    ensures !(Less(a, b) && Less(b, a)) && !Less(a, a)
  {
    if a != "" {
      LessTotal(a[1..], a[1..]);
      if b != "" {
        LessTotal(a[1..], b[1..]);
        assert a == [a[0]] + a[1..] && b == [b[0]] + b[1..];
      }
    }
  }

  lemma {:induction false} LessTransitive(a: string, b: string, c: string)
    requires Less(a, b) && Less(b, c)
    ensures Less(a, c)
  {
    if a != "" && a[0] == b[0] == c[0] { LessTransitive(a[1..], b[1..], c[1..]); }
  }

  lemma LexLePreorder()
    ensures Preorder(LexLe)
  {
    forall a, b ensures LexLe(a, b) || LexLe(b, a) { LessTotal(a, b); }
    forall a, b, c | LexLe(a, b) && LexLe(b, c) ensures LexLe(a, c) {
      if a != b && b != c { LessTransitive(a, b, c); }
    }
  }

  lemma {:induction false} CommonFront(p: string, a: string, b: string)
    ensures Less(p + a, p + b) <==> Less(a, b)
  {
    if p == "" {
      assert p + a == a && p + b == b;
    } else {
      assert (p + a)[1..] == p[1..] + a && (p + b)[1..] == p[1..] + b;
      CommonFront(p[1..], a, b);
    }
  }

  lemma {:induction false} LessThenAnything(a: string, b: string, s: string, t: string)
    requires |a| == |b| && Less(a, b)
    ensures Less(a + s, b + t)
  {
    if a[0] == b[0] {
      assert (a + s)[1..] == a[1..] + s && (b + t)[1..] == b[1..] + t;
      LessThenAnything(a[1..], b[1..], s, t);
    }
  }

  // ---------------------------------------------------------------------------
  // Names in order

  lemma {:induction false} FixedOrder(i: nat, j: nat, w: nat)
    requires i < j < Decimal28.Power10(w)
    ensures Less(Fixed(i, w), Fixed(j, w))
  {
    if i / 10 < j / 10 {
      FixedOrder(i / 10, j / 10, w - 1);
      LessThenAnything(Fixed(i / 10, w - 1), Fixed(j / 10, w - 1), [Digit(i % 10)], [Digit(j % 10)]);
    } else {
      CommonFront(Fixed(i / 10, w - 1), [Digit(i % 10)], [Digit(j % 10)]);
    }
  }

  lemma NamesFollowNumbers(i: nat, j: nat)
    requires i < j <= Runner.MAX_LOADABLE
    ensures Less(Name(i), Name(j))
  {
    assert Decimal28.Power10(6) == 1_000_000;
    FixedOrder(i, j, 6);
    LessThenAnything(Padded(i), Padded(j), ".json", ".json");
    CommonFront("checkpoint-", Padded(i) + ".json", Padded(j) + ".json");
    assert Name(i) == "checkpoint-" + (Padded(i) + ".json") && Name(j) == "checkpoint-" + (Padded(j) + ".json");
  }

  lemma PaddedTail(front: nat, digit: nat)
    requires front < 100_000 && digit < 10
    ensures Padded(10 * front + digit) == Fixed(front, 5) + [Digit(digit)]
  {
    hide Digit;
    assert (10 * front + digit) / 10 == front && (10 * front + digit) % 10 == digit;
  }

  lemma PaddedMillion()
    ensures Padded(1_000_000) == Padded(100_000) + "0"
  {
  }

  /** The millionth name sorts before that of number 100001. */
  lemma MillionthName()
    ensures Less(Name(1_000_000), Name(100_001))
  {
    PaddedMillion();
    PaddedTail(10_000, 0);
    PaddedTail(10_000, 1);
    hide Padded, Fixed;
    var front := "checkpoint-" + Fixed(10_000, 5);
    assert Name(1_000_000) == front + "00.json";
    assert Name(100_001) == front + "1.json";
    CommonFront(front, "00.json", "1.json");
  }

  function Names(n: nat): (names: seq<string>)
    ensures |names| == n && forall i :: 0 <= i < n ==> names[i] == Name(i + 1)
  {
    seq(n, i requires 0 <= i < n => Name(i + 1))
  }

  /** Sorted by name, files 1 to n stand in the order of their numbers, as the loader requires, if and only if there are
      fewer than a million. */
  lemma SortedByNumber(n: nat)
    ensures Sort(Names(n), LexLe) == Names(n) <==> n <= Runner.MAX_LOADABLE
  {
    hide Name;
    if n <= Runner.MAX_LOADABLE {
      forall i, j | 0 <= i < j < n ensures LexLe(Names(n)[i], Names(n)[j]) {
        NamesFollowNumbers(i + 1, j + 1);
      }
      SortOfOrdered(Names(n), LexLe);
    } else {
      LexLePreorder();
      SortOrders(Names(n), LexLe);
      MillionthName();
      LessTotal(Name(1_000_000), Name(100_001));
      var (early, late) := (Names(n)[100_000], Names(n)[999_999]);
      assert !LexLe(early, late);
    }
  }
}
