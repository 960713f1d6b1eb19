/** Rounding reals to a grid, halfway cases to the even multiple, and the products and quotients this takes. */
module Rounding {

  /** Nearest integer, ties to the even one. */
  function NearestInteger(x: real): (m: int)
    ensures -0.5 <= m as real - x <= 0.5
  {
    var below := x.Floor;
    var rest := x - below as real;
    if rest < 0.5 || (rest == 0.5 && below % 2 == 0) then below else below + 1
  }

  function ToGrid(q: real, u: real): real
    requires u > 0.0
  {
    NearestInteger(q / u) as real * u
  }

  lemma DivideBack(q: real, u: real)
    requires u > 0.0
    ensures q / u * u == q
  {
  }

  lemma Distribute(m: real, x: real, u: real)
    ensures (m - x) * u == m * u - x * u
  {
  }

  lemma OnGrid(n: int, t: int, u: real)
    requires u > 0.0 && u * t as real == 1.0
    ensures ToGrid(n as real, u) == n as real
  {
    Quotient(n as real, t as real, u);
    assert n as real * t as real == (n * t) as real;
    assert NearestInteger((n * t) as real) == n * t;
    DivideBack(n as real, u);
  }

  lemma Quotient(n: real, t: real, u: real)
    requires u > 0.0 && u * t == 1.0
    ensures n / u == n * t
  {
    assert n / u == n / u * (u * t) == (n / u * u) * t;
    DivideBack(n, u);
  }

  lemma SameProduct(x: real, y: real, c: real)
    requires x == y
    ensures x * c == y * c
  {
  }

  lemma MulLe(x: real, y: real, c: real)
    requires x <= y && c >= 0.0
    ensures x * c <= y * c
  {
  }

  lemma MulLt(x: real, y: real, c: real)
    requires x < y && c > 0.0
    ensures x * c < y * c
  {
  }

  lemma CancelLt(x: real, y: real, c: real)
    requires x * c < y * c && c > 0.0
    ensures x < y
  {
    if y <= x { MulLe(y, x, c); }
  }

  lemma CancelLe(x: real, y: real, c: real)
    requires x * c <= y * c && c > 0.0
    ensures x <= y
  {
    if y < x { MulLt(y, x, c); }
  }

  lemma CancelEq(x: real, y: real, c: real)
    requires x * c == y * c && c > 0.0
    ensures x == y
  {
    if x < y { MulLt(x, y, c); }
    if y < x { MulLt(y, x, c); }
  }

  lemma Associate(x: real, y: real, z: real)
    ensures (x * y) * z == x * (y * z)
  {
  }

  lemma IntegerProduct(m: int, n: int)
    ensures m as real * n as real == (m * n) as real
  {
  }

  lemma NearEven(x: real, n: int)
    requires n % 2 == 0 && n as real <= x <= n as real + 0.5
    ensures NearestInteger(x) == n
  {
  }

  lemma NearAbove(x: real, n: int, m: int)
    requires n as real + 0.5 < x <= m as real
    ensures n + 1 <= NearestInteger(x) <= m
  {
  }

  lemma Positive(a: real, b: real)
    requires a > 0.0 && b > 0.0
    ensures a * b > 0.0
  {
  }

  /** A factor that does not shrink. */
  lemma GrownFactor(x: real, c: real, product: real)
    requires x * c == product >= c > 0.0
    ensures x >= 1.0
  {
    var gap := 1.0 - x;
    assert gap * c == c - product;
    if gap > 0.0 { Positive(gap, c); }
  }

  lemma StrictSquares(x: real, y: real)
    requires 0.0 <= x < y
    ensures x * x < y * y
  {
    var (sum, gap) := (x + y, y - x);
    var product := gap * sum;
    assert product > 0.0 by { Positive(gap, sum); }
    assert product == y * y - x * x;
  }

  lemma Squares(x: real, y: real)
    requires 0.0 <= x && 0.0 <= y
    ensures x <= y <==> x * x <= y * y
  {
    if x <= y {
      MulLe(x, y, x);
      MulLe(x, y, y);
    } else {
      StrictSquares(y, x);
    }
  }

  lemma MulAtLeast(b: int, m: int, n: int)
    requires b > 0 && m <= n
    ensures b * m <= b * n
  {
  }

  lemma GridError(q: real, u: real)
    requires u > 0.0
    ensures -u <= 2.0 * (ToGrid(q, u) - q) <= u
  {
    hide NearestInteger;
    DivideBack(q, u);
    HalfStep(NearestInteger(q / u) as real, q / u, u, ToGrid(q, u), q);
  }

  lemma HalfStep(m: real, x: real, u: real, v: real, q: real)
    requires u > 0.0 && -0.5 <= m - x <= 0.5 && v == m * u && q == x * u
    ensures -u <= 2.0 * (v - q) <= u
  {
    MulLe(2.0 * m, 2.0 * x + 1.0, u);
    MulLe(2.0 * x - 1.0, 2.0 * m, u);
  }

  lemma NearestMonotone(x: real, y: real)
    requires x <= y
    ensures NearestInteger(x) <= NearestInteger(y)
  {
  }

  lemma GridMonotone(p: real, q: real, u: real)
    requires u > 0.0 && p <= q
    ensures ToGrid(p, u) <= ToGrid(q, u)
  {
    hide NearestInteger;
    DivideBack(p, u);
    DivideBack(q, u);
    CancelLe(p / u, q / u, u);
    NearestMonotone(p / u, q / u);
    MulLe(NearestInteger(p / u) as real, NearestInteger(q / u) as real, u);
  }

  lemma Multiple(t: int, u: real, q: real)
    requires u > 0.0 && q == t as real * u
    ensures ToGrid(q, u) == q
  {
    DivideBack(q, u);
    CancelEq(q / u, t as real, u);
    assert NearestInteger(t as real) == t;
  }

  lemma NearestWithin(x: real, m: int)
    requires -1.0 < 2.0 * (x - m as real) < 1.0
    ensures NearestInteger(x) == m
  {
  }
}
