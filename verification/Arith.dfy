/** Products and floors that the solver should not have to search for. */
module Arith {
  lemma DivisionBounds(n: int, d: int)
    requires d > 0
    ensures d * (n / d) <= n < d * (n / d) + d
  {
  }

  lemma ScaleOrder(a: int, b: int, d: int)
    requires d >= 0
    ensures a <= b ==> d * a <= d * b
  {
  }

  lemma Distribute(f: int, a: int, b: int)
    ensures f * (a + b) == f * a + f * b
  {
  }

  lemma FloorMonotone(a: int, b: int, d: int)
    requires a <= b && d > 0
    ensures a / d <= b / d
  {
    DivisionBounds(a, d);
    DivisionBounds(b, d);
    ScaleOrder(b / d + 1, a / d, d);
    Distribute(d, b / d, 1);
  }

  lemma QuotientUnique(n: int, d: int, q: int)
    requires d > 0 && d * q <= n < d * q + d
    ensures n / d == q
  {
    DivisionBounds(n, d);
    ScaleOrder(n / d + 1, q, d);
    ScaleOrder(q + 1, n / d, d);
    Distribute(d, n / d, 1);
    Distribute(d, q, 1);
  }

  /** The multiple of `d` at or below `at` is the one from which the next is further than `at`. */
  lemma FloorIs(at: int, d: int, b: int)
    requires d > 0
    ensures at / d * d == b <==> b % d == 0 && b <= at < b + d
  {
    DivisionBounds(at, d);
    QuotientUnique(at / d * d, d, at / d);
    if b % d == 0 && b <= at < b + d {
      QuotientUnique(at, d, b / d);
    }
  }
}
