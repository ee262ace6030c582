/** Products and quotients of reals that the solver should meet alone. */
module Rationals {
  lemma DistributeOver(factor: real, a: int, b: int)
    ensures factor * (a + b) as real == factor * a as real + factor * b as real
  {
  }

  lemma AddScaled(x: real, y: real, a: int, b: int, factor: real)
    requires x == factor * a as real && y == factor * b as real
    ensures x + y == factor * (a + b) as real
  {
    DistributeOver(factor, a, b);
  }

  lemma CancelCount(sum: real, n: real, factor: real)
    requires n > 0.0
    ensures sum / n * (factor * n) == factor * sum
  {
    var mean := sum / n;
    assert mean * n == sum;
    assert mean * (factor * n) == factor * (mean * n);
  }

  lemma SameQuotient(weighted: real, weight: int, sum: int, n: int, factor: real)
    requires n > 0 && factor > 0.0
    requires weight as real == factor * n as real && weighted == factor * sum as real
    ensures weight > 0 && weighted / weight as real == sum as real / n as real
  {
    var mean := sum as real / n as real;
    assert mean * n as real == sum as real;
    assert mean * (factor * n as real) == factor * (mean * n as real);
  }

  lemma RatioScales(c: int, r: int, c0: int, n0: int)
    requires n0 > 0 && c * n0 == c0 * r
    ensures c as real == c0 as real / n0 as real * r as real
  {
    var q := c0 as real / n0 as real;
    assert q * n0 as real == c0 as real;
    assert (c * n0) as real == c as real * n0 as real;
    assert (c0 * r) as real == c0 as real * r as real;
    assert (q * r as real) * n0 as real == (q * n0 as real) * r as real;
    assert (c as real - q * r as real) * n0 as real == 0.0;
  }

  lemma PositiveRatio(a: int, b: int)
    requires a > 0 && b > 0
    ensures a as real / b as real > 0.0
  {
  }

  lemma UnitMean(n: int, c: int)
    ensures n != 0 ==> n as real / n as real * c as real == c as real
    ensures n != 0 ==> 0.0 / n as real * c as real == 0.0
  {
    if n != 0 {
      assert n as real / n as real == 1.0;
      assert 0.0 / n as real == 0.0;
    }
  }

  lemma CrossMultiply(a: int, b: int, c: int, d: int)
    requires b > 0 && d > 0 && a as real / b as real == c as real / d as real
    ensures a * d == c * b
  {
    var q := a as real / b as real;
    assert q * b as real == a as real && q * d as real == c as real;
    assert a as real * d as real == c as real * b as real by {
      assert (q * b as real) * d as real == (q * d as real) * b as real;
    }
    assert (a * d) as real == (c * b) as real;
  }

  lemma CancelTotal(cj: int, nj: int, ck: int, nk: int, total: int, weight: int)
    requires total > 0 && cj * total == nj * weight && ck * total == nk * weight
    ensures cj * nk == ck * nj
  {
    assert (cj * nk) * total == (cj * total) * nk == (nj * weight) * nk;
    assert (ck * nj) * total == (ck * total) * nj == (nk * weight) * nj;
    assert (nj * weight) * nk == (nk * weight) * nj;
    assert (cj * nk - ck * nj) * total == 0;
  }

  predicate Within(x: real, y: real, bound: real) {
    x - bound <= y <= x + bound
  }

  lemma ScaleError(x: real, y: real, error: real, n: real)
    requires Within(x, y, error) && n >= 0.0
    ensures Within(x * n, y * n, error * n)
  {
    assert (y - x + error) * n >= 0.0 && (x + error - y) * n >= 0.0;
  }

  lemma AddError(a: real, b: real, m: int, c: real, d: real, n: int, error: real)
    requires Within(a, b, error * m as real) && Within(c, d, error * n as real)
    ensures Within(a + c, b + d, error * (m + n) as real)
  {
    DistributeOver(error, m, n);
  }

  lemma PositiveFactor(z: real, n: real)
    requires n > 0.0 && z * n >= 0.0
    ensures z >= 0.0
  {
    assert z < 0.0 ==> z * n < 0.0;
  }

  lemma DivideError(x: real, y: real, error: real, n: real)
    requires n > 0.0 && Within(x, y, error * n)
    ensures Within(x / n, y / n, error)
  {
    var p, q := x / n, y / n;
    assert p * n == x && q * n == y;
    assert (q - p + error) * n == y - x + error * n;
    assert (p + error - q) * n == x + error * n - y;
    PositiveFactor(q - p + error, n);
    PositiveFactor(p + error - q, n);
  }
}
