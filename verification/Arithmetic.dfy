/** Facts about products, quotients and remainders that the solver does not find by itself. */
module Arithmetic {

  lemma Monotone(a: int, b: int, s: int)
    requires s > 0
    ensures a <= b <==> a * s <= b * s
  {
    if a <= b {
      assert (b - a) * s >= 0;
    } else {
      assert (a - b - 1) * s >= 0;
    }
  }

  lemma Distribute(a: int, b: int, s: int)
    ensures (a + b) * s == a * s + b * s
  {
  }

  lemma Associate(a: int, b: int, c: int)
    ensures a * b * c == a * (b * c)
  {
  }

  lemma DivisionTheorem(a: int, s: int)
    requires s > 0
    ensures a == a / s * s + a % s && 0 <= a % s < s
    ensures a >= 0 ==> a / s >= 0
  {
  }

  /** A quotient and a remainder are determined by what they must satisfy. */
  lemma DivideOut(low: int, high: int, n: int)
    requires 0 <= low < n
    ensures (low + high * n) / n == high && (low + high * n) % n == low
  {
    var q, r := (low + high * n) / n, (low + high * n) % n;
    DivisionTheorem(low + high * n, n);
    assert (high - q) * n == r - low;
    Monotone(1, high - q, n);
    Monotone(high - q, -1, n);
  }

  lemma PackedBound(low: int, high: int, n: int, m: int)
    requires 0 <= low < n && 0 <= high < m
    ensures 0 <= low + high * n < m * n
  {
    Monotone(0, high, n);
    Monotone(high + 1, m, n);
    assert (high + 1) * n == high * n + n;
  }

  lemma QuotientBound(a: int, n: int, m: int)
    requires n > 0 && 0 <= a < m * n
    ensures 0 <= a / n < m && a == a % n + a / n * n
  {
    DivisionTheorem(a, n);
    Monotone(m, a / n, n);
  }

  lemma QuotientIs(a: int, n: int, k: int)
    requires n > 0
    ensures a / n == k <==> k * n <= a < k * n + n
  {
    DivisionTheorem(a, n);
    var low := a - k * n;
    if 0 <= low < n {
      DivideOut(low, k, n);
      assert low + k * n == a;
    }
  }
}
