/** Facts about Euclidean division shared by the generator and the ring
    buffer. */
module Arith {

  /** A positive number times a factor of at least 1 is at least itself. */
  lemma MulAtLeast(n: int, d: int)
    requires 0 < n && 1 <= d
    ensures n <= n * d
  {
    assert n * d == n + n * (d - 1);
  }

  /** Euclidean division is determined by its quotient and remainder. */
  lemma DivModUnique(x: int, n: int, q: int, r: int)
    requires 0 < n && 0 <= r < n && x == n * q + r
    ensures x / n == q && x % n == r
  {
    var q', r' := x / n, x % n;
    assert x == n * q' + r';
    assert n * (q - q') == r' - r;
    if q > q' {
      MulAtLeast(n, q - q');
    }
    if q < q' {
      assert n * (q' - q) == r - r';
      MulAtLeast(n, q' - q);
    }
  }
}
