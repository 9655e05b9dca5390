/** Integer facts the solver does not find unaided: small multiples and the
    uniqueness of Euclidean division. */
module Arith {

  /** A multiple of a positive number that is strictly smaller than that
      number in absolute value is zero. */
  lemma SmallMultiple(a: int, d: int)
    requires 0 < a
    requires -a < a * d < a
    ensures d == 0
  {
  }

  /** a * (b + c * d) written out as a sum of products. */
  lemma Distribute(a: int, b: int, c: int, d: int)
    ensures a * (b + c * d) == a * b + (c * a) * d
  {
    assert a * (b + c * d) == a * b + a * (c * d);
    assert a * (c * d) == (c * a) * d;
  }

  /** Any decomposition a == q * m + r with 0 <= r < m is the Euclidean one. */
  lemma DivModUnique(a: int, m: int, q: int, r: int)
    requires m > 0 && 0 <= r < m
    requires a == q * m + r
    ensures a % m == r && a / m == q
  {
    var q', r' := a / m, a % m;
    assert a == q' * m + r';
    assert (q - q') * m == r' - r;
    assert m * (q - q') == r' - r;
    SmallMultiple(m, q - q');
  }

  /** Multiplying by a non-negative factor preserves order. */
  lemma MulMono(a: int, b: int, c: int)
    requires 0 <= a && b <= c
    ensures a * b <= a * c
  {
    assert a * c - a * b == a * (c - b);
  }
}
