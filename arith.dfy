/** Integer facts the seat arithmetic needs: monotone multiplication and
    Euclidean division with remainder. */
module Arith {

  lemma MulMono(a: int, b: int, n: nat)
    requires a <= b
    ensures a * n <= b * n
  {
    assert b * n - a * n == (b - a) * n;
  }

  /** p rows of n are p - 1 rows and one more. */
  lemma MulPred(p: int, n: int)
    ensures (p - 1) * n + n == p * n
  {
  }

  /** x = q*n + r with 0 <= r < n determines quotient and remainder. */
  lemma DivModUnique(x: int, n: int, q: int, r: int)
    requires n > 0 && 0 <= r < n && x == q * n + r
    ensures x / n == q && x % n == r
  {
    var q', r' := x / n, x % n;
    assert x == q' * n + r';
    assert (q - q') * n == r' - r;
    if q > q' {
      MulMono(1, q - q', n);
    } else if q < q' {
      MulMono(1, q' - q, n);
    }
  }

  /** Stepping back one seat commutes with reducing modulo n. */
  lemma ModShift(x: int, n: int)
    requires n > 0
    ensures (x % n - 1 + n) % n == (x - 1) % n
  {
    var q, r := x / n, x % n;
    assert x == q * n + r;
    if r >= 1 {
      DivModUnique(r - 1 + n, n, 1, r - 1);
      DivModUnique(x - 1, n, q, r - 1);
    } else {
      DivModUnique(r - 1 + n, n, 0, n - 1);
      DivModUnique(x - 1, n, q - 1, n - 1);
    }
  }

  /** Two numbers less than n apart have different remainders. */
  lemma ModDistinct(a: int, b: int, n: int)
    requires n > 0 && 0 < b - a < n
    ensures a % n != b % n
  {
    var qa, qb := a / n, b / n;
    assert a == qa * n + a % n;
    assert b == qb * n + b % n;
    if a % n == b % n {
      assert b - a == (qb - qa) * n;
      if qb - qa >= 1 {
        MulMono(1, qb - qa, n);
      } else {
        MulMono(qb - qa, 0, n);
      }
    }
  }

  /** Slots q*n + k with 0 <= k < n are in range and do not collide. */
  lemma SlotBound(n: int, p: int, q: int, k: int)
    requires 0 <= k < n && 0 <= q < p
    ensures 0 <= q * n + k < p * n
  {
    MulMono(0, q, n);
    MulMono(q, p - 1, n);
    assert (p - 1) * n + n == p * n;
  }

  lemma SlotInjective(n: int, q1: int, k1: int, q2: int, k2: int)
    requires 0 <= k1 < n && 0 <= k2 < n && q1 * n + k1 == q2 * n + k2
    ensures q1 == q2 && k1 == k2
  {
    DivModUnique(q1 * n + k1, n, q1, k1);
    DivModUnique(q2 * n + k2, n, q2, k2);
  }
}
