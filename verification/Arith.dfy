/** The few facts about multiplication and division that the proofs share. */
module Arith {

  function Max(a: int, b: int): int {
    if a >= b then a else b
  }

  function Min(a: int, b: int): int {
    if a <= b then a else b
  }

  /** A non-zero multiple of `p` is at least `p` away from zero. */
  lemma MultipleIsFar(d: int, p: int)
    requires p >= 1
    ensures d == 0 || d * p >= p || d * p <= -p
  {
    if d >= 1 {
      assert (d - 1) * p >= 0;
    } else if d <= -1 {
      assert (d + 1) * p <= 0;
    }
  }

  lemma DivUnique(x: int, p: int, q: int, m: int)
    requires p >= 1 && 0 <= m < p && x == q * p + m
    ensures x / p == q && x % p == m
  {
    assert x == x / p * p + x % p;
    assert (x / p - q) * p == m - x % p;
    MultipleIsFar(x / p - q, p);
  }

  lemma DivShift(x: int, p: int)
    requires p >= 1
    ensures (x - p) / p + 1 == x / p
  {
    DivUnique(x - p, p, x / p - 1, x % p);
  }

  /** The quotient is the largest number of times `p` fits. */
  lemma DivIsFloor(x: int, p: int, n: int)
    requires p >= 1
    ensures n * p <= x <==> n <= x / p
  {
    if n <= x / p {
      assert n * p <= x / p * p;
    } else {
      assert n * p >= (x / p + 1) * p;
    }
  }

  lemma MulSucc(n: int, p: int)
    ensures (n + 1) * p == n * p + p
  {
  }

  lemma MulSub(a: int, b: int, p: int)
    ensures (a - b) * p == a * p - b * p
  {
  }

  lemma MulMono(a: int, b: int, p: int)
    requires a <= b && p >= 0
    ensures a * p <= b * p
  {
    assert (b - a) * p >= 0;
  }
}
