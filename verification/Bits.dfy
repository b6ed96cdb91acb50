/** Bit operations on natural numbers of any size, as Python's integers have them. */
module Bits {
  import opened Arith

  function Pow2(k: nat): nat
    ensures Pow2(k) >= 1
  {
    if k == 0 then 1 else 2 * Pow2(k - 1)
  }

  function Shl(a: nat, k: nat): nat {
    a * Pow2(k)
  }

  function Shr(a: nat, k: nat): nat {
    DivIsFloor(a, Pow2(k), 0);
    a / Pow2(k)
  }

  function Or(a: nat, b: nat): nat {
    if a == 0 && b == 0 then 0
    else 2 * Or(a / 2, b / 2) + (if a % 2 == 1 || b % 2 == 1 then 1 else 0)
  }

  function And(a: nat, b: nat): nat {
    if a == 0 || b == 0 then 0
    else 2 * And(a / 2, b / 2) + (if a % 2 == 1 && b % 2 == 1 then 1 else 0)
  }

  lemma {:induction false} OrZero(a: nat)
    ensures Or(a, 0) == a
  {
    if a > 0 {
      OrZero(a / 2);
    }
  }

  /** Or-ing a field below the bits of a shifted number puts the two side by side. */
  lemma {:induction false} OrDisjoint(a: nat, k: nat, b: nat)
    requires b < Pow2(k)
    ensures Or(Shl(a, k), b) == Shl(a, k) + b
    decreases k
  {
    if k == 0 {
      OrZero(a);
    } else {
      var x := Shl(a, k);
      var half := Shl(a, k - 1);
      assert x == 2 * half by {
        assert a * (2 * Pow2(k - 1)) == 2 * (a * Pow2(k - 1));
      }
      OrDisjoint(a, k - 1, b / 2);
    }
  }

  /** The remainder by an even number, from the remainder of the half. */
  lemma EvenRemainder(a: nat, p: nat)
    requires p >= 1
    ensures a % (2 * p) == 2 * (a / 2 % p) + a % 2
  {
    var q, m := a / 2 / p, a / 2 % p;
    assert a / 2 == q * p + m;
    assert q * (2 * p) == 2 * (q * p);
    DivUnique(a, 2 * p, q, 2 * m + a % 2);
  }

  /** Masking with k ones keeps the low k bits. */
  lemma {:induction false} AndMask(a: nat, k: nat)
    ensures And(a, Pow2(k) - 1) == a % Pow2(k)
    decreases k
  {
    if k > 0 {
      AndMask(a / 2, k - 1);
      EvenRemainder(a, Pow2(k - 1));
    }
  }
}
