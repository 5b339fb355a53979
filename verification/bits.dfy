/**
 * Bitwise OR and XOR on non-negative integers, defined one bit at a time
 * (lowest bit first), with the facts the pixel filters rely on.
 */
module Bits {

  function Pow2(k: nat): (p: nat)
    ensures p >= 1
  {
    if k == 0 then 1 else 2 * Pow2(k - 1)
  }

  /** Bitwise OR, as numpy's `|` on non-negative values. */
  function Or(a: nat, b: nat): (r: nat)
    ensures r == 0 <==> a == 0 && b == 0
    decreases a + b
  {
    if a == 0 && b == 0 then 0
    else 2 * Or(a / 2, b / 2) + (if a % 2 == 1 || b % 2 == 1 then 1 else 0)
  }

  /** Bitwise XOR, as numpy's `^` on non-negative values. */
  function Xor(a: nat, b: nat): (r: nat)
    ensures r == 0 <==> a == b
    decreases a + b
  {
    if a == 0 && b == 0 then 0
    else 2 * Xor(a / 2, b / 2) + (if a % 2 != b % 2 then 1 else 0)
  }

  /** Bit k of x, counting from the least significant bit 0. */
  predicate Bit(x: nat, k: nat)
  {
    (x / Pow2(k)) % 2 == 1
  }

  /** A positive multiple of a positive divisor is at least the divisor. */
  lemma {:induction false} MultipleAtLeastDivisor(n: nat, d: nat)
    requires n >= 1 && d > 0
    ensures n * d >= d
  {
    if n > 1 {
      MultipleAtLeastDivisor(n - 1, d);
      assert n * d == (n - 1) * d + d;
    }
  }

  /** Division is determined by a quotient and a remainder below the divisor. */
  lemma DivUnique(x: int, d: int, q: int, r: int)
    requires d > 0 && 0 <= r < d && x == q * d + r
    ensures x / d == q
  {
    var q', r' := x / d, x % d;
    assert x == q' * d + r';
    if q > q' {
      assert q * d == q' * d + (q - q') * d;
      MultipleAtLeastDivisor(q - q', d);
    } else if q < q' {
      assert q' * d == q * d + (q' - q) * d;
      MultipleAtLeastDivisor(q' - q, d);
    }
  }

  /** Dividing by 2^k is halving, then dividing by 2^(k-1). */
  lemma DivPow2Step(x: nat, k: nat)
    requires k > 0
    ensures x / Pow2(k) == (x / 2) / Pow2(k - 1)
  {
    var m := Pow2(k - 1);
    var q, r := (x / 2) / m, (x / 2) % m;
    assert x / 2 == q * m + r;
    assert x == q * (2 * m) + (2 * r + x % 2);
    DivUnique(x, 2 * m, q, 2 * r + x % 2);
  }

  /** Bit k of `a | b` is set exactly when bit k of a or bit k of b is set. */
  lemma {:induction false} OrBit(a: nat, b: nat, k: nat)
    ensures Bit(Or(a, b), k) == (Bit(a, k) || Bit(b, k))
    decreases k
  {
    if k == 0 {
      assert Pow2(0) == 1;
    } else if a == 0 && b == 0 {
      DivPow2Step(0, k);
      OrBit(0, 0, k - 1);
    } else {
      var o := Or(a, b);
      assert o / 2 == Or(a / 2, b / 2);
      DivPow2Step(o, k);
      DivPow2Step(a, k);
      DivPow2Step(b, k);
      OrBit(a / 2, b / 2, k - 1);
    }
  }

  /** OR never clears a bit: the result is at least each operand. */
  lemma {:induction false} OrAtLeastOperands(a: nat, b: nat)
    ensures a <= Or(a, b) && b <= Or(a, b)
    decreases a + b
  {
    if a != 0 || b != 0 {
      OrAtLeastOperands(a / 2, b / 2);
    }
  }

  /** OR of two k-bit values is a k-bit value. */
  lemma {:induction false} OrBelowPow2(a: nat, b: nat, k: nat)
    requires a < Pow2(k) && b < Pow2(k)
    ensures Or(a, b) < Pow2(k)
  {
    if k > 0 && (a != 0 || b != 0) {
      OrBelowPow2(a / 2, b / 2, k - 1);
    }
  }

  /** Zero is the identity of OR. */
  lemma {:induction false} OrZero(a: nat)
    ensures Or(a, 0) == a
  {
    if a != 0 {
      OrZero(a / 2);
    }
  }

  /** OR-ing the same value a second time changes nothing. */
  lemma {:induction false} OrIdempotent(a: nat, c: nat)
    ensures Or(Or(a, c), c) == Or(a, c)
    decreases a + c
  {
    if a != 0 || c != 0 {
      var m := Or(a, c);
      assert m / 2 == Or(a / 2, c / 2);
      assert m % 2 == (if a % 2 == 1 || c % 2 == 1 then 1 else 0);
      OrIdempotent(a / 2, c / 2);
    }
  }

  /** XOR with the all-ones k-bit mask is subtraction from that mask. */
  lemma {:induction false} XorAllOnes(a: nat, k: nat)
    requires a < Pow2(k)
    ensures Xor(a, Pow2(k) - 1) == Pow2(k) - 1 - a
  {
    if k > 0 {
      var m := Pow2(k) - 1;
      assert m / 2 == Pow2(k - 1) - 1 && m % 2 == 1;
      XorAllOnes(a / 2, k - 1);
    }
  }

  lemma Pow2Of8()
    ensures Pow2(8) == 256
  {
  }

  /** OR of two bytes is a byte. */
  lemma OrOfBytes(a: nat, b: nat)
    requires a < 256 && b < 256
    ensures Or(a, b) < 256
  {
    Pow2Of8();
    OrBelowPow2(a, b, 8);
  }
}
