/** The integer operations the inclusion-proof checker is written with: exclusive or,
    bit length, population count and right shift of an unbounded non-negative integer. */
module Bits {

  function Pow2(n: nat): (r: nat)
    ensures r > 0
  {
    if n == 0 then 1 else 2 * Pow2(n - 1)
  }

  function Xor(a: nat, b: nat): nat
    decreases a + b
  {
    if a == 0 && b == 0 then 0 else (a % 2 + b % 2) % 2 + 2 * Xor(a / 2, b / 2)
  }

  function BitLength(n: nat): nat {
    if n == 0 then 0 else 1 + BitLength(n / 2)
  }

  function PopCount(n: nat): nat {
    if n == 0 then 0 else n % 2 + PopCount(n / 2)
  }

  function Shr(n: nat, i: nat): nat {
    if i == 0 then n else Shr(n / 2, i - 1)
  }

  predicate Bit(n: nat, i: nat) {
    Shr(n, i) % 2 == 1
  }

  lemma {:induction false} Pow2Monotone(a: nat, b: nat)
    requires a < b
    ensures 2 * Pow2(a) <= Pow2(b)
  {
    if a + 1 < b {
      Pow2Monotone(a, b - 1);
    }
  }

  /** The bit length is the exponent of the power-of-two interval the number lies in. */
  lemma {:induction false} BitLengthOfInterval(p: nat, n: nat)
    requires Pow2(p) <= n < 2 * Pow2(p)
    ensures BitLength(n) == p + 1
  {
    if p > 0 {
      BitLengthOfInterval(p - 1, n / 2);
    }
  }

  lemma {:induction false} BitLengthBound(p: nat, n: nat)
    requires n < Pow2(p)
    ensures BitLength(n) <= p
  {
    if p > 0 {
      BitLengthBound(p - 1, n / 2);
    }
  }

  /** Numbers on different sides of a power of two differ at that power's bit. */
  lemma {:induction false} XorAcross(p: nat, m: nat, l: nat)
    requires m < Pow2(p) <= l < 2 * Pow2(p)
    ensures Pow2(p) <= Xor(m, l) < 2 * Pow2(p)
  {
    if p > 0 {
      XorAcross(p - 1, m / 2, l / 2);
    } else {
      assert Xor(0, 1) == 1 + 2 * Xor(0, 0);
    }
  }

  lemma {:induction false} XorBound(p: nat, m: nat, l: nat)
    requires m < Pow2(p) && l < Pow2(p)
    ensures Xor(m, l) < Pow2(p)
  {
    if p > 0 {
      XorBound(p - 1, m / 2, l / 2);
    }
  }

  /** A top bit both numbers carry cancels. */
  lemma {:induction false} XorStrip(p: nat, m: nat, l: nat)
    requires Pow2(p) <= m < 2 * Pow2(p) && Pow2(p) <= l < 2 * Pow2(p)
    ensures Xor(m, l) == Xor(m - Pow2(p), l - Pow2(p))
  {
    if p > 0 {
      XorStrip(p - 1, m / 2, l / 2);
      assert (m - Pow2(p)) / 2 == m / 2 - Pow2(p - 1);
      assert (l - Pow2(p)) / 2 == l / 2 - Pow2(p - 1);
    } else {
      assert Xor(1, 1) == 0 + 2 * Xor(0, 0);
    }
  }

  lemma {:induction false} ShrBound(p: nat, m: nat, i: nat)
    requires i <= p && m < Pow2(p)
    ensures Shr(m, i) < Pow2(p - i)
  {
    if i > 0 {
      ShrBound(p - 1, m / 2, i - 1);
    }
  }

  /** Removing the top bit of a number removes the top bit of each of its right shifts. */
  lemma {:induction false} ShrStrip(p: nat, m: nat, i: nat)
    requires i <= p && Pow2(p) <= m < 2 * Pow2(p)
    ensures Shr(m, i) == Shr(m - Pow2(p), i) + Pow2(p - i)
  {
    if i > 0 {
      ShrStrip(p - 1, m / 2, i - 1);
      assert (m - Pow2(p)) / 2 == m / 2 - Pow2(p - 1);
    }
  }

  lemma {:induction false} PopCountStrip(p: nat, m: nat)
    requires Pow2(p) <= m < 2 * Pow2(p)
    ensures PopCount(m) == PopCount(m - Pow2(p)) + 1
  {
    if p > 0 {
      PopCountStrip(p - 1, m / 2);
      assert (m - Pow2(p)) / 2 == m / 2 - Pow2(p - 1);
    }
  }

  /** Shifted as far as its top bit or less, a number has one more bit set than without it. */
  lemma ShiftedPopCount(p: nat, m: nat, i: nat)
    requires i <= p && Pow2(p) <= m < 2 * Pow2(p)
    ensures PopCount(Shr(m, i)) == PopCount(Shr(m - Pow2(p), i)) + 1
  {
    ShrStrip(p, m, i);
    ShrBound(p, m - Pow2(p), i);
    PopCountStrip(p - i, Shr(m, i));
  }

  lemma {:induction false} BitBelowTop(p: nat, m: nat, i: nat)
    requires i < p && Pow2(p) <= m < 2 * Pow2(p)
    ensures Bit(m, i) == Bit(m - Pow2(p), i)
  {
    ShrStrip(p, m, i);
    assert Pow2(p - i) == 2 * Pow2(p - i - 1);
  }

  lemma {:induction false} TopBit(p: nat, m: nat)
    requires m < 2 * Pow2(p)
    ensures Bit(m, p) <==> Pow2(p) <= m
  {
    if m < Pow2(p) {
      ShrBound(p, m, p);
    } else {
      ShrStrip(p, m, p);
      ShrBound(p, m - Pow2(p), p);
    }
  }
}
