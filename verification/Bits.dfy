/** Bit operations on unsigned integers, by value: or, shifts and masks. */
module Bits {
  /** Bitwise or. */
  function Or(a: nat, b: nat): nat {
    if a == 0 && b == 0 then 0
    else 2 * Or(a / 2, b / 2) + (if a % 2 == 1 || b % 2 == 1 then 1 else 0)
  }

  function Pow2(k: nat): (p: nat)
    ensures p > 0
  {
    if k == 0 then 1 else 2 * Pow2(k - 1)
  }

  function Shl(a: nat, k: nat): nat {
    a * Pow2(k)
  }

  function Shr(a: nat, k: nat): nat {
    Quotient(a, Pow2(k))
  }

  function Quotient(a: nat, p: nat): nat
    requires p > 0
  {
    a / p
  }

  /** `a & (2^k - 1)`. */
  function Low(a: nat, k: nat): nat {
    a % Pow2(k)
  }

  lemma {:induction false} OrZero(a: nat)
    ensures Or(a, 0) == a
  {
    if a != 0 { OrZero(a / 2); }
  }

  lemma {:induction false} OrCommutes(a: nat, b: nat)
    ensures Or(a, b) == Or(b, a)
  {
    if a != 0 || b != 0 { OrCommutes(a / 2, b / 2); }
  }

  /** Fields that do not overlap: or-ing a value above bit `k` with one below it adds the two. */
  lemma {:induction false} OrDisjoint(a: nat, m: nat, k: nat)
    requires a < Pow2(k)
    ensures Or(a, Shl(m, k)) == a + Shl(m, k)
    ensures Or(Shl(m, k), a) == a + Shl(m, k)
  {
    OrCommutes(a, Shl(m, k));
    if k == 0 {
      OrCommutes(a, m);
      OrZero(m);
    } else {
      var half := Shl(m, k - 1);
      assert Shl(m, k) == 2 * half by {
        assert m * (2 * Pow2(k - 1)) == 2 * (m * Pow2(k - 1));
      }
      OrDisjoint(a / 2, m, k - 1);
      if a == 0 && Shl(m, k) == 0 {
        assert half == 0;
      }
    }
  }

  lemma Powers()
    ensures Pow2(0) == 1 && Pow2(2) == 4 && Pow2(3) == 8 && Pow2(4) == 16 && Pow2(6) == 64 && Pow2(8) == 256
    ensures Pow2(9) == 512 && Pow2(12) == 4096 && Pow2(15) == 0x8000 && Pow2(16) == 0x1_0000
    ensures Pow2(18) == 0x4_0000 && Pow2(23) == 0x80_0000
  {
    assert Pow2(1) == 2;
    assert Pow2(5) == 32;
    assert Pow2(7) == 128;
    assert Pow2(10) == 1024;
    assert Pow2(11) == 2048;
    assert Pow2(13) == 8192;
    assert Pow2(14) == 0x4000;
    assert Pow2(17) == 0x2_0000;
    assert Pow2(19) == 0x8_0000;
    assert Pow2(20) == 0x10_0000;
    assert Pow2(21) == 0x20_0000;
    assert Pow2(22) == 0x40_0000;
  }
}
