/** Bitwise operators on unbounded naturals. */
module Bits {
  function Pow2(k: nat): (p: nat)
    ensures p >= 1
  {
    if k == 0 then 1 else 2 * Pow2(k - 1)
  }

  function Shl(x: nat, k: nat): nat {
    x * Pow2(k)
  }

  lemma ShlStep(x: nat, k: nat)
    requires k > 0
    ensures Shl(x, k) == 2 * Shl(x, k - 1)
  {
    assert x * (2 * Pow2(k - 1)) == 2 * (x * Pow2(k - 1));
  }

  lemma PowersOfTwo()
    ensures Pow2(0) == 1 && Pow2(1) == 2 && Pow2(3) == 8 && Pow2(5) == 32 && Pow2(6) == 64
    ensures Pow2(8) == 256 && Pow2(9) == 512 && Pow2(15) == 32768
  {
    assert Pow2(4) == 2 * Pow2(3) && Pow2(7) == 2 * Pow2(6);
    assert Pow2(12) == 2 * Pow2(11) && Pow2(11) == 2 * Pow2(10) && Pow2(10) == 2 * Pow2(9);
    assert Pow2(15) == 2 * Pow2(14) && Pow2(14) == 2 * Pow2(13) && Pow2(13) == 2 * Pow2(12);
  }

  function Shr(x: nat, k: nat): nat {
    if k == 0 then x else Shr(x / 2, k - 1)
  }

  function Or(x: nat, y: nat): nat
    decreases x + y
  {
    if x == 0 && y == 0 then 0 else 2 * Or(x / 2, y / 2) + if x % 2 == 1 || y % 2 == 1 then 1 else 0
  }

  function And(x: nat, y: nat): nat
    decreases x + y
  {
    if x == 0 && y == 0 then 0 else 2 * And(x / 2, y / 2) + if x % 2 == 1 && y % 2 == 1 then 1 else 0
  }

  lemma {:induction false} OrZero(y: nat)
    ensures Or(0, y) == y
  {
    if y > 0 {
      OrZero(y / 2);
    }
  }

  lemma {:induction false} AndZero(x: nat)
    ensures And(x, 0) == 0
  {
    if x > 0 {
      AndZero(x / 2);
    }
  }

  /** Fields that do not overlap are simply added. */
  lemma {:induction false} OrOfDisjoint(low: nat, field: nat, k: nat)
    requires low < Pow2(k)
    ensures Or(low, Shl(field, k)) == low + Shl(field, k)
  {
    if k == 0 {
      OrZero(field);
    } else {
      ShlStep(field, k);
      OrOfDisjoint(low / 2, field, k - 1);
    }
  }

  /** Shifting back drops the bits below. */
  lemma {:induction false} ShrOfSum(low: nat, field: nat, k: nat)
    requires low < Pow2(k)
    ensures Shr(low + Shl(field, k), k) == field
  {
    if k > 0 {
      ShlStep(field, k);
      assert (low + Shl(field, k)) / 2 == low / 2 + Shl(field, k - 1);
      ShrOfSum(low / 2, field, k - 1);
    }
  }

  /** Masking keeps the bits below. */
  lemma {:induction false} MaskOfSum(low: nat, field: nat, k: nat)
    requires low < Pow2(k)
    ensures And(low + Shl(field, k), Pow2(k) - 1) == low
  {
    if k == 0 {
      AndZero(field);
    } else {
      ShlStep(field, k);
      assert (low + Shl(field, k)) / 2 == low / 2 + Shl(field, k - 1);
      MaskOfSum(low / 2, field, k - 1);
    }
  }
}
