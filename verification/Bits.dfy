/** Go's shifts and bitwise operators on unsigned integers, and when they are plain arithmetic. */
module Bits {
  import opened Bytes

  function Shl(x: nat, k: nat): nat { if k == 0 then x else 2 * Shl(x, k - 1) }

  function Shr(x: nat, k: nat): nat { if k == 0 then x else Shr(x, k - 1) / 2 }

  /** The conversion byte(x). */
  function ToByte(x: nat): Byte { x % 256 }

  /** Bit by bit, the lowest bit first. */
  function Or(a: nat, b: nat): nat {
    if a == 0 && b == 0 then 0
    else 2 * Or(a / 2, b / 2) + (if a % 2 == 1 || b % 2 == 1 then 1 else 0)
  }

  function And(a: nat, b: nat): nat {
    if a == 0 && b == 0 then 0
    else 2 * And(a / 2, b / 2) + (if a % 2 == 1 && b % 2 == 1 then 1 else 0)
  }

  lemma {:induction false} OrZero(x: nat)
    ensures Or(x, 0) == x
  {
    if x == 0 {
    } else {
      OrZero(x / 2);
    }
  }

  /** A value shifted left and one that fits below it: or-ing them is adding them. */
  lemma {:induction false} OrDisjoint(x: nat, k: nat, y: nat)
    requires y < Shl(1, k)
    ensures Or(Shl(x, k), y) == Shl(x, k) + y
  {
    if k == 0 {
      OrZero(x);
    } else {
      OrDisjoint(x, k - 1, y / 2);
      assert Shl(x, k) / 2 == Shl(x, k - 1) && Shl(x, k) % 2 == 0;
    }
  }

  lemma {:induction false} AndZero(x: nat)
    ensures And(x, 0) == 0
  {
    if x == 0 {
    } else {
      AndZero(x / 2);
    }
  }

  /** Masking with two one-bits is the remainder by four. */
  lemma AndThree(x: nat)
    ensures And(x, 3) == x % 4
  {
    AndZero(x / 4);
    assert x / 2 / 2 == x / 4;
    assert And(x / 2, 1) == x / 2 % 2;
  }

  lemma ShlValues(x: nat)
    ensures Shl(x, 2) == 4 * x && Shl(x, 4) == 16 * x && Shl(x, 8) == 0x100 * x
  {
    assert Shl(x, 1) == 2 * x;
    assert Shl(x, 3) == 8 * x;
    assert Shl(x, 5) == 32 * x;
    assert Shl(x, 7) == 128 * x;
  }

  lemma Shr8(x: nat)
    ensures Shr(x, 2) == x / 4 && Shr(x, 4) == x / 16 && Shr(x, 8) == x / 0x100
  {
    assert Shr(x, 1) == x / 2;
    assert Shr(x, 3) == x / 8;
    assert Shr(x, 5) == x / 32;
    assert Shr(x, 7) == x / 128;
  }

  lemma {:induction false} ShrShr(x: nat, i: nat, j: nat)
    ensures Shr(x, i + j) == Shr(Shr(x, i), j)
  {
    if j == 0 {
    } else {
      ShrShr(x, i, j - 1);
    }
  }

  /** Shifting right is dividing, for every shift the header uses. */
  lemma ShrValues(x: nat)
    ensures Shr(x, 2) == x / 4 && Shr(x, 4) == x / 16 && Shr(x, 8) == x / 0x100
    ensures Shr(x, 16) == x / 0x1_0000 && Shr(x, 24) == x / 0x100_0000 && Shr(x, 32) == x / 0x1_0000_0000
  {
    hide Shr;
    Shr8(x);
    ShrShr(x, 8, 8);
    ShrShr(x, 16, 8);
    ShrShr(x, 24, 8);
    Shr8(Shr(x, 8));
    Shr8(Shr(x, 16));
    Shr8(Shr(x, 24));
  }
}
