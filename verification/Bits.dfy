/** The bit operations of machine words on natural numbers, and when they are arithmetic with powers of two. */
module Bits {
  function Pow2(k: nat): (p: nat)
    ensures p > 0
  {
    if k == 0 then 1 else 2 * Pow2(k - 1)
  }

  function Or(a: nat, b: nat): nat
    decreases a + b
  {
    if a == 0 && b == 0 then 0 else 2 * Or(a / 2, b / 2) + if a % 2 == 1 || b % 2 == 1 then 1 else 0
  }

  function And(a: nat, b: nat): nat {
    if a == 0 || b == 0 then 0 else 2 * And(a / 2, b / 2) + if a % 2 == 1 && b % 2 == 1 then 1 else 0
  }

  /** Shifts of a 64-bit word; bits that leave it on the left are lost. */
  function ShiftLeft(a: nat, k: nat): nat {
    (a * Pow2(k)) % 0x1_0000_0000_0000_0000
  }

  function ShiftRight(a: nat, k: nat): nat
    decreases k
  {
    if k == 0 then a else ShiftRight(a / 2, k - 1)
  }

  lemma {:induction false} PowersMultiply(a: nat, b: nat)
    ensures Pow2(a + b) == Pow2(a) * Pow2(b)
  {
    if a > 0 {
      PowersMultiply(a - 1, b);
      assert Pow2(a) * Pow2(b) == 2 * (Pow2(a - 1) * Pow2(b));
    }
  }

  lemma PowersOfTwo()
    ensures Pow2(32) == 0x1_0000_0000 && Pow2(64) == 0x1_0000_0000_0000_0000
  {
    assert Pow2(0) == 1 && Pow2(1) == 2 && Pow2(2) == 4 && Pow2(3) == 8 && Pow2(4) == 16;
    PowersMultiply(4, 4);
    PowersMultiply(8, 8);
    PowersMultiply(16, 16);
    PowersMultiply(32, 32);
  }

  lemma {:induction false} OrWithZero(a: nat)
    ensures Or(a, 0) == a
  {
    if a > 0 {
      OrWithZero(a / 2);
    }
  }

  /** Or-ing numbers whose bits do not overlap is adding them. */
  lemma {:induction false} OrIsSum(high: nat, low: nat, k: nat)
    requires low < Pow2(k)
    ensures Or(high * Pow2(k), low) == high * Pow2(k) + low
    decreases k
  {
    if k == 0 {
      OrWithZero(high);
    } else {
      Regroup(high, Pow2(k - 1));
      OrIsSum(high, low / 2, k - 1);
    }
  }

  lemma OrOfHalves(high: nat, low: nat, k: nat)
    requires low < Pow2(k) && high * Pow2(k) < 0x1_0000_0000_0000_0000
    ensures Or(ShiftLeft(high, k), low) == high * Pow2(k) + low
  {
    OrIsSum(high, low, k);
    NothingLost(high * Pow2(k));
  }

  lemma NothingLost(a: nat)
    requires a < 0x1_0000_0000_0000_0000
    ensures a % 0x1_0000_0000_0000_0000 == a
  {
  }

  /** Masking with k ones keeps the lower k bits. */
  lemma {:induction false} AndLowBits(high: nat, low: nat, k: nat)
    requires low < Pow2(k)
    ensures And(high * Pow2(k) + low, Pow2(k) - 1) == low
    decreases k
  {
    if k > 0 {
      var p := Pow2(k - 1);
      Regroup(high, p);
      assert (high * Pow2(k) + low) / 2 == high * p + low / 2;
      AndLowBits(high, low / 2, k - 1);
      assert (Pow2(k) - 1) / 2 == p - 1 && (Pow2(k) - 1) % 2 == 1;
    }
  }

  lemma LowerHalf(high: nat, low: nat)
    requires low < 0x1_0000_0000
    ensures And(high * 0x1_0000_0000 + low, 0xFFFF_FFFF) == low
  {
    PowersOfTwo();
    AndLowBits(high, low, 32);
  }

  lemma AllBits(a: nat)
    requires a < 0x1_0000_0000_0000_0000
    ensures And(a, 0xFFFF_FFFF_FFFF_FFFF) == a
  {
    PowersOfTwo();
    AndLowBits(0, a, 64);
  }

  lemma AndWithEven(a: nat, m: nat)
    ensures And(a, 2 * m) == 2 * And(a / 2, m)
  {
  }

  /** Masking the bits above the lower k is masking the shifted number. */
  lemma {:induction false} AndHighBits(a: nat, mask: nat, k: nat)
    ensures And(a, mask * Pow2(k)) == And(ShiftRight(a, k), mask) * Pow2(k)
    decreases k
  {
    if k > 0 {
      AndHighBits(a / 2, mask, k - 1);
      AndWithEven(a, mask * Pow2(k - 1));
      Regroup(mask, Pow2(k - 1));
      Regroup(And(ShiftRight(a, k), mask), Pow2(k - 1));
    }
  }

  /** Shifting right drops the lower k bits. */
  lemma {:induction false} ShiftDrops(high: nat, low: nat, k: nat)
    requires low < Pow2(k)
    ensures ShiftRight(high * Pow2(k) + low, k) == high
    decreases k
  {
    if k > 0 {
      Regroup(high, Pow2(k - 1));
      assert (high * Pow2(k) + low) / 2 == high * Pow2(k - 1) + low / 2;
      ShiftDrops(high, low / 2, k - 1);
    }
  }

  /** Masking above the lower k bits leaves the masked upper part in its place. */
  lemma HighBitsOfSum(high: nat, low: nat, mask: nat, k: nat)
    requires low < Pow2(k)
    ensures And(high * Pow2(k) + low, mask * Pow2(k)) == And(high, mask) * Pow2(k)
  {
    AndHighBits(high * Pow2(k) + low, mask, k);
    ShiftDrops(high, low, k);
  }

  lemma UpperHalf(high: nat, low: nat)
    requires high < 0x1_0000_0000 && low < 0x1_0000_0000
    ensures ShiftRight(And(high * 0x1_0000_0000 + low, 0xFFFF_FFFF_0000_0000), 32) == high
  {
    PowersOfTwo();
    AndLowBits(0, high, 32);
    HighBitsOfSum(high, low, 0xFFFF_FFFF, 32);
    ShiftDrops(high, 0, 32);
  }

  lemma Regroup(x: nat, p: nat)
    ensures x * (2 * p) == 2 * (x * p)
  {
  }
}
