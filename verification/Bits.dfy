/** Unsigned 64-bit words and their individual bits, written over unbounded integers so that
    the wrap-around of the transport's uint64 arithmetic is always explicit. */
module Bits {

  const TWO_64: nat := 0x1_0000_0000_0000_0000

  type u64 = x: int | 0 <= x < TWO_64

  function Pow2(k: nat): (p: nat)
    ensures p > 0
  {
    if k == 0 then 1 else 2 * Pow2(k - 1)
  }

  lemma Pow2Byte(k: nat)
    ensures Pow2(k + 8) == 256 * Pow2(k)
  {
    assert Pow2(k + 4) == 4 * Pow2(k + 2);
    assert Pow2(k + 6) == 4 * Pow2(k + 4);
  }

  lemma WordWidth()
    ensures Pow2(64) == TWO_64
  {
    Pow2Byte(0); Pow2Byte(8); Pow2Byte(16); Pow2Byte(24);
    Pow2Byte(32); Pow2Byte(40); Pow2Byte(48); Pow2Byte(56);
  }

  /** `word & (1 << k) != 0` */
  predicate BitAt(word: nat, k: nat)
    decreases k
  {
    if k == 0 then word % 2 == 1 else BitAt(word / 2, k - 1)
  }

  /** `word | (1 << k)` */
  function SetBit(word: nat, k: nat): nat
    decreases k
  {
    if k == 0 then word / 2 * 2 + 1 else SetBit(word / 2, k - 1) * 2 + word % 2
  }

  lemma {:induction false} ZeroHasNoBits(k: nat)
    ensures !BitAt(0, k)
  {
    if k > 0 {
      ZeroHasNoBits(k - 1);
    }
  }

  /** Setting a bit sets exactly that bit. */
  lemma {:induction false} BitAtSetBit(word: nat, k: nat, j: nat)
    ensures BitAt(SetBit(word, k), j) <==> j == k || BitAt(word, j)
    decreases k
  {
    HalfOfSetBit(word, k);
    if k > 0 && j > 0 {
      BitAtSetBit(word / 2, k - 1, j - 1);
    }
  }

  lemma HalfOfSetBit(word: nat, k: nat)
    ensures SetBit(word, k) / 2 == if k == 0 then word / 2 else SetBit(word / 2, k - 1)
    ensures SetBit(word, k) % 2 == if k == 0 then 1 else word % 2
  {
  }

  /** Setting a bit below `width` stays within `width` bits. */
  lemma {:induction false} SetBitBound(word: nat, k: nat, width: nat)
    requires word < Pow2(width) && k < width
    ensures SetBit(word, k) < Pow2(width)
    decreases k
  {
    if k > 0 {
      SetBitBound(word / 2, k - 1, width - 1);
    }
  }

  /** Bit `k` has the place value 2^k. */
  lemma {:induction false} BitMeaning(high: nat, bit: nat, low: nat, k: nat)
    requires bit <= 1 && low < Pow2(k)
    ensures BitAt((2 * high + bit) * Pow2(k) + low, k) <==> bit == 1
  {
    if k > 0 {
      var rest := (2 * high + bit) * Pow2(k - 1);
      assert (2 * high + bit) * Pow2(k) == 2 * rest;
      BitMeaning(high, bit, low / 2, k - 1);
      assert (2 * rest + low) / 2 == rest + low / 2;
    }
  }
}
