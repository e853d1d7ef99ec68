/** Bits of unsigned words: what the shift-and-mask expressions of the hardware code compute. */
module Bits {
  /** Bit k of x: (x >> k) & 1. */
  function Bit(x: nat, k: nat): (b: int)
    ensures b == 0 || b == 1
  {
    if k == 0 then x % 2 else Bit(x / 2, k - 1)
  }

  ghost predicate AreBits(bits: seq<int>) {
    forall i :: 0 <= i < |bits| ==> bits[i] == 0 || bits[i] == 1
  }

  /** The word with the given bits, least significant first. */
  function FromBits(bits: seq<int>): (x: nat)
    requires AreBits(bits)
  {
    if bits == [] then 0 else bits[0] + 2 * FromBits(bits[1..])
  }

  function Pow2(n: nat): (p: nat)
    ensures p >= 1
  {
    if n == 0 then 1 else 2 * Pow2(n - 1)
  }

  lemma {:induction false} BitOfFromBits(bits: seq<int>, k: nat)
    requires AreBits(bits) && k < |bits|
    ensures Bit(FromBits(bits), k) == bits[k]
  {
    if k > 0 {
      assert FromBits(bits) / 2 == FromBits(bits[1..]);
      BitOfFromBits(bits[1..], k - 1);
    }
  }

  lemma {:induction false} FromBitsBound(bits: seq<int>)
    requires AreBits(bits)
    ensures FromBits(bits) < Pow2(|bits|)
  {
    if bits != [] {
      FromBitsBound(bits[1..]);
    }
  }

  lemma {:induction false} ByteBound(bits: seq<int>)
    requires AreBits(bits) && |bits| == 8
    ensures FromBits(bits) < 256
  {
    FromBitsBound(bits);
    assert Pow2(8) == 256;
  }

  /** x | (1 << k). */
  function SetBit(x: nat, k: nat): nat {
    if k == 0 then x / 2 * 2 + 1 else 2 * SetBit(x / 2, k - 1) + x % 2
  }

  /** x & ~(1 << k). */
  function ClearBit(x: nat, k: nat): nat {
    if k == 0 then x / 2 * 2 else 2 * ClearBit(x / 2, k - 1) + x % 2
  }

  lemma {:induction false} BitOfSetBit(x: nat, k: nat, j: nat)
    ensures Bit(SetBit(x, k), j) == if j == k then 1 else Bit(x, j)
  {
    if k > 0 && j > 0 {
      assert SetBit(x, k) / 2 == SetBit(x / 2, k - 1);
      BitOfSetBit(x / 2, k - 1, j - 1);
    }
  }

  lemma {:induction false} BitOfClearBit(x: nat, k: nat, j: nat)
    ensures Bit(ClearBit(x, k), j) == if j == k then 0 else Bit(x, j)
  {
    if k > 0 && j > 0 {
      assert ClearBit(x, k) / 2 == ClearBit(x / 2, k - 1);
      BitOfClearBit(x / 2, k - 1, j - 1);
    }
  }

  lemma EvenBound(x: nat, p: nat)
    requires x < 2 * p
    ensures x / 2 * 2 + 1 < 2 * p && x / 2 < p
  {
  }

  lemma {:induction false} SetClearBound(x: nat, k: nat, n: nat)
    requires x < Pow2(n) && k < n
    ensures SetBit(x, k) < Pow2(n) && ClearBit(x, k) < Pow2(n)
  {
    if k == 0 {
      EvenBound(x, Pow2(n - 1));
    } else {
      SetClearBound(x / 2, k - 1, n - 1);
      assert SetBit(x, k) == 2 * SetBit(x / 2, k - 1) + x % 2;
      assert ClearBit(x, k) == 2 * ClearBit(x / 2, k - 1) + x % 2;
    }
  }

  lemma {:induction false} BitOfZero(k: nat)
    ensures Bit(0, k) == 0
  {
    if k > 0 {
      BitOfZero(k - 1);
    }
  }
}
