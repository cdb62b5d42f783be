/**
 The device side of a split virtqueue (VIRTIO 1.1, section 2.6): 16-bit indices
 that run over power-of-two rings. Ghost histories say what the driver offered
 and what the device handed back.
 */
module Virtqueue {
  import opened Division

  const INDEX_MODULUS := 0x1_0000

  // -------------------------------------------------------------- ring sizes

  function BitAnd(a: nat, b: nat): nat {
    if a == 0 || b == 0 then 0
    else 2 * BitAnd(a / 2, b / 2) + if a % 2 == 1 && b % 2 == 1 then 1 else 0
  }

  /** The sizes the device accepts for a ring. */
  predicate SizeAccepted(num: nat) { 0 < num <= 32768 && BitAnd(num, num - 1) == 0 }

  lemma SizeBounds(num: nat)
    requires SizeAccepted(num)
    ensures 0 < num < INDEX_MODULUS
  {
  }

  predicate PowerOfTwo(n: nat) { n == 1 || (n > 1 && n % 2 == 0 && PowerOfTwo(n / 2)) }

  lemma {:induction false} AndItself(n: nat)
    ensures BitAnd(n, n) == n
  {
    if n > 0 { AndItself(n / 2); }
  }

  /** The bit test n & (n-1) == 0 finds exactly the powers of two. */
  lemma {:induction false} BitTest(n: nat)
    requires 0 < n
    ensures BitAnd(n, n - 1) == 0 <==> PowerOfTwo(n)
  {
    if n % 2 == 1 {
      AndItself(n / 2);
      assert (n - 1) / 2 == n / 2;
    } else {
      BitTest(n / 2);
      assert (n - 1) / 2 == n / 2 - 1;
    }
  }

  function Pow2(k: nat): nat { if k == 0 then 1 else 2 * Pow2(k - 1) }

  lemma {:induction false} PowersDivide(n: nat, k: nat) returns (q: nat)
    requires PowerOfTwo(n) && n <= Pow2(k)
    ensures q * n == Pow2(k)
  {
    if n == 1 {
      q := Pow2(k);
    } else {
      q := PowersDivide(n / 2, k - 1);
      assert q * n == 2 * (q * (n / 2));
    }
  }

  /** An accepted size divides the number of index values. */
  lemma SizeDivides(num: nat) returns (q: nat)
    requires SizeAccepted(num)
    ensures q * num == INDEX_MODULUS
  {
    BitTest(num);
    assert Pow2(4) == 16 && Pow2(8) == 16 * Pow2(4) && Pow2(12) == 16 * Pow2(8) && Pow2(16) == 16 * Pow2(12);
    q := PowersDivide(num, 16);
  }

  /** So reducing an index to 16 bits first does not change the slots counted from it. */
  lemma SlotOfIndex(num: nat, x: nat, slot: nat)
    requires SizeAccepted(num)
    ensures (x % INDEX_MODULUS + slot) % num == (x + slot) % num
  {
    var q := SizeDivides(num);
    var w, r := x / INDEX_MODULUS, x % INDEX_MODULUS;
    MultipleOfMultiple(w, INDEX_MODULUS, q, num);
    RemainderShift(w * q, num, r + slot);
  }

  /** The slot after the one of index i is the one of the next 16-bit index. */
  predicate NextSlot(num: nat, i: nat)
    requires 0 < num
  {
    (i + 1) % INDEX_MODULUS % num == (i % num + 1) % num
  }

  lemma SlotSuccessor(num: nat, i: nat)
    requires 0 < num
    ensures (i % num + 1) % num == (i + 1) % num
  {
    assert i == i / num * num + i % num;
    RemainderShift(i / num, num, i % num + 1);
  }

  /** Slots stay consecutive across the wrap of the index exactly for sizes that divide the number of index values. */
  lemma ConsecutiveIff(num: nat)
    requires 0 < num
    ensures (forall i: nat | i < INDEX_MODULUS :: NextSlot(num, i)) <==> INDEX_MODULUS % num == 0
  {
    assert 0 % num == 0 by { QuotientIs(0, num, 0, 0); }
    forall i: nat | i < INDEX_MODULUS
      ensures NextSlot(num, i) <==> (i + 1 < INDEX_MODULUS || INDEX_MODULUS % num == 0)
    {
      SlotSuccessor(num, i);
    }
    assert NextSlot(num, INDEX_MODULUS - 1) <==> INDEX_MODULUS % num == 0;
  }
}
