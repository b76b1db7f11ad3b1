/** 32-bit words as sets of bit numbers, for registers that are written under a mask. */
module Words {
  import opened Integers

  type Bits = set<nat>

  /** The bits of `n`, the lowest of them being number `i`. */
  function BitsFrom(n: nat, i: nat): (b: Bits)
    ensures forall k :: k in b ==> k >= i
  {
    if n == 0 then {} else (if n % 2 == 1 then {i} else {}) + BitsFrom(n / 2, i + 1)
  }

  function NumberFrom(b: Bits, i: nat, width: nat): (n: nat)
    decreases width
  {
    if width == 0 then 0 else (if i in b then 1 else 0) + 2 * NumberFrom(b, i + 1, width - 1)
  }

  function BitsOf(w: u32): Bits {
    BitsFrom(w, 0)
  }

  function NumberOf(b: Bits): u32 {
    Below(b, 0, 32);
    TwoTo32();
    NumberFrom(b, 0, 32)
  }

  function Pow2(n: nat): (p: nat)
    ensures p > 0
  {
    if n == 0 then 1 else 2 * Pow2(n - 1)
  }

  lemma FourMore(n: nat)
    ensures Pow2(n + 4) == 16 * Pow2(n)
  {
    assert Pow2(n + 1) == 2 * Pow2(n) && Pow2(n + 2) == 2 * Pow2(n + 1) && Pow2(n + 3) == 2 * Pow2(n + 2);
  }

  lemma TwoTo32()
    ensures Pow2(32) == 0x1_0000_0000
  {
    FourMore(0); FourMore(4); FourMore(8); FourMore(12); FourMore(16); FourMore(20); FourMore(24); FourMore(28);
  }

  lemma {:induction false} Below(b: Bits, i: nat, width: nat)
    ensures NumberFrom(b, i, width) < Pow2(width)
    decreases width
  {
    if width > 0 {
      Below(b, i + 1, width - 1);
    }
  }

  lemma {:induction false} NumberDependsOnBits(a: Bits, b: Bits, i: nat, width: nat)
    requires forall k :: k >= i ==> (k in a <==> k in b)
    ensures NumberFrom(a, i, width) == NumberFrom(b, i, width)
    decreases width
  {
    if width > 0 {
      NumberDependsOnBits(a, b, i + 1, width - 1);
    }
  }

  lemma {:induction false} NumberOfBitsFrom(n: nat, i: nat, width: nat)
    requires n < Pow2(width)
    ensures NumberFrom(BitsFrom(n, i), i, width) == n
    decreases width
  {
    if width > 0 {
      NumberOfBitsFrom(n / 2, i + 1, width - 1);
      NumberDependsOnBits(BitsFrom(n, i), BitsFrom(n / 2, i + 1), i + 1, width - 1);
    }
  }

  lemma NumberOfBits(w: u32)
    ensures NumberOf(BitsOf(w)) == w
  {
    TwoTo32();
    NumberOfBitsFrom(w, 0, 32);
  }

  predicate Aligned(w: u32) {
    w % 4 == 0
  }

  predicate AlignedBits(b: Bits) {
    0 !in b && 1 !in b
  }

  lemma AlignedEitherWay(w: u32, b: Bits)
    ensures AlignedBits(BitsOf(w)) <==> Aligned(w)
    ensures Aligned(NumberOf(b)) <==> AlignedBits(b)
  {
    hide BitsOf, BitsFrom, NumberFrom;
    LowBits(w);
    NumberUnfolds(b, 0, 32);
    NumberUnfolds(b, 1, 31);
    TwoLowBits(0 in b, 1 in b, NumberFrom(b, 2, 30));
  }

  lemma NumberUnfolds(b: Bits, i: nat, width: nat)
    requires width > 0
    ensures NumberFrom(b, i, width) == (if i in b then 1 else 0) + 2 * NumberFrom(b, i + 1, width - 1)
  {
  }

  lemma TwoLowBits(low: bool, high: bool, n: nat)
    ensures ((if low then 1 else 0) + 2 * ((if high then 1 else 0) + 2 * n)) % 4 == 0 <==> !low && !high
  {
  }

  lemma LowBits(w: u32)
    ensures 0 in BitsOf(w) <==> w % 2 == 1
    ensures 1 in BitsOf(w) <==> w / 2 % 2 == 1
  {
    if w > 0 {
      assert BitsFrom(w, 0) == (if w % 2 == 1 then {0} else {}) + BitsFrom(w / 2, 1);
      if w / 2 > 0 {
        assert BitsFrom(w / 2, 1) == (if w / 2 % 2 == 1 then {1} else {}) + BitsFrom(w / 2 / 2, 2);
      }
    }
  }

  /** `(before & !mask) | (value & mask)` */
  function Merge(before: Bits, value: Bits, mask: Bits): Bits {
    (before - mask) + (value * mask)
  }

  const ALL: Bits := set i: nat | i < 32

  /** `a + b` in 32 bits */
  function WrappingAdd(a: u32, b: int): u32 {
    (a + b) % 0x1_0000_0000
  }
}
