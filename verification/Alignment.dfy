/** Power-of-two alignment by masks over 64-bit sizes. */
module Alignment {
  import opened Words
  import opened Divisions
  import opened Bits

  const WORD_BITS: nat := 64

  /** `alignment` has a single bit set: what every function here asserts of its callers. */
  ghost predicate SingleBit(alignment: nat) {
    exists k: nat :: k < WORD_BITS && alignment == Pow2(k)
  }

  /** The complement of a mask within a 64-bit word. */
  function Not64(mask: u64): u64 {
    U64_LIMIT - 1 - mask
  }

  function IsAligned(value: u64, alignment: u64): bool
    requires alignment > 0
  {
    And(value, alignment - 1) == 0
  }

  function AlignDown(value: u64, alignment: u64): u64
    requires alignment > 0
  {
    And(value, Not64(alignment - 1))
  }

  function AlignUp(value: u64, alignment: u64): u64
    requires alignment > 0 && value <= U64_LIMIT - alignment
  {
    var mask: u64 := alignment - 1;
    And(value + mask, Not64(mask))
  }

  function CheckedAlignUp(value: u64, alignment: u64): Option<u64>
    requires alignment > 0
  {
    var mask: u64 := alignment - 1;
    if value > U64_LIMIT - 1 - mask then None
    else Some(And(value + mask, Not64(mask)))
  }

  /** `a` is the smallest multiple of `alignment` that is not below `value`. */
  predicate LeastAligned(a: int, value: int, alignment: nat)
    requires alignment > 0
  {
    a % alignment == 0 && value <= a < value + alignment
  }

  lemma LeastAlignedUnique(a: int, b: int, value: int, alignment: nat)
    requires alignment > 0 && LeastAligned(a, value, alignment) && LeastAligned(b, value, alignment)
    ensures a == b
  {
    var qa, qb := a / alignment, b / alignment;
    assert a == qa * alignment && b == qb * alignment;
    assert a - b == (qa - qb) * alignment;
    ProductBound(qa - qb, alignment);
  }

  lemma WordIsPow2()
    ensures U64_LIMIT == Pow2(WORD_BITS)
  {
    assert Pow2(8) == 0x100;
    PowAdd(8, 8);
    assert Pow2(16) == 0x1_0000;
    PowAdd(16, 16);
    assert Pow2(32) == 0x1_0000_0000;
    PowAdd(32, 32);
  }

  lemma MaskDownBy(value: u64, k: nat, q: nat, r: nat)
    requires k < WORD_BITS && r < Pow2(k) && value == q * Pow2(k) + r && Pow2(k) < U64_LIMIT
    ensures And(value, Not64(Pow2(k) - 1)) == q * Pow2(k)
  {
    WordIsPow2();
    AndHighMask(value, k, WORD_BITS, q, r);
  }

  lemma MaskDown(value: u64, alignment: u64)
    requires alignment > 0 && SingleBit(alignment)
    ensures And(value, Not64(alignment - 1)) == value - value % alignment
  {
    var k: nat :| k < WORD_BITS && alignment == Pow2(k);
    MaskDownBy(value, k, value / alignment, value % alignment);
  }

  lemma IsAlignedMeans(value: u64, alignment: u64)
    requires alignment > 0 && SingleBit(alignment)
    ensures IsAligned(value, alignment) <==> value % alignment == 0
  {
    var k: nat :| k < WORD_BITS && alignment == Pow2(k);
    AndLowMask(value, k);
  }

  /** Rounding down by mask gives the largest multiple that is not above the value. */
  lemma AlignDownMeans(value: u64, alignment: u64)
    requires alignment > 0 && SingleBit(alignment)
    ensures LeastAligned(AlignDown(value, alignment), value - alignment + 1, alignment)
  {
    MaskDown(value, alignment);
    RemoveRemainder(value, alignment);
  }

  lemma RemoveRemainder(x: nat, c: nat)
    requires 0 < c
    ensures (x - x % c) % c == 0
  {
    assert x - x % c == (x / c) * c + 0;
    DivModUnique(x - x % c, x / c, 0, c);
  }

  lemma AlignUpMeans(value: u64, alignment: u64)
    requires alignment > 0 && SingleBit(alignment) && value <= U64_LIMIT - alignment
    ensures LeastAligned(AlignUp(value, alignment), value, alignment)
  {
    MaskDown(value + alignment - 1, alignment);
    RemoveRemainder(value + alignment - 1, alignment);
  }

  lemma WordIsMultiple(alignment: u64)
    requires alignment > 0 && SingleBit(alignment)
    ensures U64_LIMIT % alignment == 0
  {
    var k: nat :| k < WORD_BITS && alignment == Pow2(k);
    WordIsPow2();
    PowAdd(WORD_BITS - k, k);
    DivModUnique(U64_LIMIT, Pow2(WORD_BITS - k), 0, alignment);
  }

  /** The checked form answers exactly when the least multiple fits in a word, and then with it. */
  lemma CheckedAlignUpMeans(value: u64, alignment: u64, least: int)
    requires alignment > 0 && SingleBit(alignment) && LeastAligned(least, value, alignment)
    ensures CheckedAlignUp(value, alignment) == if least < U64_LIMIT then Some(least) else None
  {
    if value <= U64_LIMIT - alignment {
      AlignUpMeans(value, alignment);
      LeastAlignedUnique(least, AlignUp(value, alignment), value, alignment);
    } else {
      WordIsMultiple(alignment);
      LeastAlignedUnique(least, U64_LIMIT, value, alignment);
    }
  }
}
