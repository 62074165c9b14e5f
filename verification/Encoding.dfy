/** Bit-level facts: the branch word that patch_branch rewrites, and the overflow flag. */

module Encoding {
  import opened Code

  /** opcode(6) cond(4) offset(22); the offset is truncated to its field. */
  function EncodeB(opcode: bv32, cond: bv32, offset: bv32): bv32 {
    (opcode << 26) | ((cond & 0xF) << 22) | (offset & 0x3F_FFFF)
  }

  /** Keep opcode and condition, replace the offset field. */
  function PatchWord(word: bv32, offset: bv32): bv32 {
    (word & 0xFFC0_0000) | (offset & 0x3F_FFFF)
  }

  function Opcode(word: bv32): bv32 {
    (word >> 26) & 0x3F
  }

  function CondField(word: bv32): bv32 {
    (word >> 22) & 0xF
  }

  /** Sign extension of the 22-bit field to 32 bits. */
  function Offset22(word: bv32): bv32 {
    Extend(word & 0x3F_FFFF)
  }

  function Extend(field: bv32): bv32 {
    if field < 0x20_0000 then field else field | 0xFFC0_0000
  }

  /** An i32 distance in [-2^21, 2^21). */
  predicate Fits22(offset: bv32) {
    offset < 0x20_0000 || offset >= 0xFFE0_0000
  }

  /** Patching is re-encoding with another distance. */
  lemma PatchIsEncode(opcode: bv32, cond: bv32, before: bv32, offset: bv32)
    requires opcode < 0x40 && cond < 0x10
    ensures PatchWord(EncodeB(opcode, cond, before), offset) == EncodeB(opcode, cond, offset)
  {
  }

  /** An encoded branch decodes to its own opcode and condition, and to its own distance exactly
      when that distance fits 22 bits. */
  lemma EncodedDecodes(opcode: bv32, cond: bv32, offset: bv32)
    requires opcode < 0x40 && cond < 0x10
    ensures Opcode(EncodeB(opcode, cond, offset)) == opcode
    ensures CondField(EncodeB(opcode, cond, offset)) == cond
    ensures Offset22(EncodeB(opcode, cond, offset)) == offset <==> Fits22(offset)
  {
    hide Offset22, Fits22;
    assert Opcode(EncodeB(opcode, cond, offset)) == opcode by { EncodedHigh(opcode, cond, offset); }
    assert CondField(EncodeB(opcode, cond, offset)) == cond by { EncodedHigh(opcode, cond, offset); }
    EncodedOffset(opcode, cond, offset);
    FieldReads(offset);
  }

  lemma EncodedField(opcode: bv32, cond: bv32, offset: bv32)
    requires opcode < 0x40 && cond < 0x10
    ensures EncodeB(opcode, cond, offset) & 0x3F_FFFF == offset & 0x3F_FFFF
  {
  }

  lemma EncodedHigh(opcode: bv32, cond: bv32, offset: bv32)
    requires opcode < 0x40 && cond < 0x10
    ensures Opcode(EncodeB(opcode, cond, offset)) == opcode
    ensures CondField(EncodeB(opcode, cond, offset)) == cond
  {
  }

  lemma FieldReads(offset: bv32)
    ensures Offset22(offset) == offset <==> Fits22(offset)
  {
    FieldBits(offset);
  }

  lemma FieldBits(x: bv32)
    ensures (var f := x & 0x3F_FFFF; if f < 0x20_0000 then f else f | 0xFFC0_0000) == x <==> x < 0x20_0000 || x >= 0xFFE0_0000
  {
  }

  // ---- The distance as an integer ----

  function Bit(b: bv32, mask: bv32): nat {
    if b & mask == 0 then 0 else 1
  }

  /** The number with these 21 binary digits. */
  function Digits(f: bv32): nat {
    0x1 * Bit(f, 0x1) + 0x2 * Bit(f, 0x2) + 0x4 * Bit(f, 0x4) + 0x8 * Bit(f, 0x8) + 0x10 * Bit(f, 0x10)
    + 0x20 * Bit(f, 0x20) + 0x40 * Bit(f, 0x40) + 0x80 * Bit(f, 0x80) + 0x100 * Bit(f, 0x100) + 0x200 * Bit(f, 0x200)
    + 0x400 * Bit(f, 0x400) + 0x800 * Bit(f, 0x800) + 0x1000 * Bit(f, 0x1000) + 0x2000 * Bit(f, 0x2000) + 0x4000 * Bit(f, 0x4000)
    + 0x8000 * Bit(f, 0x8000) + 0x10000 * Bit(f, 0x10000) + 0x20000 * Bit(f, 0x20000) + 0x40000 * Bit(f, 0x40000) + 0x80000 * Bit(f, 0x80000)
    + 0x100000 * Bit(f, 0x100000)
  }

  /** A word read in two's complement: the digits below the field's sign, that sign, and those above. */
  function Distance(b: bv32): int {
    Digits(b & 0x1F_FFFF) + TWO21 * Bit(b, 0x20_0000) + TWO22 * (Digits(b >> 22) - 1024 * Bit(b, 0x8000_0000))
  }

  /** What a branch decodes to is its distance wrapped to 22 bits, as the compiler's model has it. */
  lemma EncodedDistance(opcode: bv32, cond: bv32, offset: bv32)
    requires opcode < 0x40 && cond < 0x10
    ensures Distance(Offset22(EncodeB(opcode, cond, offset))) == Wrap22(Distance(offset))
  {
    hide *;
    EncodedOffset(opcode, cond, offset);
    ExtendedDistance(offset);
    WrappedDistance(offset);
  }

  lemma WrappedDistance(x: bv32)
    ensures Wrap22(Distance(x)) == Digits(x & 0x1F_FFFF) + TWO21 * Bit(x, 0x20_0000) - TWO22 * Bit(x, 0x20_0000)
  {
    hide Digits, Bit, Wrap22;
    DigitsBound(x & 0x1F_FFFF);
    BitBound(x, 0x20_0000);
    FieldWraps(Digits(x & 0x1F_FFFF) + TWO21 * Bit(x, 0x20_0000), Digits(x >> 22) - 1024 * Bit(x, 0x8000_0000));
  }

  lemma EncodedOffset(opcode: bv32, cond: bv32, offset: bv32)
    requires opcode < 0x40 && cond < 0x10
    ensures Offset22(EncodeB(opcode, cond, offset)) == Offset22(offset)
  {
    hide EncodeB, Extend;
    EncodedField(opcode, cond, offset);
  }

  lemma FieldWraps(field: nat, high: int)
    requires field < TWO22
    ensures Wrap22(field + TWO22 * high) == if field < TWO21 then field else field - TWO22
  {
  }

  lemma DigitsBound(f: bv32)
    ensures Digits(f) < TWO21
  {
    hide Bit;
    forall mask: bv32
      ensures Bit(f, mask) <= 1
    {
      BitBound(f, mask);
    }
  }

  lemma BitBound(b: bv32, mask: bv32)
    ensures Bit(b, mask) <= 1
  {
  }

  /** Sign extension keeps the low digits; above the field stand copies of its sign. */
  lemma ExtendedDistance(x: bv32)
    ensures Distance(Offset22(x)) == Digits(x & 0x1F_FFFF) + TWO21 * Bit(x, 0x20_0000) - TWO22 * Bit(x, 0x20_0000)
  {
    AllOnes();
    hide Digits;
    if x & 0x20_0000 == 0 {
      Positive(x);
    } else {
      Negative(x);
    }
  }

  lemma AllOnes()
    ensures Digits(0) == 0 && Digits(0x3FF) == 1023
  {
  }

  lemma Positive(x: bv32)
    requires x & 0x20_0000 == 0
    ensures var y := Offset22(x);
      y & 0x1F_FFFF == x & 0x1F_FFFF && y & 0x20_0000 == 0 && y >> 22 == 0 && y & 0x8000_0000 == 0
  {
    FieldSign(x);
    assert Offset22(x) == x & 0x3F_FFFF;
  }

  lemma Negative(x: bv32)
    requires x & 0x20_0000 != 0
    ensures var y := Offset22(x);
      y & 0x1F_FFFF == x & 0x1F_FFFF && y & 0x20_0000 != 0 && y >> 22 == 0x3FF && y & 0x8000_0000 != 0
  {
    FieldSign(x);
    assert Offset22(x) == (x & 0x3F_FFFF) | 0xFFC0_0000;
  }

  lemma FieldSign(x: bv32)
    ensures x & 0x3F_FFFF < 0x20_0000 <==> x & 0x20_0000 == 0
  {
  }

  predicate Sign(x: bv64) {
    x >= 0x8000_0000_0000_0000
  }

  /** The overflow bit of a subtraction, and of an addition, in terms of signs. */
  lemma OverflowBits(a: bv64, b: bv64)
    ensures ((a ^ b) & (a ^ (a - b))) >> 63 != 0 <==> Sign(a) != Sign(b) && Sign(a) != Sign(a - b)
    ensures (!(a ^ b) & (a ^ (a + b))) >> 63 != 0 <==> Sign(a) == Sign(b) && Sign(a) != Sign(a + b)
  {
  }
}
