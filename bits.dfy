/** Machine words of the LC-3 virtual machine and its sign-extension helper
    (lc3.cpp:60-71). */
module Bits {

  /** A machine word. Every register and memory cell of the source is a
      `uint16_t`, so arithmetic on words wraps modulo 2^16, which is exactly
      what `bv16` arithmetic does. */
  type Word = bv16

  /** `uint16_t` addition: the sum modulo 2^16. All word additions of the
      model go through this function. */
  function WrappingAdd(a: Word, b: Word): Word {
    a + b
  }

  /** `uint16_t` bitwise and. */
  function BitAnd(a: Word, b: Word): Word {
    a & b
  }

  /** `uint16_t` bitwise complement. */
  function Complement(a: Word): Word {
    !a
  }

  /** Bit `i` of `w` (bit 0 is the least significant). */
  predicate BitSet(w: Word, i: Word)
    requires i < 16
  {
    (w >> i) & 1 == 1
  }

  /** The word whose bits 0 .. n-1 are set and whose other bits are clear. */
  function LowMask(n: Word): (m: Word)
    requires n <= 16
    ensures forall i: Word :: i < 16 ==> (BitSet(m, i) <==> i < n)
  {
    (1 << n) - 1
  }

  /** `sign_extended(x, bit_count)` exactly as lc3.cpp:65-71 writes it.
      The test on lc3.cpp:67 looks at bit `bit_count` of `x`, not at bit
      `bit_count - 1`; when that bit is set, every bit from `bit_count` up
      to 15 is set. `bit_count` is a C `int`; the shifts of the source are
      defined only for 0 .. 31, and for 16 .. 31 the shifted-out bit is
      always 0. */
  function SignExtended(x: Word, bitCount: Word): (r: Word)
    requires bitCount < 32
    // When the tested bit is clear, nothing changes.
    ensures (bitCount >= 16 || !BitSet(x, bitCount)) ==> r == x
  {
    if bitCount < 16 && BitSet(x, bitCount) then x | (0xFFFF << bitCount) else x
  }

  /** A field already masked to `bitCount` bits is returned unchanged. */
  lemma SignExtendedOfMaskedField(x: Word, bitCount: Word)
    requires bitCount < 16 && BitAnd(x, LowMask(bitCount)) == x
    ensures SignExtended(x, bitCount) == x
  {
  }

  /** The bits below `bitCount` are never altered. */
  lemma SignExtendedKeepsLowBits(x: Word, bitCount: Word)
    requires bitCount <= 16
    ensures BitAnd(SignExtended(x, bitCount), LowMask(bitCount)) == BitAnd(x, LowMask(bitCount))
  {
  }

  /** When the tested bit is set, bits `bitCount` .. 15 of the result are all 1. */
  lemma SignExtendedFillsHighBits(x: Word, bitCount: Word)
    requires bitCount < 16 && BitSet(x, bitCount)
    ensures forall i: Word :: bitCount <= i < 16 ==> BitSet(SignExtended(x, bitCount), i)
  {
    forall i: Word | bitCount <= i < 16
      ensures BitSet(SignExtended(x, bitCount), i)
    {
      SignExtendedFillsBit(x, bitCount, i);
    }
  }

  lemma SignExtendedFillsBit(x: Word, bitCount: Word, i: Word)
    requires bitCount <= i < 16 && BitSet(x, bitCount)
    ensures BitSet(SignExtended(x, bitCount), i)
  {
  }

  /** Every call site of the source passes a field already masked to the
      bit count it passes (lc3.cpp:120, 143, 172, 195: `instr & 0x1F` with
      5 and `instr & 0x1FF` with 9), so the tested bit is always 0 and no
      extension ever happens. */
  lemma SignExtendedCallSitesAreIdentity(instr: Word)
    ensures SignExtended(instr & 0x1F, 5) == instr & 0x1F
    ensures SignExtended(instr & 0x1FF, 9) == instr & 0x1FF
  {
  }

  /** The all-ones 5- and 9-bit fields, which the instruction set reads as
      -1, come back as +31 and +511: the bit the ISA treats as the sign bit
      (bit `bitCount - 1`) is not the one that is tested. */
  lemma SignExtendedOfAllOnesField()
    ensures SignExtended(0x1F, 5) == 0x001F
    ensures SignExtended(0x1FF, 9) == 0x01FF
    ensures BitSet(0x1F, 4) && BitSet(0x1FF, 8)
  {
  }
}
