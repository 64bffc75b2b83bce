/** Fixed-width integers of the emulator and the bit operations the
    instruction set performs on them, written out over unbounded `int`. */
module Bits {

  /** An unsigned 8-bit value (Rust `u8`). */
  type Byte = x: int | 0 <= x < 0x100

  /** An unsigned 16-bit value (Rust `u16`). */
  type Word = x: int | 0 <= x < 0x1_0000

  /** `w + 1` on a `u16` with wrap-around at 0xFFFF. */
  function Inc(w: Word): (r: Word)
    ensures r == w + 1 || (w == 0xFFFF && r == 0)
  {
    if w == 0xFFFF then 0 else w + 1
  }

  /** The counter after a fetch is one more, modulo 2^16. */
  lemma IncIsModular(w: Word)
    ensures Inc(w) == (w + 1) % 0x1_0000
  {
  }

  /** The 16-bit value `(hi << 8) | lo`: its high byte is `hi`, its low byte `lo`. */
  function Concat(hi: Byte, lo: Byte): (r: Word)
    ensures r / 0x100 == hi && r % 0x100 == lo
  {
    hi * 0x100 + lo
  }

  /** `a.overflowing_add(b)` on `u8`: the wrapped sum and whether it wrapped. */
  function OverflowingAdd(a: Byte, b: Byte): (r: (Byte, bool))
    ensures r.0 + (if r.1 then 0x100 else 0) == a + b
    ensures r.1 <==> a + b > 0xFF
    ensures r.1 <==> r.0 < a
  {
    ((a + b) % 0x100, a + b > 0xFF)
  }

  /** Bit 0 of the status byte, `flags & 0x1 == 0x1`. */
  predicate Carry(flags: Byte)
  {
    flags % 2 == 1
  }

  /** `(flags & !1) | 1` when `c`, `flags & !1` otherwise: bit 0 becomes `c`,
      bits 1 to 7 are kept. */
  function WithCarry(flags: Byte, c: bool): (r: Byte)
    ensures Carry(r) == c
    ensures r / 2 == flags / 2
  {
    if c then flags - flags % 2 + 1 else flags - flags % 2
  }

  /** The second operand of add-with-carry, `(reg_b + flags) & 0x1` with the
      `u8` sum wrapping: the low bit of B exclusive-or the carry bit, which is
      never more than 1. */
  function AdcOperand(b: Byte, flags: Byte): (r: Byte)
    ensures r == 0 || r == 1
    ensures r == 1 <==> (b % 2 == 1) != Carry(flags)
  {
    ((b + flags) % 0x100) % 2
  }
}
