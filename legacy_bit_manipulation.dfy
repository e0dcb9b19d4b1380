/**
  * The older copy of the nibble and address helpers kept beside the legacy
  * `Chip8` holder (src/chip8/bit_manipulation.rs). Each function is proved to
  * agree with the interpreter's copy in module Bits on every input.
  */
module LegacyBits {
  import Bits

  /** Splits a byte into its high and its low nibble. */
  function GetNibbles(b: bv8): (r: (bv8, bv8))
    ensures r.0 < 16 && r.1 < 16
    ensures r.0 * 16 + r.1 == b
    ensures r == Bits.GetNibbles(b)
  {
    (b >> 4, b & 0xF)
  }

  /** Combines the low nibble of `b1` and all of `b2` into a 12-bit address. */
  function MakeAddr(b1: bv8, b2: bv8): (r: bv16)
    ensures r < 0x1000
    ensures r & 0xFF == b2 as bv16
    ensures r >> 8 == (b1 & 0xF) as bv16
    ensures r == Bits.MakeAddr(b1, b2)
  {
    (((b1 & 0xF) as bv16) << 8) | (b2 as bv16)
  }
}
