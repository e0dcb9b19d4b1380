/**
  * Nibble, address and framebuffer-bit helpers of the interpreter
  * (chip8/src/bit_manipulation.rs). A `u8` handled as a bit pattern is a
  * `bv8` and the `u16` result of `make_addr` a `bv16`; a `u8` used as a
  * number is a `U8`; `usize` arithmetic is on unbounded integers, with the
  * 64-bit overflow that would panic excluded by a precondition.
  */
module Bits {

  /** A Rust `u8` used as a number (registers, memory bytes, timers, coordinates). */
  type U8 = n: int | 0 <= n < 0x100

  /** A Rust `u16` used as a number (addresses, program counter, pointer). */
  type U16 = n: int | 0 <= n < 0x1_0000

  /** Largest `usize` on the 64-bit targets the interpreter is built for. */
  const USIZE_MAX: int := 0xFFFF_FFFF_FFFF_FFFF

  /** `n` copies of `x`, as an array literal `[x; n]` or a `fill` makes them. */
  function Filled<T>(x: T, n: nat): (z: seq<T>)
    ensures |z| == n && forall i | 0 <= i < n :: z[i] == x
  {
    seq(n, _ => x)
  }

  /** Splits a byte into its high and its low nibble. */
  function GetNibbles(b: bv8): (r: (bv8, bv8))
    ensures r.0 < 16 && r.1 < 16
    ensures r.0 * 16 + r.1 == b
  {
    (b >> 4, b & 0xF)
  }

  /** The two nibbles returned by GetNibbles are the only pair of nibbles that rebuild the byte. */
  lemma NibblesUnique(b: bv8, hi: bv8, lo: bv8)
    requires hi < 16 && lo < 16 && hi * 16 + lo == b
    ensures GetNibbles(b) == (hi, lo)
  {
    var r := GetNibbles(b);
    assert (hi * 16 + lo) >> 4 == hi && (hi * 16 + lo) & 0xF == lo;
  }

  /** Combines the low nibble of `b1` and all of `b2` into a 12-bit address. */
  function MakeAddr(b1: bv8, b2: bv8): (r: bv16)
    ensures r < 0x1000
    ensures r & 0xFF == b2 as bv16
    ensures r >> 8 == (b1 & 0xF) as bv16
    ensures r as int == (b1 & 0xF) as int * 256 + b2 as int
  {
    (((b1 & 0xF) as bv16) << 8) | (b2 as bv16)
  }

  /** The high nibble of the first byte never reaches the address. */
  lemma MakeAddrIgnoresHighNibble(b1: bv8, c1: bv8, b2: bv8)
    requires b1 & 0xF == c1 & 0xF
    ensures MakeAddr(b1, b2) == MakeAddr(c1, b2)
  {
    var r, s := MakeAddr(b1, b2), MakeAddr(c1, b2);
    assert r as int == s as int;
  }

  /**
    * The (byte index, bit index) of pixel (x, y) in a framebuffer `rowSize`
    * pixels wide, packed row-major, eight pixels per byte, most significant
    * bit first. The `usize` computation panics on overflow, hence the
    * precondition.
    */
  function GetDisplayBit(x: U8, y: U8, rowSize: nat): (r: (nat, nat))
    requires rowSize * y + x <= USIZE_MAX
    ensures r.1 <= 7
    ensures 8 * r.0 + (7 - r.1) == rowSize * y + x
  {
    var bit := rowSize * y + x;
    (bit / 8, 7 - bit % 8)
  }

  /** On the interpreter's 64x32 screen every visible pixel lies in the 256-byte framebuffer. */
  lemma {:induction false} DisplayBitInFramebuffer(x: U8, y: U8)
    requires x < 64 && y < 32
    ensures GetDisplayBit(x, y, 64).0 < 256
    ensures GetDisplayBit(x, y, 64).0 == y * 8 + x / 8
  {
    var r := GetDisplayBit(x, y, 64);
    assert 8 * r.0 + (7 - r.1) == 64 * y + x;
  }

  /** `a | b` on two `u8` numbers. */
  function BitOr(a: U8, b: U8): U8 {
    ((a as bv8) | (b as bv8)) as int
  }

  /** `a & b` on two `u8` numbers. */
  function BitAnd(a: U8, b: U8): U8 {
    ((a as bv8) & (b as bv8)) as int
  }

  /** `a ^ b` on two `u8` numbers. */
  function BitXor(a: U8, b: U8): U8 {
    ((a as bv8) ^ (b as bv8)) as int
  }

  /** Masking twice with the same byte is masking once: `(a & b) & b == a & b`. */
  lemma BitAndIdempotent(a: U8, b: U8)
    ensures BitAnd(BitAnd(a, b), b) == BitAnd(a, b)
  {
    var bits := (a as bv8) & (b as bv8);
    BitAndOf(a, b, a as bv8, b as bv8);
    BitsRoundTrip(bits);
    BitAndOf(BitAnd(a, b), b, bits, b as bv8);
    AndAbsorbs(a as bv8, b as bv8);
  }

  /** `x & y` on numbers whose bits are known is the AND of those bits. */
  lemma BitAndOf(x: U8, y: U8, xBits: bv8, yBits: bv8)
    requires x as bv8 == xBits && y as bv8 == yBits
    ensures BitAnd(x, y) == (xBits & yBits) as int
  {
  }

  /** A byte's bits read as a number and back are the same bits. */
  lemma BitsRoundTrip(v: bv8)
    ensures v as int as bv8 == v
  {
  }

  /** The bit-level fact behind BitAndIdempotent. */
  lemma AndAbsorbs(a: bv8, b: bv8)
    ensures (a & b) & b == a & b
  {
  }
}
