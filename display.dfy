/**
  * The read-only framebuffer view handed out by the interpreter
  * (chip8/src/display.rs): `width * height` one-bit pixels packed row-major,
  * eight to a byte, most significant bit first.
  */
module DisplayView {
  import opened Bits

  /** Whether bit `bit` (0 = least significant) of a framebuffer byte is set: `byte & (1 << bit) != 0`. */
  predicate PixelBit(byte: bv8, bit: nat)
    requires bit < 8
  {
    byte & (1 << bit) != 0
  }

  /** A borrowed framebuffer together with its dimensions in pixels. */
  datatype Display = Display(data: seq<bv8>, width: nat, height: nat)
  {
    /** The length check `Display::new` asserts, and the `usize` bound on `width * height + 7`. */
    predicate Valid() {
      width * height + 7 <= USIZE_MAX && (width * height + 7) / 8 == |data|
    }

    /**
      * Pixel (column `j`, row `i`): off outside the display; inside it, the
      * bit `7 - p % 8` of byte `p / 8`, where `p = i * width + j`, and that
      * byte is always inside `data`.
      */
    function GetPixel(i: nat, j: nat): (r: bool)
      requires Valid()
      ensures !(j < width && i < height) ==> !r
      ensures j < width && i < height ==>
                (i * width + j) / 8 < |data| &&
                r == PixelBit(data[(i * width + j) / 8], 7 - (i * width + j) % 8)
    {
      if !(j < width && i < height) then false
      else
        var pixel := i * width + j;
        PixelIndexInRange(width, height, i, j);
        var byte := pixel / 8;
        var bit := 7 - pixel % 8;
        PixelBit(data[byte], bit)
    }
  }

  /** `Display::new`: panics unless the data holds exactly `ceil(width * height / 8)` bytes. */
  function New(data: seq<bv8>, width: nat, height: nat): (d: Display)
    requires width * height + 7 <= USIZE_MAX
    requires (width * height + 7) / 8 == |data|
    ensures d.Valid()
    ensures d.data == data && d.width == width && d.height == height
  {
    Display(data, width, height)
  }

  /** Every pixel inside a `width` by `height` display lies in the first `ceil(width * height / 8)` bytes. */
  lemma {:induction false} PixelIndexInRange(width: nat, height: nat, i: nat, j: nat)
    requires i < height && j < width
    ensures i * width + j < width * height
    ensures (i * width + j) / 8 < (width * height + 7) / 8
  {
    calc {
      i * width + j;
    <  i * width + width;
    == (i + 1) * width;
    <= { MulMono(i + 1, height, width); } height * width;
    }
  }

  /** Multiplication by a natural number is monotone. */
  lemma {:induction false} MulMono(a: nat, b: nat, c: nat)
    requires a <= b
    ensures a * c <= b * c
  {
  }

  /** On an 8 by 8 display row `i` is byte `i`, and column `j` is bit `7 - j` of it. */
  lemma EightByEight(data: seq<bv8>, i: nat, j: nat)
    requires |data| == 8 && i < 8 && j < 8
    ensures New(data, 8, 8).GetPixel(i, j) == PixelBit(data[i], 7 - j)
  {
    assert (i * 8 + j) / 8 == i && (i * 8 + j) % 8 == j;
  }

  /**
    * The interpreter's 64 by 32 view reads pixel (column `j`, row `i`) at the
    * very byte and bit that `get_display_bit` gives the draw instruction.
    */
  lemma ReaderMatchesWriter(d: Display, i: nat, j: nat)
    requires d.Valid() && d.width == 64 && d.height == 32
    requires i < 32 && j < 64
    ensures GetDisplayBit(j, i, 64).0 < |d.data| && GetDisplayBit(j, i, 64).1 < 8
    ensures d.GetPixel(i, j) == PixelBit(d.data[GetDisplayBit(j, i, 64).0], GetDisplayBit(j, i, 64).1)
  {
    var (byte, bit) := GetDisplayBit(j, i, 64);
    assert (byte, bit) == ((i * 64 + j) / 8, 7 - (i * 64 + j) % 8);
  }
}
