/**
  * The sprite-drawing loop of the `Draw` instruction
  * (chip8/src/processor.rs:264-284), as a function of the framebuffer, the
  * memory holding the sprite, the pointer `I` and the coordinates `Vx`, `Vy`.
  *
  * The two nested loops `for i in 0..nibble { for j in 0..8 { .. } }` are
  * numbered as one sequence of steps: step `k` is row `i = k / 8`, column
  * `j = k % 8`. Step `k` XORs sprite bit `7 - j` of `memory[I + i]` into the
  * framebuffer bit of pixel (`Vx + j`, `Vy + i`), both coordinates wrapping
  * at 256 as `u8` addition does. Each step is recorded as a `Flip`: the byte
  * it rewrites and the mask it XORs into that byte. The step erases when the
  * byte becomes smaller (`before > after`).
  */
module Sprite {
  import opened Bits

  /** Columns of the interpreter's screen, `DISPLAY_PIXELS_X`. */
  const DISPLAY_PIXELS_X: nat := 64

  /** One step of the loop: `display[byte] ^= mask`. */
  datatype Flip = Flip(byte: nat, mask: bv8)

  /** The wrapped pixel coordinates (column, row) touched by step `k`. */
  function Pixel(vx: U8, vy: U8, k: nat): (U8, U8)
  {
    ((vx + k % 8) % 256, (vy + k / 8) % 256)
  }

  /** The framebuffer (byte, bit) touched by step `k`. */
  function Target(vx: U8, vy: U8, k: nat): (r: (nat, nat))
    ensures r.1 <= 7
  {
    var (col, row) := Pixel(vx, vy, k);
    GetDisplayBit(col, row, DISPLAY_PIXELS_X)
  }

  /** Sprite bit of step `k`: bit `7 - k % 8` of sprite row `memory[pointer + k / 8]`, as 0 or 1. */
  function SpriteBit(memory: seq<U8>, pointer: nat, k: nat): bv8
    requires pointer + k / 8 < |memory|
  {
    ((memory[pointer + k / 8] as bv8) >> (7 - k % 8)) & 1
  }

  /**
    * The first `steps` steps index only inside memory and inside a
    * framebuffer of `displaySize` bytes; otherwise the loop panics.
    */
  predicate Fits(displaySize: nat, memory: seq<U8>, pointer: nat, vx: U8, vy: U8, steps: nat) {
    forall k: nat | k < steps :: pointer + k / 8 < |memory| && Target(vx, vy, k).0 < displaySize
  }

  /** The panic-freedom condition of drawing a whole sprite of `n` rows. */
  predicate DrawFits(displaySize: nat, memory: seq<U8>, pointer: nat, vx: U8, vy: U8, n: U8) {
    Fits(displaySize, memory, pointer, vx, vy, 8 * n)
  }

  /** The flip performed by step `k`: the sprite bit shifted to the pixel's bit of the pixel's byte. */
  function StepFlip(memory: seq<U8>, pointer: nat, vx: U8, vy: U8, k: nat): Flip
    requires pointer + k / 8 < |memory|
  {
    var (byte, bit) := Target(vx, vy, k);
    Flip(byte, SpriteBit(memory, pointer, k) << bit)
  }

  /** The flips of the first `k` steps, in loop order. */
  function Flips(memory: seq<U8>, pointer: nat, vx: U8, vy: U8, k: nat): (fs: seq<Flip>)
    requires k > 0 ==> pointer + (k - 1) / 8 < |memory|
    ensures |fs| == k
  {
    if k == 0 then []
    else Flips(memory, pointer, vx, vy, k - 1) + [StepFlip(memory, pointer, vx, vy, k - 1)]
  }

  /** Every flip rewrites a byte of a framebuffer of `size` bytes. */
  predicate InBounds(fs: seq<Flip>, size: nat) {
    forall i | 0 <= i < |fs| :: fs[i].byte < size
  }

  /** One flip: the byte XORed with the mask, every other byte kept. */
  function ApplyFlip(d: seq<bv8>, f: Flip): (r: seq<bv8>)
    requires f.byte < |d|
    ensures |r| == |d| && r[f.byte] == d[f.byte] ^ f.mask
    ensures forall b | 0 <= b < |d| && b != f.byte :: r[b] == d[b]
  {
    d[f.byte := d[f.byte] ^ f.mask]
  }

  /** The framebuffer after the flips, applied in order. */
  function Apply(d: seq<bv8>, fs: seq<Flip>): (r: seq<bv8>)
    requires InBounds(fs, |d|)
    ensures |r| == |d|
  {
    if fs == [] then d
    else ApplyFlip(Apply(d, fs[..|fs| - 1]), fs[|fs| - 1])
  }

  /** Whether a flip erases: the byte it rewrites becomes smaller. */
  predicate Erases(d: seq<bv8>, f: Flip)
    requires f.byte < |d|
  {
    d[f.byte] > d[f.byte] ^ f.mask
  }

  /** The `erase` accumulator after the flips. */
  predicate AnyErased(d: seq<bv8>, fs: seq<Flip>)
    requires InBounds(fs, |d|)
  {
    fs != [] &&
    (AnyErased(d, fs[..|fs| - 1]) || Erases(Apply(d, fs[..|fs| - 1]), fs[|fs| - 1]))
  }

  /** The steps of a sprite that fits yield flips inside the framebuffer. */
  lemma {:induction false} FlipsInBounds(displaySize: nat, memory: seq<U8>, pointer: nat, vx: U8, vy: U8, k: nat)
    requires Fits(displaySize, memory, pointer, vx, vy, k)
    ensures k > 0 ==> pointer + (k - 1) / 8 < |memory|
    ensures k > 0 ==> InBounds(Flips(memory, pointer, vx, vy, k), displaySize)
  {
    if k > 0 {
      assert pointer + (k - 1) / 8 < |memory| && Target(vx, vy, k - 1).0 < displaySize;
      if k > 1 {
        FlipsInBounds(displaySize, memory, pointer, vx, vy, k - 1);
      }
    }
  }

  /** XOR is associative on bytes. */
  lemma XorAssoc(a: bv8, b: bv8, c: bv8)
    ensures (a ^ b) ^ c == a ^ (b ^ c)
  {
  }

  /** XOR with the same byte twice is the identity. */
  lemma XorTwice(a: bv8, b: bv8)
    ensures (a ^ b) ^ b == a
  {
  }

  /** XOR with zero is the identity. */
  lemma XorZero(b: bv8)
    ensures b ^ 0 == b
  {
  }

  /**
    * Applying flips XORs every byte of the framebuffer with a mask that does
    * not depend on the framebuffer: the bytes the same flips produce from a
    * blank screen.
    */
  lemma {:induction false} ApplyIsXor(d: seq<bv8>, fs: seq<Flip>)
    requires InBounds(fs, |d|)
    ensures forall b | 0 <= b < |d| :: Apply(d, fs)[b] == d[b] ^ Apply(Filled(0, |d|), fs)[b]
  {
    var z := Filled(0, |d|);
    if fs == [] {
      forall b | 0 <= b < |d| ensures d[b] == d[b] ^ z[b] {
        XorZero(d[b]);
      }
    } else {
      var init := fs[..|fs| - 1];
      var f := fs[|fs| - 1];
      ApplyIsXor(d, init);
      var mask := Apply(z, init);
      forall b | 0 <= b < |d| ensures Apply(d, fs)[b] == d[b] ^ Apply(z, fs)[b] {
        if b == f.byte {
          XorAssoc(d[b], mask[b], f.mask);
        }
      }
    }
  }

  /** Applying the same flips twice restores the framebuffer. */
  lemma ApplyTwice(d: seq<bv8>, fs: seq<Flip>)
    requires InBounds(fs, |d|)
    ensures Apply(Apply(d, fs), fs) == d
  {
    var once := Apply(d, fs);
    var mask := Apply(Filled(0, |d|), fs);
    ApplyIsXor(d, fs);
    ApplyIsXor(once, fs);
    var twice := Apply(once, fs);
    forall b | 0 <= b < |d| ensures twice[b] == d[b] {
      XorTwice(d[b], mask[b]);
    }
  }

  /** The accumulator is set exactly when some flip erased a pixel of the framebuffer it met. */
  lemma {:induction false} AnyErasedIffSomeFlip(d: seq<bv8>, fs: seq<Flip>)
    requires InBounds(fs, |d|)
    ensures AnyErased(d, fs) <==> exists s | 0 <= s < |fs| :: ErasesAt(d, fs, s)
  {
    if fs != [] {
      var init := fs[..|fs| - 1];
      AnyErasedIffSomeFlip(d, init);
      if AnyErased(d, init) {
        var s :| 0 <= s < |init| && ErasesAt(d, init, s);
        ErasesAtPrefix(d, fs, init, s);
      } else if Erases(Apply(d, init), fs[|fs| - 1]) {
        assert ErasesAt(d, fs, |fs| - 1);
      } else {
        forall s | 0 <= s < |fs| ensures !ErasesAt(d, fs, s) {
          if s < |init| {
            ErasesAtPrefix(d, fs, init, s);
          }
        }
      }
    }
  }

  /** Whether flip `s` erased a pixel of the framebuffer left by the flips before it. */
  predicate ErasesAt(d: seq<bv8>, fs: seq<Flip>, s: nat)
    requires InBounds(fs, |d|) && s < |fs|
  {
    Erases(Apply(d, fs[..s]), fs[s])
  }

  /** Whether a flip erased is unaffected by the flips after it. */
  lemma ErasesAtPrefix(d: seq<bv8>, fs: seq<Flip>, init: seq<Flip>, s: nat)
    requires InBounds(fs, |d|) && fs != [] && init == fs[..|fs| - 1] && s < |init|
    ensures ErasesAt(d, init, s) == ErasesAt(d, fs, s)
  {
    assert init[..s] == fs[..s];
  }

  /** Flip `k` of the first `n` steps is the flip of step `k`. */
  lemma {:induction false} FlipsAt(memory: seq<U8>, pointer: nat, vx: U8, vy: U8, n: nat, k: nat)
    requires n > 0 ==> pointer + (n - 1) / 8 < |memory|
    requires k < n
    ensures pointer + k / 8 < |memory|
    ensures Flips(memory, pointer, vx, vy, n)[k] == StepFlip(memory, pointer, vx, vy, k)
  {
    if k < n - 1 {
      FlipsAt(memory, pointer, vx, vy, n - 1, k);
    }
  }

  /**
    * One more flip of a list: the framebuffer gets that flip, and the
    * accumulator records whether it erased.
    */
  lemma ApplyPrefixStep(d: seq<bv8>, fs: seq<Flip>, k: nat)
    requires InBounds(fs, |d|) && k < |fs|
    ensures InBounds(fs[..k], |d|) && InBounds(fs[..k + 1], |d|)
    ensures Apply(d, fs[..k + 1]) == ApplyFlip(Apply(d, fs[..k]), fs[k])
    ensures AnyErased(d, fs[..k + 1]) == (AnyErased(d, fs[..k]) || Erases(Apply(d, fs[..k]), fs[k]))
  {
    assert fs[..k + 1][..k] == fs[..k];
  }

  /** Step `8 * i + j` is row `i`, column `j` of the sprite. */
  lemma StepRowColumn(i: nat, j: nat)
    requires j < 8
    ensures (8 * i + j) / 8 == i && (8 * i + j) % 8 == j
  {
  }
}
