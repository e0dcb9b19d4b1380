# CHIP-8 interpreter and assembler, modelled in Dafny

This project models two parts of a Rust CHIP-8 toolchain and proves properties of the model.

**The interpreter.** A `Processor` holds:
- sixteen 8-bit registers V0 to VF, the pointer `I`, the program counter, a sixteen-entry call stack and its stack pointer;
- the delay and sound timers;
- a 64 by 32 one-bit framebuffer, packed eight pixels per byte;
- 4096 bytes of memory;
- the held keys, a latch that waits for a key press, and an exit flag.

`run_next_instruction` fetches the two bytes at the program counter, decodes them, moves the counter on by two and executes the instruction. Helpers split bytes into nibbles, build 12-bit addresses and locate a pixel's byte and bit. A `Display` view reads pixels back, and `key.rs` converts between key numbers and key masks. An older holder, `Chip8`, keeps only registers, memory, the timers and a key mask.

**The assembler.** It turns CHIP-8 assembly text into a byte image.
- The line parser (`parse.rs`):
  - strips comments that start with `;`, `//`, `#` or `@`;
  - splits words, dropping one trailing comma from each;
  - recognises `name:` labels and dispatches the twenty mnemonics case-insensitively, with exact operand counts;
  - parses number, address, byte, nibble and register literals with their range checks.
- `assemble` (`lib.rs`) runs four passes:
  1. a layout pass gives each statement its address and reports running past the end of memory;
  2. a label pass builds the label table and rejects empty or duplicate names;
  3. a resolution pass parses every statement against the complete table;
  4. the image pass concatenates each statement's bytes.

**How the model is built.**
- The pure code becomes functions on datatypes. The interpreter's semantics is the `Machine` datatype with the `Semantics` functions.
- The state-changing code becomes imperative Dafny.
  - The class `Engine.Processor` keeps its arrays and updates them in place. Each method is proved to leave the state that the matching `Semantics` function computes from the old state.
  - The loops of `get_line_words`, `try_from_line_words` and `keys_to_key_number` become methods with loop invariants.
  - So do the layout, label and resolution loops of `assemble`. Each is proved equal to a recursive specification function.
- The module `Listing` spells each instruction as the CHIP-8 instruction table writes it (`SUB Vx Vy`, `LD [I] Vx`, `DRW Vx Vy nibble`). It proves that the line parser reads every such listing back as exactly that instruction, which pins down which instruction each mnemonic builds.
- Where Rust would panic (an index out of range, an overflow in a debug build, a shift too wide), the model has a precondition.
- Executing the `Unknown` instruction, whose arm panics on purpose, is an error result instead.
- Errors the assembler reports as values are `Result` failures, with the same kinds and locations.

`LD B, Vx` stores the three decimal digits of the register *number* `x`, not of the register's value. The model keeps that, as the code does.

## Model

| member | source | states |
|---|---|---|
| Bits.GetNibbles | chip8/src/bit_manipulation.rs:1-3 | both halves are below 16 and `16 * high + low` rebuilds the byte |
| Bits.NibblesUnique | chip8/src/bit_manipulation.rs:1-3 | any pair of nibbles that rebuilds the byte is the pair returned |
| Bits.MakeAddr | chip8/src/bit_manipulation.rs:5-8 | the address is below 0x1000, its low byte is `byte2`, its high bits are the low nibble of `byte1`, and its value is `(byte1 & 0xF) * 256 + byte2` |
| Bits.MakeAddrIgnoresHighNibble | chip8/src/bit_manipulation.rs:5-8 | the high nibble of `byte1` never reaches the address |
| Bits.GetDisplayBit | chip8/src/bit_manipulation.rs:10-16 | the bit index is at most 7, and `8 * byte + (7 - bit)` is the pixel number `row_size * y + x`, so bits run most significant first |
| Bits.DisplayBitInFramebuffer | chip8/src/bit_manipulation.rs:10-16 | on the 64 by 32 screen every visible pixel is in byte `y * 8 + x / 8`, inside the 256-byte framebuffer |
| Bits.BitAndIdempotent | chip8/src/processor.rs:261-263 | masking twice with the same byte is masking once, so the random value of `RND` holds no bit outside its mask |
| LegacyBits.GetNibbles | src/chip8/bit_manipulation.rs:1-3 | the same nibble split, equal on every byte to the interpreter's `get_nibbles` |
| LegacyBits.MakeAddr | src/chip8/bit_manipulation.rs:5-8 | the same 12-bit address, equal on every input to the interpreter's `make_addr` |
| KeyMask.Key.Number | src/chip8/key.rs:2-19 | each key's digit is below 16 |
| KeyMask.Key.Mask | src/chip8/key.rs:2-19 | a key's discriminant `1 << n` is the mask `key_number_to_keys` gives its digit |
| KeyMask.KeyNumberToKeys | src/chip8/key.rs:23-29 | the mask is empty exactly when `x > 15`, and otherwise holds key `x` alone |
| KeyMask.KeysHasAnyKey | src/chip8/key.rs:31-33 | true exactly when some key is in both masks |
| KeyMask.FirstKeyFrom | src/chip8/key.rs:35-42 | the first held key at or after `i` with no held key before it, or 0 when no key from `i` on is held |
| KeyMask.KeysToKeyNumber | src/chip8/key.rs:35-42 | the lowest held key, which is in the mask and at most every held key; 0 for the empty mask |
| KeyMask.FindKeyNumber | src/chip8/key.rs:35-42 | the loop over the sixteen keys returns `KeysToKeyNumber` |
| KeyMask.KeysHasAnyKeySymmetric | src/chip8/key.rs:31-33 | sharing a key is symmetric |
| KeyMask.KeyNumberRoundTrip | chip8/src/test_key.rs:23-32 | key number to mask and back is the identity on 0 to 15 |
| KeyMask.KeyMasksMatchNumbers | src/chip8/key.rs:2-29 | each discriminant is the mask of its digit, and distinct keys have distinct digits |
| KeyMask.HeldIffSharesKey | src/chip8/key.rs:23-33 | key `v` is held exactly when the mask shares a key with the one-key mask of `v` |
| KeyMask.NewKeys | chip8/src/processor.rs:153 | `keys & !previous` lies in `keys`, is disjoint from `previous`, and together with `previous` covers `keys` |
| KeyMask.LowestNewKey | chip8/src/processor.rs:152-157 | the key number of the newly pressed keys is the lowest key that went down |
| DisplayView.Display.GetPixel | chip8/src/display.rs:17-26 | off outside the display; inside it, bit `7 - p % 8` of byte `p / 8` with `p = i * width + j`, and that byte exists |
| DisplayView.New | chip8/src/display.rs:8-15 | given data of exactly `ceil(width * height / 8)` bytes (the assertion of `new`), the view keeps its data and dimensions and is well formed |
| DisplayView.PixelIndexInRange | chip8/src/display.rs:17-26 | every pixel inside the display lies in the first `ceil(width * height / 8)` bytes |
| DisplayView.EightByEight | chip8/src/test_display.rs:3-13 | on an 8 by 8 view, row `i` is byte `i` and column `j` is bit `7 - j` |
| DisplayView.ReaderMatchesWriter | chip8/src/display.rs:22-25 | on a 64 by 32 view, `get_pixel` reads the very byte and bit of the framebuffer that `get_display_bit` gives the draw instruction for that pixel |
| Sprite.Target | chip8/src/processor.rs:272-274 | each draw step addresses a bit index of at most 7 |
| Sprite.Flips | chip8/src/processor.rs:266-282 | the first `k` steps of the two nested draw loops yield `k` flips |
| Sprite.ApplyFlip | chip8/src/processor.rs:275-277 | one step XORs its mask into its byte and keeps every other byte |
| Sprite.Apply | chip8/src/processor.rs:266-282 | applying flips keeps the framebuffer's length |
| Sprite.FlipsInBounds | chip8/src/processor.rs:266-282 | a sprite that fits reads only inside memory and writes only inside the framebuffer |
| Sprite.ApplyIsXor | chip8/src/processor.rs:276 | drawing XORs every byte with a mask that does not depend on what was on screen |
| Sprite.ApplyTwice | chip8/src/processor.rs:276 | drawing the same flips twice restores the framebuffer |
| Sprite.AnyErasedIffSomeFlip | chip8/src/processor.rs:275-283 | the `erase` accumulator is set exactly when some step turned a byte smaller |
| Sprite.ErasesAtPrefix | chip8/src/processor.rs:278-280 | whether a step erased is not changed by the steps after it |
| Sprite.FlipsAt | chip8/src/processor.rs:266-282 | flip `k` of the list is the flip of loop step `k` |
| Sprite.ApplyPrefixStep | chip8/src/processor.rs:275-280 | one more step applies its flip and updates the accumulator by whether it erased |
| Bits.Filled | chip8/src/processor.rs:75-77 | `n` copies of one value, as `[0; n]` builds the blank framebuffer, memory and stack |
| Semantics.New | chip8/src/processor.rs:63-82 | every register, byte, stack slot and timer is zero, there are no keys, no key wait and no exit |
| Semantics.Initialize | chip8/src/processor.rs:84-102 | everything is cleared, the font is at 0, the program is at 0x200, memory is zero elsewhere, and execution starts at 0x200 |
| Semantics.InitialMemory | chip8/src/processor.rs:98-101 | byte by byte: the font, zeros, the program from 0x200, zeros |
| Semantics.SetReg | chip8/src/processor.rs:202-204 | writing a register keeps the machine well formed |
| Semantics.SetWithFlag | chip8/src/processor.rs:221-249 | writing Vx and then VF keeps the machine well formed |
| Semantics.DrawFlips | chip8/src/processor.rs:264-282 | the flips of `DRW` lie inside the framebuffer, eight per sprite row |
| Semantics.DrawSprite | chip8/src/processor.rs:264-284 | drawing keeps the machine well formed |
| Semantics.StoreDecimal | chip8/src/processor.rs:315-323 | storing three digits keeps the machine well formed |
| Semantics.WriteRegs | chip8/src/processor.rs:324-329 | the copy keeps the machine well formed |
| Semantics.ReadRegs | chip8/src/processor.rs:330-335 | the load keeps the machine well formed |
| Semantics.SkipIf | chip8/src/processor.rs:187-201 | a skip changes only the program counter, which moves on by two exactly when the condition holds |
| Semantics.ExecuteControl | chip8/src/processor.rs:165-186 | the control instructions keep the machine well formed |
| Semantics.ExecuteRegister | chip8/src/processor.rs:202-220 | the single-register instructions change the general registers and nothing else |
| Semantics.ExecuteArithmetic | chip8/src/processor.rs:221-249 | the arithmetic instructions change the general registers and nothing else |
| Semantics.ExecuteOther | chip8/src/processor.rs:255-335 | the pointer, memory, draw, timer and key-wait instructions leave the program counter, stack and stack pointer alone |
| Semantics.Execute | chip8/src/processor.rs:163-340 | execution fails exactly on `Unknown`, with its two bytes, and otherwise keeps the machine well formed |
| Semantics.RunNextInstruction | chip8/src/processor.rs:104-127 | it fails exactly when the machine is running, not waiting, and fetches `Unknown`; on success the flag returned is the new exit flag |
| Semantics.TickTimer | chip8/src/processor.rs:133-140 | a timer goes down by one when positive and never rises |
| Semantics.TickTimers | chip8/src/processor.rs:133-140 | only the two timers change, and neither rises |
| Semantics.HasSound | chip8/src/processor.rs:142-144 | the buzzer sounds exactly while a tick still lowers the sound timer |
| Semantics.SetKeys | chip8/src/processor.rs:146-161 | the key mask is replaced, and the machine stays well formed |
| Semantics.GetDisplay | chip8/src/processor.rs:129-131 | a valid 64 by 32 view of the framebuffer |
| MachineProperties.ExitIsFinal | chip8/src/processor.rs:105-107 | once exited, running changes nothing and reports exit |
| MachineProperties.WaitingBlocks | chip8/src/processor.rs:109-111 | while waiting for a key, running changes nothing |
| MachineProperties.UninitializedRunFails | chip8/src/test_processor.rs:4-10 | running a new processor without `initialize` fetches the zero word and fails, where the code panics |
| MachineProperties.InitializeFetchesProgram | chip8/src/processor.rs:84-115 | after `initialize` the first instruction fetched is the program's first two bytes |
| MachineProperties.StraightLineAdvances | chip8/src/processor.rs:104-127 | an instruction that is not a jump, call, return or skip leaves the program counter two bytes on |
| MachineProperties.SkipAdvancesIffTaken | chip8/src/processor.rs:187-201 | a skip changes only the program counter, by two more exactly when its condition holds |
| MachineProperties.SkipKeyPressedMatchesKeyMask | chip8/src/processor.rs:285-294 | `SKP`/`SKNP` test the key mask as `keys_has_any_key` with the one-key mask would |
| MachineProperties.JumpToSelfExits | chip8/src/processor.rs:175-181 | a jump lands on its target and sets the exit flag exactly when it jumps to itself |
| MachineProperties.CallThenReturn | chip8/src/processor.rs:168-171 | `CALL` then `RET` returns to the instruction after the call with the stack pointer restored |
| MachineProperties.AddImmWraps | chip8/src/processor.rs:205-208 | `ADD Vx, byte` wraps at 256 and changes no other register |
| MachineProperties.AddRegCarry | chip8/src/processor.rs:221-227 | VF is the carry, so `256 * VF + Vx` is the full sum, and no other register changes |
| MachineProperties.SubRegBorrow | chip8/src/processor.rs:228-233 | VF is 1 exactly when there is no borrow, and the new Vx is the difference modulo 256 |
| MachineProperties.SubNegBorrow | chip8/src/processor.rs:239-244 | the same with the operands swapped |
| MachineProperties.ShiftRightOut | chip8/src/processor.rs:234-238 | the bit shifted out lands in VF: `2 * Vx' + VF == Vx` |
| MachineProperties.ShiftLeftOut | chip8/src/processor.rs:245-249 | the bit shifted out lands in VF: `Vx' + 256 * VF == 2 * Vx` |
| MachineProperties.RandomMasked | chip8/src/processor.rs:261-263 | the random register holds no bit the mask does not |
| MachineProperties.DigitSpriteInFont | chip8/src/processor.rs:310-314 | `LD F, Vx` points I at the five-byte glyph of the digit, inside the font |
| MachineProperties.DecimalDigitsRecombine | chip8/src/processor.rs:315-323 | the three digits stored are each below 10, recombine to `x`, and no other byte changes |
| MachineProperties.DecimalDigits | chip8/src/processor.rs:316-318 | hundreds, tens and ones recombine to the number |
| MachineProperties.WriteRegsCopies | chip8/src/processor.rs:324-329 | V0 to Vx are copied from I on, and no other byte changes |
| MachineProperties.ReadRegsLoads | chip8/src/processor.rs:330-335 | V0 to Vx are loaded from I on, and no other register changes |
| MachineProperties.WriteThenRead | chip8/src/processor.rs:324-335 | storing registers and loading them back restores them |
| MachineProperties.DrawTwiceRestores | chip8/src/processor.rs:264-284 | drawing the same sprite twice at the same place restores the screen |
| MachineProperties.DrawFlagIffErased | chip8/src/processor.rs:264-284 | after `DRW`, VF is 1 exactly when some step turned a lit pixel off |
| MachineProperties.ClearDisplayBlanks | chip8/src/processor.rs:165-167 | `CLS` blanks every framebuffer byte |
| MachineProperties.TickN | chip8/src/processor.rs:133-140 | repeated ticks change only the timers |
| MachineProperties.TicksCountDown | chip8/src/processor.rs:133-140 | after `n` ticks each timer is `max(t - n, 0)` |
| MachineProperties.SoundLasts | chip8/src/processor.rs:133-144 | the sound plays for exactly as many ticks as the sound timer was set to |
| MachineProperties.SetKeysLatchesLowestNewKey | chip8/src/processor.rs:146-161 | while waiting, the lowest newly pressed key goes to Vx and the wait ends; nothing else but the mask changes |
| MachineProperties.SetKeysKeepsWaiting | chip8/src/processor.rs:146-161 | while waiting with no new key, only the mask changes |
| MachineProperties.SetKeysNotWaiting | chip8/src/processor.rs:146-161 | outside a wait, only the mask changes |
| Engine.Fill | chip8/src/processor.rs:86-98 | `fill` sets every element |
| Engine.CopyInto | chip8/src/processor.rs:99-101 | `copy_from_slice` copies the source in at the offset and keeps the rest |
| Engine.Processor.constructor | chip8/src/processor.rs:63-82 | the state is `Semantics.New()` |
| Engine.Processor.Initialize | chip8/src/processor.rs:84-102 | the state is `Semantics.Initialize(program)` |
| Engine.Processor.Reset | chip8/src/processor.rs:86-96 | registers, display, stack, keys and flags are cleared, and execution is at 0x200 |
| Engine.Processor.LoadMemory | chip8/src/processor.rs:98-101 | memory is the initial memory of the program |
| Engine.Processor.RunNextInstruction | chip8/src/processor.rs:104-127 | the new state and the result are those of `Semantics.RunNextInstruction` |
| Engine.Processor.ExecuteInstruction | chip8/src/processor.rs:163-340 | the new state is `Semantics.Execute`, and `Unknown` changes nothing |
| Engine.Processor.ExecuteSkip | chip8/src/processor.rs:187-201 | the program counter moves on by two when the skip is taken |
| Engine.Processor.ExecuteControl | chip8/src/processor.rs:165-186 | the state is `Semantics.ExecuteControl` |
| Engine.Processor.ExecuteRegister | chip8/src/processor.rs:202-220 | the state is `Semantics.ExecuteRegister` |
| Engine.Processor.ExecuteLoad | chip8/src/processor.rs:202-211 | the loads and the immediate add match `Semantics.ExecuteRegister` |
| Engine.Processor.ExecuteBitwise | chip8/src/processor.rs:212-263 | OR, AND, XOR and `RND` match `Semantics.ExecuteRegister` |
| Engine.Processor.ExecuteArithmetic | chip8/src/processor.rs:221-249 | the state is `Semantics.ExecuteArithmetic` |
| Engine.Processor.ExecuteAddSub | chip8/src/processor.rs:221-244 | the add and the two subtractions match `Semantics.ExecuteArithmetic` |
| Engine.Processor.ExecuteShift | chip8/src/processor.rs:234-249 | the two shifts match `Semantics.ExecuteArithmetic` |
| Engine.Processor.ExecuteOther | chip8/src/processor.rs:255-335 | the state is `Semantics.ExecuteOther` |
| Engine.Processor.WriteRegs | chip8/src/processor.rs:324-329 | the copy loop leaves `Semantics.WriteRegs` |
| Engine.Processor.ReadRegs | chip8/src/processor.rs:330-335 | the load loop leaves `Semantics.ReadRegs` |
| Engine.Processor.DrawSprite | chip8/src/processor.rs:264-284 | the state is `Semantics.DrawSprite` |
| Engine.Processor.XorSprite | chip8/src/processor.rs:265-282 | the nested loops leave the framebuffer with all the flips applied, and `erase` is the accumulator over them |
| Engine.Processor.XorRow | chip8/src/processor.rs:267-281 | the inner loop applies the eight flips of one sprite row |
| Engine.Processor.DrawStep | chip8/src/processor.rs:268-280 | one pass applies one step's flip and updates `erase` |
| Engine.Processor.FlipPixel | chip8/src/processor.rs:275-280 | one XOR into a byte, reporting whether the byte became smaller |
| Engine.Processor.PixelMask | chip8/src/processor.rs:268-274 | the byte and mask computed are the step's flip |
| Engine.Processor.TickTimers | chip8/src/processor.rs:133-140 | the state is `Semantics.TickTimers` |
| Engine.Processor.HasSound | chip8/src/processor.rs:142-144 | true exactly when the sound timer is positive |
| Engine.Processor.SetKeys | chip8/src/processor.rs:146-161 | the state is `Semantics.SetKeys` |
| Engine.Processor.GetDisplay | chip8/src/processor.rs:129-131 | the view of the state's framebuffer |
| LegacyChip8.Chip8.constructor | src/chip8/mod.rs:57-70 | every register, memory byte, timer and the key mask are zero |
| LegacyChip8.Chip8.TickTimers | src/chip8/mod.rs:72-79 | each timer ticks toward zero, and nothing else changes |
| LegacyChip8.Chip8.HasSound | src/chip8/mod.rs:81-83 | true exactly when the sound timer is positive |
| LegacyChip8.Chip8.SetKeys | src/chip8/mod.rs:85-87 | the mask is replaced, and nothing else changes |
| Text.FindFrom | chip8-assembler/src/assembler_error.rs:69 | a match found lies at or after the start offset and inside the text |
| Text.FindFromSpec | chip8-assembler/src/assembler_error.rs:69 | the first occurrence at or after the offset, or none at all |
| Text.Find | chip8-assembler/src/assembler_error.rs:69 | a match found lies inside the text |
| Text.FindSpec | chip8-assembler/src/assembler_error.rs:69 | `find` returns the first occurrence, or `None` when there is none |
| Text.FindAt | chip8-assembler/src/assembler_error.rs:69 | an occurrence with none before it is the one `find` returns |
| Text.Before | chip8-assembler/src/parse.rs:23 | the text before the first occurrence of the pattern: a prefix with no occurrence inside, followed by the pattern when shorter |
| Text.WordLength | chip8-assembler/src/parse.rs:25 | the run of leading characters that are not whitespace |
| Text.TrimStart | chip8-assembler/src/parse.rs:25 | a suffix, after only whitespace, that does not start with whitespace |
| Text.SplitWhitespace | chip8-assembler/src/parse.rs:25 | every word is non-empty and free of whitespace |
| Text.SplitJoinSpaces | chip8-assembler/src/parse.rs:25 | splitting undoes joining such words with spaces |
| Text.SplitWord | chip8-assembler/src/parse.rs:25 | a word followed by whitespace splits off first |
| Text.SplitLeadingSpace | chip8-assembler/src/parse.rs:25 | a leading space does not change the words |
| Text.WordLengthOfWord | chip8-assembler/src/parse.rs:25 | a word followed by whitespace is one word long |
| Text.UpperChar | chip8-assembler/src/parse.rs:71 | a character uppercases to at least one character |
| Text.ToUpper | chip8-assembler/src/parse.rs:71 | uppercasing never shortens the text |
| Text.ToUpperAppend | chip8-assembler/src/parse.rs:71 | uppercasing distributes over concatenation |
| Text.ToUpperIdempotent | chip8-assembler/src/parse.rs:71 | uppercasing twice is uppercasing once |
| Text.UpperCharIdempotent | chip8-assembler/src/parse.rs:71 | each character's uppercase form is already uppercase |
| Text.Lines | chip8-assembler/src/parse.rs:9-12 | no line holds a `\n` |
| Text.LinesJoinLines | chip8-assembler/src/parse.rs:9-12 | splitting into lines undoes joining lines with `\n` |
| Text.FindNoNewline | chip8-assembler/src/parse.rs:9-12 | text without `\n` has no line ending |
| Text.FindNewlineAfter | chip8-assembler/src/parse.rs:9-12 | the first line ending of `l + "\n" + rest` ends `l` |
| Text.SingleLine | chip8-assembler/src/parse.rs:9-12 | non-empty text without `\n` is one line |
| Radix.Size | chip8-assembler/src/parse.rs:387-394 | the three radixes lie between 2 and 16 |
| Radix.Shift | chip8-assembler/src/parse.rs:402 | multiplying by the radix never shrinks a value and at least doubles a positive one |
| Radix.Quotient | chip8-assembler/src/parse.rs:402 | dividing by the radix shrinks any number at least the radix |
| Radix.Remainder | chip8-assembler/src/parse.rs:402 | the remainder is a digit of the radix |
| Radix.DivideByBase | chip8-assembler/src/parse.rs:402 | quotient times radix plus remainder is the number |
| Radix.DigitValue | chip8-assembler/src/parse.rs:402 | a digit's value is below the radix |
| Radix.AllDigitsAppend | chip8-assembler/src/parse.rs:402 | a concatenation is all digits exactly when both parts are |
| Radix.DigitsValueAppend | chip8-assembler/src/parse.rs:402 | appending a digit shifts the value and adds the digit |
| Radix.DigitsValueMonotone | chip8-assembler/src/parse.rs:402 | more digits never give a smaller value |
| Radix.ParseDigitsValue | chip8-assembler/src/parse.rs:402 | the digit loop yields the positional value when it fits, and overflow otherwise |
| Radix.ParseDigitsStep | chip8-assembler/src/parse.rs:402 | one turn of the digit loop consumes one digit |
| Radix.ParseDigits | chip8-assembler/src/parse.rs:402 | the digit loop never lowers its value and never exceeds the maximum, and never fails as empty |
| Radix.FromStrRadix | chip8-assembler/src/parse.rs:402 | a parsed value fits the type, and the `Empty` error comes exactly from empty text |
| Radix.FromStrRadixValue | chip8-assembler/src/parse.rs:402 | all-digit text parses to its value exactly when it fits |
| Radix.ParseDigitsInvalid | chip8-assembler/src/parse.rs:402 | text with a non-digit fails |
| Radix.FromStrRadixSpec | chip8-assembler/src/parse.rs:402 | `from_str_radix` succeeds exactly on a numeral that fits, and yields its value |
| Radix.DigitChar | chip8-assembler/src/parse.rs:413 | a formatted digit reads back as its value |
| Radix.FormatRadix | chip8-assembler/src/parse.rs:413 | formatted digits carry no sign |
| Radix.FormatRadixValue | chip8-assembler/src/parse.rs:413 | formatted digits have the number as their positional value |
| Radix.FormatThenParse | chip8-assembler/src/parse.rs:402-413 | parsing a formatted number gives it back whenever it fits |
| AssemblerErrors.NewNoOptions | chip8-assembler/src/assembler_error.rs:15-17 | an error with the location given |
| AssemblerErrors.NewMessage | chip8-assembler/src/assembler_error.rs:19-21 | an error with no location |
| AssemblerErrors.LocationNoOptions | chip8-assembler/src/assembler_error.rs:38-40 | a line with a span |
| AssemblerErrors.LocationLineNum | chip8-assembler/src/assembler_error.rs:42-44 | a line with no span |
| AssemblerErrors.Quote | chip8-assembler/src/parse.rs:402-404 | text placed between a lead-in and a tail occurs right after the lead-in |
| AssemblerErrors.MessageQuotes | chip8-assembler/src/parse.rs:387-470 | every message about a piece of source text (a literal, register, word, LD argument, label name) quotes that text verbatim in `MessageText` |
| AssemblerErrors.BadNumberText | chip8-assembler/src/parse.rs:402-404 | an unparsable number's message starts "Failed to parse number" and quotes the literal |
| AssemblerErrors.Extend | chip8-assembler/src/assembler_error.rs:69-72 | the end of a match lies inside the line, at least the word's length in, and the word occurs just before it |
| AssemblerErrors.MatchEnd | chip8-assembler/src/assembler_error.rs:67-73 | where the search for the words ends lies inside the line, with the last word occurring just before it |
| AssemblerErrors.LocateWord | chip8-assembler/src/assembler_error.rs:58-80 | a span found is for an existing word, has its length, and holds exactly that word in the line |
| AssemblerErrors.TryFromLineWords | chip8-assembler/src/assembler_error.rs:58-80 | the search loop returns `LocateWord` |
| AssemblerErrors.MatchEndStep | chip8-assembler/src/assembler_error.rs:68-73 | each word is searched for from the end of the previous word's match |
| AssemblerErrors.MissingWordIsFinal | chip8-assembler/src/assembler_error.rs:69-71 | once a word is not found, the search has no span |
| AssemblerErrors.LocatedWordMatches | chip8-assembler/src/assembler_error.rs:58-80 | a span found has the word's length and holds exactly the word |
| AssemblerErrors.LocatedAfterEarlierWords | chip8-assembler/src/assembler_error.rs:58-80 | a span found starts after the earlier words' matches |
| AssemblerErrors.NoWordNoLocation | chip8-assembler/src/assembler_error.rs:63-65 | no word at the index means no span |
| AssemblerErrors.LocateTextAfterParse | chip8-assembler/src/assembler_error_test.rs:3-13 | "text" after "parse" in "Can you parse my text?" is column 17, length 4 |
| Parse.LiteralDigits | chip8-assembler/src/parse.rs:388-394 | a `0x`/`0X` prefix selects hexadecimal and a `0b`/`0B` prefix binary, exactly, with the digits after the prefix; anything else is decimal with all its text |
| Parse.NumberLiteral | chip8-assembler/src/parse.rs:387-405 | literal errors carry no location |
| Parse.AddressLiteral | chip8-assembler/src/parse.rs:407-417 | an address is below 0x1000 |
| Parse.ByteLiteral | chip8-assembler/src/parse.rs:446-457 | literal errors carry no location |
| Parse.NibbleLiteral | chip8-assembler/src/parse.rs:459-469 | a nibble is at most 0xF |
| Parse.Register | chip8-assembler/src/parse.rs:419-444 | a register is at most `NUM_REGISTERS` |
| Parse.NumberLiteralSpec | chip8-assembler/src/parse.rs:387-405 | a literal parses exactly when its digits are well formed in the radix its prefix selects and fit a `u64`, and yields their value |
| Parse.AddressLiteralRange | chip8-assembler/src/parse.rs:407-417 | an address parses exactly when it is well formed and below 0x1000 |
| Parse.ByteLiteralRange | chip8-assembler/src/parse.rs:446-457 | a byte parses exactly when it is well formed and at most 255 |
| Parse.NibbleLiteralRange | chip8-assembler/src/parse.rs:459-469 | a nibble parses exactly when it is well formed and at most 15 |
| Parse.UpperStartsWithV | chip8-assembler/src/parse.rs:420 | uppercase text starts with `V` exactly when the text starts with `V` or `v` |
| Parse.RegisterRange | chip8-assembler/src/parse.rs:419-444 | a register parses exactly when it is `V`/`v` and hexadecimal digits of value at most 0xF |
| Parse.RegisterIsNotByte | chip8-assembler/src/parse.rs:185-191 | a register is never a byte literal, so trying registers first loses nothing |
| Parse.AddressRoundTrip | chip8-assembler/src/parse.rs:407-417 | an address written as `0x` and hex digits reads back |
| Parse.ByteRoundTrip | chip8-assembler/src/parse.rs:446-457 | a byte written in decimal reads back |
| Parse.NibbleRoundTrip | chip8-assembler/src/parse.rs:459-469 | a nibble written as `0b` and binary digits reads back |
| Parse.RegisterRoundTrip | chip8-assembler/src/parse.rs:419-444 | register `x` written as `V` and its hex digit reads back |
| Parse.StripComments | chip8-assembler/src/parse.rs:22-24 | the code kept is a prefix of the line |
| Parse.StripComma | chip8-assembler/src/parse.rs:26-32 | one trailing comma is removed, and a word without one is kept |
| Parse.LineWords | chip8-assembler/src/parse.rs:21-34 | the words are the whitespace-split code before any comment, each without its trailing comma |
| Parse.GetLineWords | chip8-assembler/src/parse.rs:21-34 | the loop over the markers returns `LineWords` |
| Parse.StripCommentsUnfold | chip8-assembler/src/parse.rs:22-24 | the cuts are at `;`, then `//`, then `#`, then `@` |
| Parse.NoSlashesAcrossCut | chip8-assembler/src/parse.rs:22-24 | a `//` cannot straddle the `;` cut |
| Parse.CodeBeforeComment | chip8-assembler/src/parse.rs:22-24 | the code is the prefix before the first marker: none starts inside it, and one starts right after it |
| Parse.CutMarker | chip8-assembler/src/parse.rs:22-24 | where a cut shortened the line, its marker starts |
| Parse.OccursAtHead | chip8-assembler/src/parse.rs:22-24 | a marker occurs only where its first character does |
| Parse.NoMarkerCharacters | chip8-assembler/src/parse.rs:471 | a line without `;`, `/`, `#` or `@` has no comment |
| Parse.NoMarkerNoComment | chip8-assembler/src/parse.rs:22-24 | a line without markers is all code |
| Parse.LineWordsOfJoinedWords | chip8-assembler/src/parse.rs:21-34 | words joined by spaces, with no comment or trailing comma, read back |
| Parse.MnemonicOf | chip8-assembler/src/parse.rs:71-95 | a recognised word is the mnemonic's spelling |
| Parse.MnemonicOfSpelling | chip8-assembler/src/parse.rs:71-95 | every mnemonic is recognised from its spelling |
| Parse.ArityError | chip8-assembler/src/parse.rs:111-114 | an operand-count error spans the whole line |
| Parse.GetJp | chip8-assembler/src/parse.rs:99-115 | one operand succeeds exactly when it is an address literal and gives `Jump` to it, otherwise that literal's error; `V0` (any case) and an operand do the same with `JumpOffset`; any other operands are the JP arity error |
| Parse.GetCall | chip8-assembler/src/parse.rs:117-127 | one operand succeeds exactly when it is an address literal and gives `Call` to it, otherwise that literal's error; any other count is the CALL arity error |
| Parse.GetSkip | chip8-assembler/src/parse.rs:129-161 | two operands succeed exactly when the first is a register and the second a register or a byte; a register second operand gives the register form, otherwise the immediate form; the error is the first register's, else the byte's; any other count is the arity error |
| Parse.GetLoadRegister | chip8-assembler/src/parse.rs:174-197 | `DT`, `K` and `[I]` (any case) come before registers and bytes and give the timer, key-wait and memory loads; then a register source gives the register copy; otherwise a byte gives the immediate load, and anything else is the invalid-second-argument error |
| Parse.GetLoadSpecial | chip8-assembler/src/parse.rs:199-232 | target `I` takes an address literal; `DT`, `ST`, `F`, `B` and `[I]` take a register and give the delay-timer, sound-timer, digit-sprite, decimal-digit and memory writes; each succeeds exactly when its operand parses and otherwise fails with that operand's error; any other target is the invalid-first-argument error |
| Parse.GetLd | chip8-assembler/src/parse.rs:163-233 | two operands whose first is a register are the register-target load, all others the special-target load; any other count is the LD arity error |
| Parse.GetAdd | chip8-assembler/src/parse.rs:235-256 | `I` (any case) and a register give `AddRegToPointer`; otherwise a register and then a register or a byte give the register or immediate add, the error being the first register's, else the byte's; any other count is the ADD arity error |
| Parse.GetTwoRegisters | chip8-assembler/src/parse.rs:258-327 | two operands succeed exactly when both are registers and give the mnemonic's instruction of them in order, otherwise the first failing register's error; any other count is the mnemonic's arity error |
| Parse.GetOneRegister | chip8-assembler/src/parse.rs:306-385 | one operand succeeds exactly when it is a register and gives the mnemonic's instruction of it, otherwise that register's error; any other count is the mnemonic's arity error |
| Parse.GetRnd | chip8-assembler/src/parse.rs:340-350 | two operands succeed exactly when they are a register and a byte, giving `Random` of them, and otherwise fail with the first one's error; any other count is the RND arity error |
| Parse.GetDrw | chip8-assembler/src/parse.rs:352-363 | three operands succeed exactly when they are two registers and a nibble, giving `Draw` of them, and otherwise fail with the first failing one's error; any other count is the DRW arity error |
| Parse.KeywordIsNotRegister | chip8-assembler/src/parse.rs:174-232 | the load keywords `DT`, `K`, `[I]`, `I`, `ST`, `F` and `B`, in any case, are never registers, so trying the register form first never captures them |
| Parse.Operands | chip8-assembler/src/parse.rs:71-95 | success only with the operand count the mnemonic takes; failures are operand errors; which instruction each mnemonic builds is Listing.SpellParses |
| Parse.ParseWords | chip8-assembler/src/parse.rs:63-97 | an instruction comes only from a known mnemonic, in any case, with its operand count; that each listing parses back as its own instruction is Listing.SpellParses |
| Parse.ParseInstruction | chip8-assembler/src/parse.rs:63-97 | a line with no words is the unknown-instruction error, and an instruction comes only from a known mnemonic with an operand count it takes; its round trip with the listing of an instruction is Listing.SpelledLineParses |
| Parse.UnknownMnemonicIff | chip8-assembler/src/parse.rs:92-95 | the unknown-instruction error names the first word exactly when it is no mnemonic |
| Parse.WrongCountIsArityError | chip8-assembler/src/parse.rs:99-385 | a wrong operand count is the arity error over the whole line |
| Parse.MnemonicCaseInsensitive | chip8-assembler/src/parse.rs:71 | a mnemonic parses the same in any case |
| Parse.ParseLine | chip8-assembler/src/parse.rs:36-61 | nothing exactly for a line with no words; a label only from one word of a non-empty name and a colon; a line whose only word is `:` is the label-before-colon error located at that colon; any other line with words succeeds exactly when `parse_instruction` does, giving its instruction as a statement at address 0, and otherwise fails with `parse_instruction`'s error |
| Parse.BlankLineIsNothing | chip8-assembler/src/parse.rs:39-41 | a line whose code is whitespace holds no statement |
| Parse.BlankHasNoWords | chip8-assembler/src/parse.rs:25 | whitespace splits into no words |
| Parse.LabelLine | chip8-assembler/src/parse.rs:42-54 | one word ending in `:` is a label of the text before it, at address 0 |
| Parse.BareColonLine | chip8-assembler/src/parse.rs:43-49 | a bare `:` is the label error with a span over the colon |
| Parse.ColonWords | chip8-assembler/src/parse.rs:21-34 | the words of `:` |
| Parse.ColonLocation | chip8-assembler/src/parse.rs:47 | the span of the bare colon is the whole line |
| Parse.SomesPositions | chip8-assembler/src/parse.rs:17 | `flatten` keeps exactly the values present, in order |
| Parse.SomesEmpty | chip8-assembler/src/parse.rs:14-17 | nothing is kept exactly when no value is present |
| Parse.ErrorOptions | chip8-assembler/src/parse.rs:13 | the error of each line's result, position by position |
| Parse.ValueOptions | chip8-assembler/src/parse.rs:13 | the value of each line's result, position by position |
| Parse.SomesLength | chip8-assembler/src/parse.rs:17 | `flatten` keeps at most one value per option |
| Parse.Partition | chip8-assembler/src/parse.rs:9-18 | at most one statement per result on success, and between one and one error per result on failure |
| Parse.PartitionSucceedsIff | chip8-assembler/src/parse.rs:9-18 | the partition succeeds exactly when every line does |
| Parse.PartitionErrors | chip8-assembler/src/parse.rs:13-15 | on failure the errors are those of the failing lines, each once, in order |
| Parse.PartitionValues | chip8-assembler/src/parse.rs:13-17 | on success the statements are those of the lines that hold one, each once, in order |
| Parse.LineResults | chip8-assembler/src/parse.rs:9-12 | line `i` is parsed with line number `i` |
| Parse.ParseLines | chip8-assembler/src/parse.rs:8-19 | the text parses exactly when every line does; on success at most one statement per line, on failure between one and one error per line |
| Parse.EmptyTextNoStatements | chip8-assembler/src/parse.rs:8-19 | empty text holds no statements |
| Parse.SingleLineResults | chip8-assembler/src/parse.rs:9-12 | text of one line gives that line's one result, numbered 0 |
| Parse.JumpToWordResults | chip8-assembler/src/parse_test.rs:3-15 | the text `jp abc` is one line, which fails on its address |
| Parse.JumpToWordWords | chip8-assembler/src/parse.rs:21-34 | the words of `jp abc` |
| Parse.JumpToWordFails | chip8-assembler/src/parse_test.rs:3-15 | `jp abc` fails with exactly one error, whose message starts "Failed to parse number" |
| Parse.PartitionOneFailure | chip8-assembler/src/parse.rs:13-15 | one failure partitions into that one error |
| Parse.JumpToWordLine | chip8-assembler/src/parse.rs:55-60 | the line `jp abc` fails on its address |
| Parse.JumpToWordInstruction | chip8-assembler/src/parse.rs:99-103 | `JP` with the operand `abc` fails on the address |
| Parse.WordIsNotNumber | chip8-assembler/src/parse.rs:387-405 | `abc` is not a decimal number |
| Listing.PrefixedWord | chip8-assembler/src/parse.rs:387-405 | a letter prefix and a number's digits in a radix make one non-empty word of letters and digits |
| Listing.RegisterWord | chip8-assembler/src/parse.rs:419-444 | register `x` written as `V` and its hex digit is one non-empty word of letters and digits |
| Listing.ByteWord | chip8-assembler/src/parse.rs:446-457 | a byte written in decimal is one non-empty word of digits |
| Listing.AddressWord | chip8-assembler/src/parse.rs:407-417 | an address written as `0x` and hex digits is one non-empty word of letters and digits |
| Listing.NibbleWord | chip8-assembler/src/parse.rs:459-469 | a nibble written as `0b` and binary digits is one non-empty word of letters and digits |
| Listing.DigitsWord | chip8-assembler/src/parse.rs:387-405 | a letter prefix and formatted digits make one word |
| Listing.FormatRadixChars | chip8-assembler/src/parse.rs:387-405 | formatted digits are decimal digits, or lowercase hex letters in radix 16 |
| Listing.UpperWordUnchanged | chip8-assembler/src/parse.rs:71 | uppercasing leaves uppercase letters, digits and brackets alone |
| Listing.RegisterWordParses | chip8-assembler/src/parse.rs:419-444 | a register word reads back as its register and is none of the keywords `DT`, `K`, `[I]`, `I` tried before registers |
| Listing.ByteWordParses | chip8-assembler/src/parse.rs:446-457 | a byte word reads back as its byte, is no register and no keyword, so the byte form is the one taken |
| Listing.Keyword | chip8-assembler/src/parse.rs:174-232 | each load keyword is its own uppercase form and, except `V0`, no register |
| Listing.MnemonicWord | chip8-assembler/src/parse.rs:71-95 | every mnemonic's spelling, uppercased, is recognised as that mnemonic |
| Listing.Dispatch | chip8-assembler/src/parse.rs:63-97 | a line whose first word spells a mnemonic goes to that mnemonic's operand parser with the remaining words |
| Listing.OperandsOf | chip8-assembler/src/parse.rs:71-79 | `CLS`, `RET` and `EXIT` give their instruction, and `JP`, `CALL`, `SE`, `SNE`, `LD`, `ADD` go to their own parsers, `SE` and `SNE` with their own equal and not-equal constructors |
| Listing.RegisterOperandsOf | chip8-assembler/src/parse.rs:80-91 | each of `OR`, `AND`, `XOR`, `SUB`, `SUBN`, `SHR`, `SHL`, `SKP`, `SKNP` builds its own constructor, and `RND` and `DRW` go to their parsers |
| Listing.ClearDisplayParses | chip8-assembler/src/parse.rs:72 | the words `CLS` with in-range operands parse as `ClearDisplay`, with the operands in that order |
| Listing.ReturnParses | chip8-assembler/src/parse.rs:73 | the words `RET` with in-range operands parse as `Return`, with the operands in that order |
| Listing.ExitParses | chip8-assembler/src/parse.rs:74 | the words `EXIT` with in-range operands parse as `Exit`, with the operands in that order |
| Listing.JumpParses | chip8-assembler/src/parse.rs:99-103 | the words `JP addr` with in-range operands parse as `Jump(a)`, with the operands in that order |
| Listing.JumpOffsetParses | chip8-assembler/src/parse.rs:104-108 | the words `JP V0 addr` with in-range operands parse as `JumpOffset(a)`, with the operands in that order |
| Listing.CallParses | chip8-assembler/src/parse.rs:117-127 | the words `CALL addr` with in-range operands parse as `Call(a)`, with the operands in that order |
| Listing.SkipRegEqualsImmParses | chip8-assembler/src/parse.rs:129-143 | the words `SE Vx byte` with in-range operands parse as `SkipRegEqualsImm(x, b)`, with the operands in that order |
| Listing.SkipRegEqualsRegParses | chip8-assembler/src/parse.rs:129-140 | the words `SE Vx Vy` with in-range operands parse as `SkipRegEqualsReg(x, y)`, with the operands in that order |
| Listing.SkipRegNotEqualsImmParses | chip8-assembler/src/parse.rs:146-160 | the words `SNE Vx byte` with in-range operands parse as `SkipRegNotEqualsImm(x, b)`, with the operands in that order |
| Listing.SkipRegNotEqualsRegParses | chip8-assembler/src/parse.rs:146-157 | the words `SNE Vx Vy` with in-range operands parse as `SkipRegNotEqualsReg(x, y)`, with the operands in that order |
| Listing.LoadImmToRegParses | chip8-assembler/src/parse.rs:163-190 | the words `LD Vx byte` with in-range operands parse as `LoadImmToReg(x, b)`, with the operands in that order |
| Listing.LoadRegToRegParses | chip8-assembler/src/parse.rs:163-186 | the words `LD Vx Vy` with in-range operands parse as `LoadRegToReg(x, y)`, with the operands in that order |
| Listing.LoadImmToPointerParses | chip8-assembler/src/parse.rs:199-201 | the words `LD I addr` with in-range operands parse as `LoadImmToPointer(a)`, with the operands in that order |
| Listing.LoadDelayTimerToRegParses | chip8-assembler/src/parse.rs:174-176 | the words `LD Vx DT` with in-range operands parse as `LoadDelayTimerToReg(x)`, with the operands in that order |
| Listing.LoadNextKeyPressParses | chip8-assembler/src/parse.rs:174-179 | the words `LD Vx K` with in-range operands parse as `LoadNextKeyPress(x)`, with the operands in that order |
| Listing.ReadRegFromPointerParses | chip8-assembler/src/parse.rs:174-182 | the words `LD Vx [I]` with in-range operands parse as `ReadRegFromPointer(x)`, with the operands in that order |
| Listing.LoadRegToDelayTimerParses | chip8-assembler/src/parse.rs:204-206 | the words `LD DT Vx` with in-range operands parse as `LoadRegToDelayTimer(x)`, with the operands in that order |
| Listing.LoadRegToSoundTimerParses | chip8-assembler/src/parse.rs:209-211 | the words `LD ST Vx` with in-range operands parse as `LoadRegToSoundTimer(x)`, with the operands in that order |
| Listing.LoadDigitSpriteToPointerParses | chip8-assembler/src/parse.rs:214-216 | the words `LD F Vx` with in-range operands parse as `LoadDigitSpriteToPointer(x)`, with the operands in that order |
| Listing.LoadDecimalDigitsToPointerParses | chip8-assembler/src/parse.rs:219-221 | the words `LD B Vx` with in-range operands parse as `LoadDecimalDigitsToPointer(x)`, with the operands in that order |
| Listing.WriteRegToPointerParses | chip8-assembler/src/parse.rs:224-226 | the words `LD [I] Vx` with in-range operands parse as `WriteRegToPointer(x)`, with the operands in that order |
| Listing.AddImmToRegParses | chip8-assembler/src/parse.rs:235-255 | the words `ADD Vx byte` with in-range operands parse as `AddImmToReg(x, b)`, with the operands in that order |
| Listing.AddRegParses | chip8-assembler/src/parse.rs:235-251 | the words `ADD Vx Vy` with in-range operands parse as `AddReg(x, y)`, with the operands in that order |
| Listing.AddRegToPointerParses | chip8-assembler/src/parse.rs:243-245 | the words `ADD I Vx` with in-range operands parse as `AddRegToPointer(x)`, with the operands in that order |
| Listing.OrRegParses | chip8-assembler/src/parse.rs:258-267 | the words `OR Vx Vy` with in-range operands parse as `OrReg(x, y)`, with the operands in that order |
| Listing.AndRegParses | chip8-assembler/src/parse.rs:270-279 | the words `AND Vx Vy` with in-range operands parse as `AndReg(x, y)`, with the operands in that order |
| Listing.XorRegParses | chip8-assembler/src/parse.rs:282-291 | the words `XOR Vx Vy` with in-range operands parse as `XorReg(x, y)`, with the operands in that order |
| Listing.SubRegParses | chip8-assembler/src/parse.rs:294-303 | the words `SUB Vx Vy` with in-range operands parse as `SubReg(x, y)`, with the operands in that order |
| Listing.SubNegRegParses | chip8-assembler/src/parse.rs:317-326 | the words `SUBN Vx Vy` with in-range operands parse as `SubNegReg(x, y)`, with the operands in that order |
| Listing.ShiftRightParses | chip8-assembler/src/parse.rs:306-314 | the words `SHR Vx` with in-range operands parse as `ShiftRight(x)`, with the operands in that order |
| Listing.ShiftLeftParses | chip8-assembler/src/parse.rs:329-337 | the words `SHL Vx` with in-range operands parse as `ShiftLeft(x)`, with the operands in that order |
| Listing.RandomParses | chip8-assembler/src/parse.rs:340-349 | the words `RND Vx byte` with in-range operands parse as `Random(x, b)`, with the operands in that order |
| Listing.DrawParses | chip8-assembler/src/parse.rs:352-362 | the words `DRW Vx Vy nibble` with in-range operands parse as `Draw(x, y, n)`, with the operands in that order |
| Listing.SkipKeyPressedParses | chip8-assembler/src/parse.rs:365-373 | the words `SKP Vx` with in-range operands parse as `SkipKeyPressed(x)`, with the operands in that order |
| Listing.SkipNotKeyPressedParses | chip8-assembler/src/parse.rs:376-384 | the words `SKNP Vx` with in-range operands parse as `SkipNotKeyPressed(x)`, with the operands in that order |
| Listing.SpellParses | chip8-assembler/src/parse.rs:71-95 | for every instruction except `Unknown`, with registers at most VF, addresses below 0x1000 and nibbles at most 15, the words of its listing parse back as exactly that instruction, so every mnemonic builds its own instruction with its operands in order |
| Listing.SpellWords | chip8-assembler/src/parse.rs:21-34 | every word of a listing is a non-empty word of letters, digits and brackets |
| Listing.ListingWordIsPlain | chip8-assembler/src/parse.rs:21-34 | a listing word holds no whitespace, no trailing comma and no trailing colon |
| Listing.JoinListingWords | chip8-assembler/src/parse.rs:21-34 | listing words joined by spaces hold only listing characters and spaces |
| Listing.SpelledLineParses | chip8-assembler/src/parse.rs:63-97 | the line that writes an instruction's listing, words joined by spaces, splits back into those words, and `parse_instruction` on it returns that instruction |
| Listing.ListingLineIsInstruction | chip8-assembler/src/parse.rs:36-49 | a line of listing words is neither blank nor a label, so `parse_line` hands it to `parse_instruction` |
| Listing.SpelledLineStatement | chip8-assembler/src/parse.rs:36-61 | `parse_line` on an instruction's listing line gives that instruction as a statement at address 0 |
| Statements.Statement.Bytes | chip8-assembler/src/statement.rs:20-29 | a label has no bytes, raw bytes are themselves, and an instruction is its two encoded bytes |
| Statements.BytesIgnoreLayout | chip8-assembler/src/statement.rs:20-29 | the bytes depend only on the statement's kind and contents |
| Statements.ExitBytes | chip8-assembler/src/statement_test.rs:20-32 | `Exit` is the bytes 00 FD |
| Assembler.Offsets | chip8-assembler/src/lib.rs:22-32 | the first statement starts at the start address and each next one right after the previous |
| Assembler.FirstAtOrAbove | chip8-assembler/src/lib.rs:23-29 | the first address at or above the bound, with all before it below |
| Assembler.Layout | chip8-assembler/src/lib.rs:22-32 | the layout pass keeps one statement per statement, and a failure is the one memory-exceeded error |
| Assembler.LayOut | chip8-assembler/src/lib.rs:22-32 | the layout loop returns `Layout` |
| Assembler.FirstAtOrAboveAt | chip8-assembler/src/lib.rs:24 | the first address at or above the bound is the one found |
| Assembler.FirstAtOrAboveFrom | chip8-assembler/src/lib.rs:24 | the search from an offset finds the first such address after it |
| Assembler.LayoutSequential | chip8-assembler/src/lib.rs:22-32 | a successful layout keeps every statement, starts at the start address, places each next one right after the previous, and stays below the maximum |
| Assembler.LayoutExceeded | chip8-assembler/src/lib.rs:24-29 | a failed layout reports one error, the memory error of the first statement at or past the maximum |
| Assembler.LayoutSucceedsIff | chip8-assembler/src/lib.rs:22-32 | the layout succeeds exactly when every statement starts below the maximum |
| Assembler.AddLabel | chip8-assembler/src/lib.rs:38-54 | a non-label keeps the table; an accepted label never changes an entry already there and adds only its own non-empty declared name at its address; a rejection is one error |
| Assembler.LabelsUpTo | chip8-assembler/src/lib.rs:34-55 | every name in a table built so far is non-empty, and a failure is one error |
| Assembler.LabelTable | chip8-assembler/src/lib.rs:34-55 | every name in the table is non-empty, and a failure of the label pass is one error |
| Assembler.BuildLabels | chip8-assembler/src/lib.rs:34-55 | the label loop returns `LabelTable` |
| Assembler.LabelFailureIsFinal | chip8-assembler/src/lib.rs:40-53 | a failure of the label pass is its result |
| Assembler.LabelTableExact | chip8-assembler/src/lib.rs:34-55 | the table maps exactly the declared non-empty names, each to its statement's address |
| Assembler.DuplicateLabelFails | chip8-assembler/src/lib.rs:48-53 | two labels with the same name fail the label pass; when the labels before the second were accepted, the result is the single "already used" error for the name at the second one's line |
| Assembler.EmptyLabelFails | chip8-assembler/src/lib.rs:42-47 | a label with an empty name fails the label pass; when the labels before it were accepted, the result is the single empty-label error at its line |
| Assembler.ResolveOne | chip8-assembler/src/lib.rs:58-78 | resolving changes only the statement's type, keeps bytes as bytes and labels as labels, and a failure of a label or instruction is one error |
| Assembler.Resolve | chip8-assembler/src/lib.rs:57-79 | a successful resolution has one statement per statement, each keeping its address, line, size and text and changing only its parsed contents |
| Assembler.ResolveAll | chip8-assembler/src/lib.rs:57-79 | the resolution loop returns `Resolve` |
| Assembler.ResolveFailsAt | chip8-assembler/src/lib.rs:57-79 | resolution fails with the first failing statement's error |
| Assembler.ResolveSucceeds | chip8-assembler/src/lib.rs:57-79 | resolution succeeds when every statement resolves |
| Assembler.ResolvedInPlace | chip8-assembler/src/lib.rs:57-79 | each resolved statement is its own statement's resolution |
| Assembler.ImageAppend | chip8-assembler/src/lib.rs:81-85 | the image of consecutive statements is the concatenation of their images |
| Assembler.LabelsHaveNoImage | chip8-assembler/src/lib.rs:81-85 | labels take no room in the image |
| Assembler.Assemble | chip8-assembler/src/lib.rs:11-87 | `assemble` returns `AssembleSpec` |
| Assembler.NoStatementsEmptyImage | chip8-assembler/src/lib_test.rs:19-32 | a text with no statements assembles to an empty image |
| Assembler.ExceededStopsAssembly | chip8-assembler/src/lib.rs:22-32 | running out of memory is the one error, reported before any label or instruction is parsed |
| Assembler.AssembledLabels | chip8-assembler/src/lib.rs:22-55 | on success every statement lies below the maximum and every label is in the table at its address |
| Assembler.AssembledWithFullTable | chip8-assembler/src/lib.rs:57-72 | on success every instruction was parsed against the complete table, so labels may be used before they are declared |
| Assembler.AssembledImage | chip8-assembler/src/lib.rs:57-86 | on success the image is the bytes of the resolved statements, each at its statement's address and line |

## Left out

- The logger of `Processor` is not modelled. It only records text.
- The random byte of `RND` is a parameter of execution, not a `fastrand` call.
- `decode_instruction` and `encode_instruction` come from an instruction crate that is not part of this model. They are function-valued parameters. Two facts are assumed about them:
  - the zero word decodes to `Unknown`;
  - `Exit` encodes as 00FD.
- Key masks are sets of key numbers. This is exact because every one of the sixteen bits of the `u16` names a key: bit tests are membership, `&` is intersection and `& !` is difference.
- Every Rust panic is a precondition, and panicking behaviour is not modelled. This covers:
  - indexing a register above 15;
  - `RET` on an empty stack and `CALL` on a full one;
  - program-counter and pointer overflow in a debug build;
  - a key shift by 16 or more;
  - a sprite or register copy reaching past memory or the framebuffer;
  - a program larger than memory;
  - `Display::new` with the wrong data length.
- Assembler.Assemble: requires that the layout's `u16` additions do not overflow, which would panic in a debug build.
- The draw instruction wraps coordinates at 256, as the code's `u8` addition does, not at the screen edge. A sprite whose pixels fall past byte 255 of the framebuffer panics in the code and is excluded by the precondition.
- Strings are sequences of Unicode characters. Columns and lengths count characters where Rust counts UTF-8 bytes; the two agree on ASCII. Slicing inside a multi-byte character, which panics in Rust, is not modelled.
- Text.ToUpper: exact only for characters whose uppercase form is ASCII, plus a few ligatures. Other characters are kept as they are. For mnemonics and register names only ASCII matters.
- Error messages are kept as a kind plus the text they quote, and `MessageText` renders the wording.
- Line numbers of the parser (`u32`) are not truncated. The statements of `assemble` take them modulo 2^16, as `line_num as u16` does.
- `get_partial_statement`, `parse_label`, `parse_bytes` and the four-argument `parse_instruction` that `lib.rs` calls are not in `parse.rs`. They are function-valued fields of `Assembler.Frontend`.
- `parse.rs` builds its own two-variant `Statement` (a label or an instruction, with an address), unlike the `Statement` struct of `statement.rs`. The model keeps both.
- `ADDR_SPACE` is imported by `parse.rs` but not defined in the files modelled. It is taken as 0x1000, the CHIP-8 address space that the error message prints as `1000`.
- The assembler tests call `assemble` with two arguments and expect the message "Label already used.", where the code takes three arguments and quotes the name. The model follows the code.
- src/chip8/processor.rs is an older copy of the interpreter that the legacy `Chip8` does not use; it is not part of this model.
- The digit-rendering program of chip8/src/test_execute_digits.rs is not replayed instruction by instruction. MachineProperties.DigitSpriteInFont and MachineProperties.DrawFlagIffErased state the two steps it repeats.
