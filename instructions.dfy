/**
  * The decoded CHIP-8 instruction, with one variant per arm the interpreter
  * matches on (chip8/src/processor.rs:164-338). The decoder and encoder live
  * in a crate that is not part of this model; they appear as function
  * values, constrained only by the facts the repository states about them.
  */
module Instructions {
  import opened Bits

  datatype Instruction =
    | ClearDisplay
    | Return
    | Exit
    | Jump(addr: U16)
    | Call(addr: U16)
    | SkipRegEqualsImm(x: U8, byte: U8)
    | SkipRegNotEqualsImm(x: U8, byte: U8)
    | SkipRegEqualsReg(x: U8, y: U8)
    | LoadImmToReg(x: U8, byte: U8)
    | AddImmToReg(x: U8, byte: U8)
    | LoadRegToReg(x: U8, y: U8)
    | OrReg(x: U8, y: U8)
    | AndReg(x: U8, y: U8)
    | XorReg(x: U8, y: U8)
    | AddReg(x: U8, y: U8)
    | SubReg(x: U8, y: U8)
    | ShiftRight(x: U8)
    | SubNegReg(x: U8, y: U8)
    | ShiftLeft(x: U8)
    | SkipRegNotEqualsReg(x: U8, y: U8)
    | LoadImmToPointer(addr: U16)
    | JumpOffset(addr: U16)
    | Random(x: U8, byte: U8)
    | Draw(x: U8, y: U8, nibble: U8)
    | SkipKeyPressed(x: U8)
    | SkipNotKeyPressed(x: U8)
    | LoadDelayTimerToReg(x: U8)
    | LoadNextKeyPress(x: U8)
    | LoadRegToDelayTimer(x: U8)
    | LoadRegToSoundTimer(x: U8)
    | AddRegToPointer(x: U8)
    | LoadDigitSpriteToPointer(x: U8)
    | LoadDecimalDigitsToPointer(x: U8)
    | WriteRegToPointer(x: U8)
    | ReadRegFromPointer(x: U8)
    | Unknown(byte1: U8, byte2: U8)

  /** `decode_instruction(byte1, byte2)`. */
  type Decoder = (U8, U8) -> Instruction

  /** `encode_instruction(instruction)`, the two bytes of the opcode, high byte first. */
  type Encoder = Instruction -> (U8, U8)

  /** The one decoder fact the repository states: the zero word is not an instruction. */
  predicate DecodesZeroAsUnknown(decode: Decoder) {
    decode(0x00, 0x00) == Unknown(0x00, 0x00)
  }

  /** The one encoder fact the repository states: `Exit` is the Super Chip-48 opcode 00FD. */
  predicate EncodesExit(encode: Encoder) {
    encode(Exit) == (0x00, 0xFD)
  }
}
