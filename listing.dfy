/**
  * Assembler listings: each instruction written out as the CHIP-8
  * instruction table spells it, and the proof that the assembler's line
  * parser (chip8-assembler/src/parse.rs) reads every such listing back as
  * the instruction it spells.
  */
module Listing {
  import opened Wrappers
  import opened Text
  import opened Bits
  import opened Instructions
  import opened Parse
  import Radix

  /** A character a listing writes inside a word: an ASCII letter or digit, or a bracket of `[I]`. */
  predicate ListingChar(c: char) {
    ('0' <= c <= '9') || ('a' <= c <= 'z') || ('A' <= c <= 'Z') || c == '[' || c == ']'
  }

  /** A non-empty word of listing characters. */
  predicate ListingWord(w: string) {
    w != [] && forall k | 0 <= k < |w| :: ListingChar(w[k])
  }

  /** Formatted digits, after a letter prefix, make a listing word. */
  lemma DigitsWord(prefix: string, n: nat, b: Radix.Base)
    requires forall k | 0 <= k < |prefix| :: ListingChar(prefix[k])
    ensures ListingWord(prefix + Radix.FormatRadix(n, b))
  {
    FormatRadixChars(n, b);
    var w := prefix + Radix.FormatRadix(n, b);
    forall k | 0 <= k < |w| ensures ListingChar(w[k]) {
      if k < |prefix| {
        assert w[k] == prefix[k];
      } else {
        assert w[k] == Radix.FormatRadix(n, b)[k - |prefix|];
      }
    }
  }

  /** A number as a listing writes it: a letter prefix, then its digits in radix `b`. */
  function PrefixedWord(prefix: string, n: nat, b: Radix.Base): (w: string)
    requires forall k | 0 <= k < |prefix| :: ListingChar(prefix[k])
    ensures ListingWord(w)
  {
    DigitsWord(prefix, n, b);
    prefix + Radix.FormatRadix(n, b)
  }

  /** Register `x` as a listing writes it: `V` and its hexadecimal digit. */
  function RegisterWord(x: nat): (w: string)
    ensures ListingWord(w)
  {
    PrefixedWord("V", x, Radix.Hex)
  }

  /** A byte as a listing writes it: its decimal digits. */
  function ByteWord(b: nat): (w: string)
    ensures ListingWord(w)
  {
    DigitsWord([], b, Radix.Decimal);
    assert [] + Radix.FormatRadix(b, Radix.Decimal) == Radix.FormatRadix(b, Radix.Decimal);
    Radix.FormatRadix(b, Radix.Decimal)
  }

  /** An address as a listing writes it: `0x` and its hexadecimal digits. */
  function AddressWord(a: nat): (w: string)
    ensures ListingWord(w)
  {
    PrefixedWord("0x", a, Radix.Hex)
  }

  /** A nibble as a listing writes it: `0b` and its binary digits. */
  function NibbleWord(v: nat): (w: string)
    ensures ListingWord(w)
  {
    PrefixedWord("0b", v, Radix.Binary)
  }

  /**
    * An instruction as an assembler listing writes it, one word per entry:
    * its mnemonic from the CHIP-8 instruction table, then its operands in
    * order. `Unknown` has no spelling.
    */
  function Spell(i: Instruction): seq<string> {
    match i
    case ClearDisplay => ["CLS"]
    case Return => ["RET"]
    case Exit => ["EXIT"]
    case Jump(a) => ["JP", AddressWord(a)]
    case JumpOffset(a) => ["JP", "V0", AddressWord(a)]
    case Call(a) => ["CALL", AddressWord(a)]
    case SkipRegEqualsImm(x, b) => ["SE", RegisterWord(x), ByteWord(b)]
    case SkipRegEqualsReg(x, y) => ["SE", RegisterWord(x), RegisterWord(y)]
    case SkipRegNotEqualsImm(x, b) => ["SNE", RegisterWord(x), ByteWord(b)]
    case SkipRegNotEqualsReg(x, y) => ["SNE", RegisterWord(x), RegisterWord(y)]
    case LoadImmToReg(x, b) => ["LD", RegisterWord(x), ByteWord(b)]
    case LoadRegToReg(x, y) => ["LD", RegisterWord(x), RegisterWord(y)]
    case LoadImmToPointer(a) => ["LD", "I", AddressWord(a)]
    case LoadDelayTimerToReg(x) => ["LD", RegisterWord(x), "DT"]
    case LoadNextKeyPress(x) => ["LD", RegisterWord(x), "K"]
    case ReadRegFromPointer(x) => ["LD", RegisterWord(x), "[I]"]
    case LoadRegToDelayTimer(x) => ["LD", "DT", RegisterWord(x)]
    case LoadRegToSoundTimer(x) => ["LD", "ST", RegisterWord(x)]
    case LoadDigitSpriteToPointer(x) => ["LD", "F", RegisterWord(x)]
    case LoadDecimalDigitsToPointer(x) => ["LD", "B", RegisterWord(x)]
    case WriteRegToPointer(x) => ["LD", "[I]", RegisterWord(x)]
    case AddImmToReg(x, b) => ["ADD", RegisterWord(x), ByteWord(b)]
    case AddReg(x, y) => ["ADD", RegisterWord(x), RegisterWord(y)]
    case AddRegToPointer(x) => ["ADD", "I", RegisterWord(x)]
    case OrReg(x, y) => ["OR", RegisterWord(x), RegisterWord(y)]
    case AndReg(x, y) => ["AND", RegisterWord(x), RegisterWord(y)]
    case XorReg(x, y) => ["XOR", RegisterWord(x), RegisterWord(y)]
    case SubReg(x, y) => ["SUB", RegisterWord(x), RegisterWord(y)]
    case SubNegReg(x, y) => ["SUBN", RegisterWord(x), RegisterWord(y)]
    case ShiftRight(x) => ["SHR", RegisterWord(x)]
    case ShiftLeft(x) => ["SHL", RegisterWord(x)]
    case Random(x, b) => ["RND", RegisterWord(x), ByteWord(b)]
    case Draw(x, y, n) => ["DRW", RegisterWord(x), RegisterWord(y), NibbleWord(n)]
    case SkipKeyPressed(x) => ["SKP", RegisterWord(x)]
    case SkipNotKeyPressed(x) => ["SKNP", RegisterWord(x)]
    case Unknown(_, _) => []
  }

  /** An instruction a listing can spell: not `Unknown`, registers at most VF, addresses below `ADDR_SPACE`, nibbles at most 15. */
  predicate Spellable(i: Instruction) {
    match i
    case Unknown(_, _) => false
    case ClearDisplay | Return | Exit => true
    case Jump(_) | JumpOffset(_) | Call(_) | LoadImmToPointer(_) => i.addr < ADDR_SPACE
    case Draw(x, y, n) => x <= NUM_REGISTERS && y <= NUM_REGISTERS && n <= 0xF
    case SkipRegEqualsReg(_, _) | SkipRegNotEqualsReg(_, _) | LoadRegToReg(_, _) | AddReg(_, _) | OrReg(_, _)
       | AndReg(_, _) | XorReg(_, _) | SubReg(_, _) | SubNegReg(_, _) =>
      i.x <= NUM_REGISTERS && i.y <= NUM_REGISTERS
    case _ => i.x <= NUM_REGISTERS
  }

  /** Uppercase letters, digits and brackets are left alone by uppercasing. */
  lemma {:induction false} UpperWordUnchanged(s: string)
    requires forall k | 0 <= k < |s| :: ('A' <= s[k] <= 'Z') || ('0' <= s[k] <= '9') || s[k] == '[' || s[k] == ']'
    ensures ToUpper(s) == s
  {
    if s != [] {
      UpperWordUnchanged(s[1..]);
      assert s == [s[0]] + s[1..];
    }
  }

  /** A digit's character is a decimal digit, or a lowercase letter in radix 16. */
  lemma DigitCharRange(d: nat, b: Radix.Base)
    requires d < Radix.Size(b)
    ensures var c := Radix.DigitChar(d, b); ('0' <= c <= '9') || (b == Radix.Hex && 'a' <= c <= 'f')
  {
  }

  /** The formatted digits are decimal digits, or lowercase hexadecimal letters in radix 16. */
  lemma {:induction false} FormatRadixChars(n: nat, b: Radix.Base)
    ensures var s := Radix.FormatRadix(n, b);
      forall k | 0 <= k < |s| :: ('0' <= s[k] <= '9') || (b == Radix.Hex && 'a' <= s[k] <= 'f')
    decreases n
  {
    if n < Radix.Size(b) {
      DigitCharRange(n, b);
    } else {
      var q, d := Radix.Quotient(n, b), Radix.Remainder(n, b);
      FormatRadixChars(q, b);
      DigitCharRange(d, b);
      assert Radix.FormatRadix(n, b) == Radix.FormatRadix(q, b) + [Radix.DigitChar(d, b)];
    }
  }

  /** A register word reads back as its register and is none of the keywords an operand is tested against first. */
  lemma RegisterWordParses(x: nat)
    requires x <= NUM_REGISTERS
    ensures Register(RegisterWord(x)) == Success(x)
    ensures ToUpper(RegisterWord(x)) !in {"DT", "K", "[I]", "I"}
  {
    RegisterRoundTrip(x);
    UpperStartsWithV(RegisterWord(x));
  }

  /** A byte word reads back as its byte, and is neither a register nor a keyword. */
  lemma ByteWordParses(b: nat)
    requires b <= 0xFF
    ensures ByteLiteral(ByteWord(b)) == Success(b)
    ensures Register(ByteWord(b)).Failure?
    ensures ToUpper(ByteWord(b)) !in {"DT", "K", "[I]"}
  {
    var w := ByteWord(b);
    ByteRoundTrip(b);
    FormatRadixChars(b, Radix.Decimal);
    UpperWordUnchanged(w);
    UpperStartsWithV(w);
  }

  /** A keyword of a listing is its own uppercase form, and no register unless it is `V0`. */
  lemma Keyword(k: string)
    requires k in {"DT", "K", "[I]", "I", "ST", "F", "B", "V0"}
    ensures ToUpper(k) == k
    ensures k != "V0" ==> Register(k).Failure?
  {
    UpperWordUnchanged(k);
    KeywordIsNotRegister(k);
  }

  /** Every mnemonic's spelling is its own uppercase form, so `parse_instruction` recognises it. */
  lemma MnemonicWord(m: Mnemonic)
    ensures MnemonicOf(ToUpper(Spelling(m))) == Some(m)
  {
    UpperWordUnchanged(Spelling(m));
    MnemonicOfSpelling(m);
  }

  /** A line whose first word spells a mnemonic goes to that mnemonic's operand parser with the rest. */
  lemma Dispatch(line: string, m: Mnemonic, operands: seq<string>, lineNum: nat)
    ensures ParseWords(line, [Spelling(m)] + operands, lineNum) == Operands(line, operands, lineNum, m)
  {
    MnemonicWord(m);
    assert ([Spelling(m)] + operands)[1..] == operands;
  }

  /** The operand parser `parse_instruction` calls for `CLS`, `RET`, `EXIT`, `JP`, `CALL`, `SE`, `SNE`, `LD` and `ADD`. */
  lemma OperandsOf(line: string, operands: seq<string>, lineNum: nat, m: Mnemonic)
    ensures m == CLS ==> Operands(line, operands, lineNum, m) == Success(ClearDisplay)
    ensures m == RET ==> Operands(line, operands, lineNum, m) == Success(Return)
    ensures m == EXIT ==> Operands(line, operands, lineNum, m) == Success(Exit)
    ensures m == JP ==> Operands(line, operands, lineNum, m) == GetJp(line, operands, lineNum)
    ensures m == CALL ==> Operands(line, operands, lineNum, m) == GetCall(line, operands, lineNum)
    ensures m == SE ==>
      Operands(line, operands, lineNum, m) ==
      GetSkip(line, operands, lineNum, m, (x: U8, y: U8) => SkipRegEqualsReg(x, y), (x: U8, b: U8) => SkipRegEqualsImm(x, b))
    ensures m == SNE ==>
      Operands(line, operands, lineNum, m) ==
      GetSkip(line, operands, lineNum, m, (x: U8, y: U8) => SkipRegNotEqualsReg(x, y), (x: U8, b: U8) => SkipRegNotEqualsImm(x, b))
    ensures m == LD ==> Operands(line, operands, lineNum, m) == GetLd(line, operands, lineNum)
    ensures m == ADD ==> Operands(line, operands, lineNum, m) == GetAdd(line, operands, lineNum)
  {
  }

  /** The operand parser `parse_instruction` calls for the register-only mnemonics, `RND` and `DRW`. */
  lemma RegisterOperandsOf(line: string, operands: seq<string>, lineNum: nat, m: Mnemonic)
    ensures m == OR ==> Operands(line, operands, lineNum, m) == GetTwoRegisters(line, operands, lineNum, m, (x: U8, y: U8) => OrReg(x, y))
    ensures m == AND ==> Operands(line, operands, lineNum, m) == GetTwoRegisters(line, operands, lineNum, m, (x: U8, y: U8) => AndReg(x, y))
    ensures m == XOR ==> Operands(line, operands, lineNum, m) == GetTwoRegisters(line, operands, lineNum, m, (x: U8, y: U8) => XorReg(x, y))
    ensures m == SUB ==> Operands(line, operands, lineNum, m) == GetTwoRegisters(line, operands, lineNum, m, (x: U8, y: U8) => SubReg(x, y))
    ensures m == SUBN ==> Operands(line, operands, lineNum, m) == GetTwoRegisters(line, operands, lineNum, m, (x: U8, y: U8) => SubNegReg(x, y))
    ensures m == SHR ==> Operands(line, operands, lineNum, m) == GetOneRegister(line, operands, lineNum, m, (x: U8) => ShiftRight(x))
    ensures m == SHL ==> Operands(line, operands, lineNum, m) == GetOneRegister(line, operands, lineNum, m, (x: U8) => ShiftLeft(x))
    ensures m == SKP ==> Operands(line, operands, lineNum, m) == GetOneRegister(line, operands, lineNum, m, (x: U8) => SkipKeyPressed(x))
    ensures m == SKNP ==> Operands(line, operands, lineNum, m) == GetOneRegister(line, operands, lineNum, m, (x: U8) => SkipNotKeyPressed(x))
    ensures m == RND ==> Operands(line, operands, lineNum, m) == GetRnd(line, operands, lineNum)
    ensures m == DRW ==> Operands(line, operands, lineNum, m) == GetDrw(line, operands, lineNum)
  {
  }

  /** `CLS` reads back as `ClearDisplay`. */
  lemma ClearDisplayParses(line: string, lineNum: nat)
    ensures ParseWords(line, Spell(ClearDisplay), lineNum) == Success(ClearDisplay)
  {
    var operands := [];
    assert Spell(ClearDisplay) == [Spelling(CLS)] + operands;
    Dispatch(line, CLS, operands, lineNum);
    OperandsOf(line, operands, lineNum, CLS);
  }

  /** `RET` reads back as `Return`. */
  lemma ReturnParses(line: string, lineNum: nat)
    ensures ParseWords(line, Spell(Return), lineNum) == Success(Return)
  {
    var operands := [];
    assert Spell(Return) == [Spelling(RET)] + operands;
    Dispatch(line, RET, operands, lineNum);
    OperandsOf(line, operands, lineNum, RET);
  }

  /** `EXIT` reads back as `Exit`. */
  lemma ExitParses(line: string, lineNum: nat)
    ensures ParseWords(line, Spell(Exit), lineNum) == Success(Exit)
  {
    var operands := [];
    assert Spell(Exit) == [Spelling(EXIT)] + operands;
    Dispatch(line, EXIT, operands, lineNum);
    OperandsOf(line, operands, lineNum, EXIT);
  }

  /** `JP addr` reads back as `Jump(a)`. */
  lemma JumpParses(line: string, a: U16, lineNum: nat)
    requires a < ADDR_SPACE
    ensures ParseWords(line, Spell(Jump(a)), lineNum) == Success(Jump(a))
  {
    var operands := [AddressWord(a)];
    assert Spell(Jump(a)) == [Spelling(JP)] + operands;
    Dispatch(line, JP, operands, lineNum);
    OperandsOf(line, operands, lineNum, JP);
    AddressRoundTrip(a);
  }

  /** `JP V0 addr` reads back as `JumpOffset(a)`. */
  lemma JumpOffsetParses(line: string, a: U16, lineNum: nat)
    requires a < ADDR_SPACE
    ensures ParseWords(line, Spell(JumpOffset(a)), lineNum) == Success(JumpOffset(a))
  {
    var operands := ["V0", AddressWord(a)];
    assert Spell(JumpOffset(a)) == [Spelling(JP)] + operands;
    Dispatch(line, JP, operands, lineNum);
    OperandsOf(line, operands, lineNum, JP);
    Keyword("V0");
    AddressRoundTrip(a);
  }

  /** `CALL addr` reads back as `Call(a)`. */
  lemma CallParses(line: string, a: U16, lineNum: nat)
    requires a < ADDR_SPACE
    ensures ParseWords(line, Spell(Call(a)), lineNum) == Success(Call(a))
  {
    var operands := [AddressWord(a)];
    assert Spell(Call(a)) == [Spelling(CALL)] + operands;
    Dispatch(line, CALL, operands, lineNum);
    OperandsOf(line, operands, lineNum, CALL);
    AddressRoundTrip(a);
  }

  /** `SE Vx byte` reads back as `SkipRegEqualsImm(x, b)`. */
  lemma SkipRegEqualsImmParses(line: string, x: U8, b: U8, lineNum: nat)
    requires x <= NUM_REGISTERS
    ensures ParseWords(line, Spell(SkipRegEqualsImm(x, b)), lineNum) == Success(SkipRegEqualsImm(x, b))
  {
    var operands := [RegisterWord(x), ByteWord(b)];
    assert Spell(SkipRegEqualsImm(x, b)) == [Spelling(SE)] + operands;
    Dispatch(line, SE, operands, lineNum);
    OperandsOf(line, operands, lineNum, SE);
    RegisterWordParses(x);
    ByteWordParses(b);
  }

  /** `SE Vx Vy` reads back as `SkipRegEqualsReg(x, y)`. */
  lemma SkipRegEqualsRegParses(line: string, x: U8, y: U8, lineNum: nat)
    requires x <= NUM_REGISTERS && y <= NUM_REGISTERS
    ensures ParseWords(line, Spell(SkipRegEqualsReg(x, y)), lineNum) == Success(SkipRegEqualsReg(x, y))
  {
    var operands := [RegisterWord(x), RegisterWord(y)];
    assert Spell(SkipRegEqualsReg(x, y)) == [Spelling(SE)] + operands;
    Dispatch(line, SE, operands, lineNum);
    OperandsOf(line, operands, lineNum, SE);
    RegisterWordParses(x);
    RegisterWordParses(y);
  }

  /** `SNE Vx byte` reads back as `SkipRegNotEqualsImm(x, b)`. */
  lemma SkipRegNotEqualsImmParses(line: string, x: U8, b: U8, lineNum: nat)
    requires x <= NUM_REGISTERS
    ensures ParseWords(line, Spell(SkipRegNotEqualsImm(x, b)), lineNum) == Success(SkipRegNotEqualsImm(x, b))
  {
    var operands := [RegisterWord(x), ByteWord(b)];
    assert Spell(SkipRegNotEqualsImm(x, b)) == [Spelling(SNE)] + operands;
    Dispatch(line, SNE, operands, lineNum);
    OperandsOf(line, operands, lineNum, SNE);
    RegisterWordParses(x);
    ByteWordParses(b);
  }

  /** `SNE Vx Vy` reads back as `SkipRegNotEqualsReg(x, y)`. */
  lemma SkipRegNotEqualsRegParses(line: string, x: U8, y: U8, lineNum: nat)
    requires x <= NUM_REGISTERS && y <= NUM_REGISTERS
    ensures ParseWords(line, Spell(SkipRegNotEqualsReg(x, y)), lineNum) == Success(SkipRegNotEqualsReg(x, y))
  {
    var operands := [RegisterWord(x), RegisterWord(y)];
    assert Spell(SkipRegNotEqualsReg(x, y)) == [Spelling(SNE)] + operands;
    Dispatch(line, SNE, operands, lineNum);
    OperandsOf(line, operands, lineNum, SNE);
    RegisterWordParses(x);
    RegisterWordParses(y);
  }

  /** `LD Vx byte` reads back as `LoadImmToReg(x, b)`. */
  lemma LoadImmToRegParses(line: string, x: U8, b: U8, lineNum: nat)
    requires x <= NUM_REGISTERS
    ensures ParseWords(line, Spell(LoadImmToReg(x, b)), lineNum) == Success(LoadImmToReg(x, b))
  {
    var operands := [RegisterWord(x), ByteWord(b)];
    assert Spell(LoadImmToReg(x, b)) == [Spelling(LD)] + operands;
    Dispatch(line, LD, operands, lineNum);
    OperandsOf(line, operands, lineNum, LD);
    RegisterWordParses(x);
    ByteWordParses(b);
  }

  /** `LD Vx Vy` reads back as `LoadRegToReg(x, y)`. */
  lemma LoadRegToRegParses(line: string, x: U8, y: U8, lineNum: nat)
    requires x <= NUM_REGISTERS && y <= NUM_REGISTERS
    ensures ParseWords(line, Spell(LoadRegToReg(x, y)), lineNum) == Success(LoadRegToReg(x, y))
  {
    var operands := [RegisterWord(x), RegisterWord(y)];
    assert Spell(LoadRegToReg(x, y)) == [Spelling(LD)] + operands;
    Dispatch(line, LD, operands, lineNum);
    OperandsOf(line, operands, lineNum, LD);
    RegisterWordParses(x);
    RegisterWordParses(y);
  }

  /** `LD I addr` reads back as `LoadImmToPointer(a)`. */
  lemma LoadImmToPointerParses(line: string, a: U16, lineNum: nat)
    requires a < ADDR_SPACE
    ensures ParseWords(line, Spell(LoadImmToPointer(a)), lineNum) == Success(LoadImmToPointer(a))
  {
    var operands := ["I", AddressWord(a)];
    assert Spell(LoadImmToPointer(a)) == [Spelling(LD)] + operands;
    Dispatch(line, LD, operands, lineNum);
    OperandsOf(line, operands, lineNum, LD);
    Keyword("I");
    AddressRoundTrip(a);
  }

  /** `LD Vx DT` reads back as `LoadDelayTimerToReg(x)`. */
  lemma LoadDelayTimerToRegParses(line: string, x: U8, lineNum: nat)
    requires x <= NUM_REGISTERS
    ensures ParseWords(line, Spell(LoadDelayTimerToReg(x)), lineNum) == Success(LoadDelayTimerToReg(x))
  {
    var operands := [RegisterWord(x), "DT"];
    assert Spell(LoadDelayTimerToReg(x)) == [Spelling(LD)] + operands;
    Dispatch(line, LD, operands, lineNum);
    OperandsOf(line, operands, lineNum, LD);
    Keyword("DT");
    RegisterWordParses(x);
  }

  /** `LD Vx K` reads back as `LoadNextKeyPress(x)`. */
  lemma LoadNextKeyPressParses(line: string, x: U8, lineNum: nat)
    requires x <= NUM_REGISTERS
    ensures ParseWords(line, Spell(LoadNextKeyPress(x)), lineNum) == Success(LoadNextKeyPress(x))
  {
    var operands := [RegisterWord(x), "K"];
    assert Spell(LoadNextKeyPress(x)) == [Spelling(LD)] + operands;
    Dispatch(line, LD, operands, lineNum);
    OperandsOf(line, operands, lineNum, LD);
    Keyword("K");
    RegisterWordParses(x);
  }

  /** `LD Vx [I]` reads back as `ReadRegFromPointer(x)`. */
  lemma ReadRegFromPointerParses(line: string, x: U8, lineNum: nat)
    requires x <= NUM_REGISTERS
    ensures ParseWords(line, Spell(ReadRegFromPointer(x)), lineNum) == Success(ReadRegFromPointer(x))
  {
    var operands := [RegisterWord(x), "[I]"];
    assert Spell(ReadRegFromPointer(x)) == [Spelling(LD)] + operands;
    Dispatch(line, LD, operands, lineNum);
    OperandsOf(line, operands, lineNum, LD);
    Keyword("[I]");
    RegisterWordParses(x);
  }

  /** `LD DT Vx` reads back as `LoadRegToDelayTimer(x)`. */
  lemma LoadRegToDelayTimerParses(line: string, x: U8, lineNum: nat)
    requires x <= NUM_REGISTERS
    ensures ParseWords(line, Spell(LoadRegToDelayTimer(x)), lineNum) == Success(LoadRegToDelayTimer(x))
  {
    var operands := ["DT", RegisterWord(x)];
    assert Spell(LoadRegToDelayTimer(x)) == [Spelling(LD)] + operands;
    Dispatch(line, LD, operands, lineNum);
    OperandsOf(line, operands, lineNum, LD);
    Keyword("DT");
    RegisterWordParses(x);
  }

  /** `LD ST Vx` reads back as `LoadRegToSoundTimer(x)`. */
  lemma LoadRegToSoundTimerParses(line: string, x: U8, lineNum: nat)
    requires x <= NUM_REGISTERS
    ensures ParseWords(line, Spell(LoadRegToSoundTimer(x)), lineNum) == Success(LoadRegToSoundTimer(x))
  {
    var operands := ["ST", RegisterWord(x)];
    assert Spell(LoadRegToSoundTimer(x)) == [Spelling(LD)] + operands;
    Dispatch(line, LD, operands, lineNum);
    OperandsOf(line, operands, lineNum, LD);
    Keyword("ST");
    RegisterWordParses(x);
  }

  /** `LD F Vx` reads back as `LoadDigitSpriteToPointer(x)`. */
  lemma LoadDigitSpriteToPointerParses(line: string, x: U8, lineNum: nat)
    requires x <= NUM_REGISTERS
    ensures ParseWords(line, Spell(LoadDigitSpriteToPointer(x)), lineNum) == Success(LoadDigitSpriteToPointer(x))
  {
    var operands := ["F", RegisterWord(x)];
    assert Spell(LoadDigitSpriteToPointer(x)) == [Spelling(LD)] + operands;
    Dispatch(line, LD, operands, lineNum);
    OperandsOf(line, operands, lineNum, LD);
    Keyword("F");
    RegisterWordParses(x);
  }

  /** `LD B Vx` reads back as `LoadDecimalDigitsToPointer(x)`. */
  lemma LoadDecimalDigitsToPointerParses(line: string, x: U8, lineNum: nat)
    requires x <= NUM_REGISTERS
    ensures ParseWords(line, Spell(LoadDecimalDigitsToPointer(x)), lineNum) == Success(LoadDecimalDigitsToPointer(x))
  {
    var operands := ["B", RegisterWord(x)];
    assert Spell(LoadDecimalDigitsToPointer(x)) == [Spelling(LD)] + operands;
    Dispatch(line, LD, operands, lineNum);
    OperandsOf(line, operands, lineNum, LD);
    Keyword("B");
    RegisterWordParses(x);
  }

  /** `LD [I] Vx` reads back as `WriteRegToPointer(x)`. */
  lemma WriteRegToPointerParses(line: string, x: U8, lineNum: nat)
    requires x <= NUM_REGISTERS
    ensures ParseWords(line, Spell(WriteRegToPointer(x)), lineNum) == Success(WriteRegToPointer(x))
  {
    var operands := ["[I]", RegisterWord(x)];
    assert Spell(WriteRegToPointer(x)) == [Spelling(LD)] + operands;
    Dispatch(line, LD, operands, lineNum);
    OperandsOf(line, operands, lineNum, LD);
    Keyword("[I]");
    RegisterWordParses(x);
  }

  /** `ADD Vx byte` reads back as `AddImmToReg(x, b)`. */
  lemma AddImmToRegParses(line: string, x: U8, b: U8, lineNum: nat)
    requires x <= NUM_REGISTERS
    ensures ParseWords(line, Spell(AddImmToReg(x, b)), lineNum) == Success(AddImmToReg(x, b))
  {
    var operands := [RegisterWord(x), ByteWord(b)];
    assert Spell(AddImmToReg(x, b)) == [Spelling(ADD)] + operands;
    Dispatch(line, ADD, operands, lineNum);
    OperandsOf(line, operands, lineNum, ADD);
    RegisterWordParses(x);
    ByteWordParses(b);
  }

  /** `ADD Vx Vy` reads back as `AddReg(x, y)`. */
  lemma AddRegParses(line: string, x: U8, y: U8, lineNum: nat)
    requires x <= NUM_REGISTERS && y <= NUM_REGISTERS
    ensures ParseWords(line, Spell(AddReg(x, y)), lineNum) == Success(AddReg(x, y))
  {
    var operands := [RegisterWord(x), RegisterWord(y)];
    assert Spell(AddReg(x, y)) == [Spelling(ADD)] + operands;
    Dispatch(line, ADD, operands, lineNum);
    OperandsOf(line, operands, lineNum, ADD);
    RegisterWordParses(x);
    RegisterWordParses(y);
  }

  /** `ADD I Vx` reads back as `AddRegToPointer(x)`. */
  lemma AddRegToPointerParses(line: string, x: U8, lineNum: nat)
    requires x <= NUM_REGISTERS
    ensures ParseWords(line, Spell(AddRegToPointer(x)), lineNum) == Success(AddRegToPointer(x))
  {
    var operands := ["I", RegisterWord(x)];
    assert Spell(AddRegToPointer(x)) == [Spelling(ADD)] + operands;
    Dispatch(line, ADD, operands, lineNum);
    OperandsOf(line, operands, lineNum, ADD);
    Keyword("I");
    RegisterWordParses(x);
  }

  /** `OR Vx Vy` reads back as `OrReg(x, y)`. */
  lemma OrRegParses(line: string, x: U8, y: U8, lineNum: nat)
    requires x <= NUM_REGISTERS && y <= NUM_REGISTERS
    ensures ParseWords(line, Spell(OrReg(x, y)), lineNum) == Success(OrReg(x, y))
  {
    var operands := [RegisterWord(x), RegisterWord(y)];
    assert Spell(OrReg(x, y)) == [Spelling(OR)] + operands;
    Dispatch(line, OR, operands, lineNum);
    RegisterOperandsOf(line, operands, lineNum, OR);
    RegisterWordParses(x);
    RegisterWordParses(y);
  }

  /** `AND Vx Vy` reads back as `AndReg(x, y)`. */
  lemma AndRegParses(line: string, x: U8, y: U8, lineNum: nat)
    requires x <= NUM_REGISTERS && y <= NUM_REGISTERS
    ensures ParseWords(line, Spell(AndReg(x, y)), lineNum) == Success(AndReg(x, y))
  {
    var operands := [RegisterWord(x), RegisterWord(y)];
    assert Spell(AndReg(x, y)) == [Spelling(AND)] + operands;
    Dispatch(line, AND, operands, lineNum);
    RegisterOperandsOf(line, operands, lineNum, AND);
    RegisterWordParses(x);
    RegisterWordParses(y);
  }

  /** `XOR Vx Vy` reads back as `XorReg(x, y)`. */
  lemma XorRegParses(line: string, x: U8, y: U8, lineNum: nat)
    requires x <= NUM_REGISTERS && y <= NUM_REGISTERS
    ensures ParseWords(line, Spell(XorReg(x, y)), lineNum) == Success(XorReg(x, y))
  {
    var operands := [RegisterWord(x), RegisterWord(y)];
    assert Spell(XorReg(x, y)) == [Spelling(XOR)] + operands;
    Dispatch(line, XOR, operands, lineNum);
    RegisterOperandsOf(line, operands, lineNum, XOR);
    RegisterWordParses(x);
    RegisterWordParses(y);
  }

  /** `SUB Vx Vy` reads back as `SubReg(x, y)`. */
  lemma SubRegParses(line: string, x: U8, y: U8, lineNum: nat)
    requires x <= NUM_REGISTERS && y <= NUM_REGISTERS
    ensures ParseWords(line, Spell(SubReg(x, y)), lineNum) == Success(SubReg(x, y))
  {
    var operands := [RegisterWord(x), RegisterWord(y)];
    assert Spell(SubReg(x, y)) == [Spelling(SUB)] + operands;
    Dispatch(line, SUB, operands, lineNum);
    RegisterOperandsOf(line, operands, lineNum, SUB);
    RegisterWordParses(x);
    RegisterWordParses(y);
  }

  /** `SUBN Vx Vy` reads back as `SubNegReg(x, y)`. */
  lemma SubNegRegParses(line: string, x: U8, y: U8, lineNum: nat)
    requires x <= NUM_REGISTERS && y <= NUM_REGISTERS
    ensures ParseWords(line, Spell(SubNegReg(x, y)), lineNum) == Success(SubNegReg(x, y))
  {
    var operands := [RegisterWord(x), RegisterWord(y)];
    assert Spell(SubNegReg(x, y)) == [Spelling(SUBN)] + operands;
    Dispatch(line, SUBN, operands, lineNum);
    RegisterOperandsOf(line, operands, lineNum, SUBN);
    RegisterWordParses(x);
    RegisterWordParses(y);
  }

  /** `SHR Vx` reads back as `ShiftRight(x)`. */
  lemma ShiftRightParses(line: string, x: U8, lineNum: nat)
    requires x <= NUM_REGISTERS
    ensures ParseWords(line, Spell(ShiftRight(x)), lineNum) == Success(ShiftRight(x))
  {
    var operands := [RegisterWord(x)];
    assert Spell(ShiftRight(x)) == [Spelling(SHR)] + operands;
    Dispatch(line, SHR, operands, lineNum);
    RegisterOperandsOf(line, operands, lineNum, SHR);
    RegisterWordParses(x);
  }

  /** `SHL Vx` reads back as `ShiftLeft(x)`. */
  lemma ShiftLeftParses(line: string, x: U8, lineNum: nat)
    requires x <= NUM_REGISTERS
    ensures ParseWords(line, Spell(ShiftLeft(x)), lineNum) == Success(ShiftLeft(x))
  {
    var operands := [RegisterWord(x)];
    assert Spell(ShiftLeft(x)) == [Spelling(SHL)] + operands;
    Dispatch(line, SHL, operands, lineNum);
    RegisterOperandsOf(line, operands, lineNum, SHL);
    RegisterWordParses(x);
  }

  /** `RND Vx byte` reads back as `Random(x, b)`. */
  lemma RandomParses(line: string, x: U8, b: U8, lineNum: nat)
    requires x <= NUM_REGISTERS
    ensures ParseWords(line, Spell(Random(x, b)), lineNum) == Success(Random(x, b))
  {
    var operands := [RegisterWord(x), ByteWord(b)];
    assert Spell(Random(x, b)) == [Spelling(RND)] + operands;
    Dispatch(line, RND, operands, lineNum);
    RegisterOperandsOf(line, operands, lineNum, RND);
    RegisterWordParses(x);
    ByteWordParses(b);
  }

  /** `DRW Vx Vy nibble` reads back as `Draw(x, y, n)`. */
  lemma DrawParses(line: string, x: U8, y: U8, n: U8, lineNum: nat)
    requires x <= NUM_REGISTERS && y <= NUM_REGISTERS && n <= 0xF
    ensures ParseWords(line, Spell(Draw(x, y, n)), lineNum) == Success(Draw(x, y, n))
  {
    var operands := [RegisterWord(x), RegisterWord(y), NibbleWord(n)];
    assert Spell(Draw(x, y, n)) == [Spelling(DRW)] + operands;
    Dispatch(line, DRW, operands, lineNum);
    RegisterOperandsOf(line, operands, lineNum, DRW);
    RegisterWordParses(x);
    RegisterWordParses(y);
    NibbleRoundTrip(n);
  }

  /** `SKP Vx` reads back as `SkipKeyPressed(x)`. */
  lemma SkipKeyPressedParses(line: string, x: U8, lineNum: nat)
    requires x <= NUM_REGISTERS
    ensures ParseWords(line, Spell(SkipKeyPressed(x)), lineNum) == Success(SkipKeyPressed(x))
  {
    var operands := [RegisterWord(x)];
    assert Spell(SkipKeyPressed(x)) == [Spelling(SKP)] + operands;
    Dispatch(line, SKP, operands, lineNum);
    RegisterOperandsOf(line, operands, lineNum, SKP);
    RegisterWordParses(x);
  }

  /** `SKNP Vx` reads back as `SkipNotKeyPressed(x)`. */
  lemma SkipNotKeyPressedParses(line: string, x: U8, lineNum: nat)
    requires x <= NUM_REGISTERS
    ensures ParseWords(line, Spell(SkipNotKeyPressed(x)), lineNum) == Success(SkipNotKeyPressed(x))
  {
    var operands := [RegisterWord(x)];
    assert Spell(SkipNotKeyPressed(x)) == [Spelling(SKNP)] + operands;
    Dispatch(line, SKNP, operands, lineNum);
    RegisterOperandsOf(line, operands, lineNum, SKNP);
    RegisterWordParses(x);
  }

  /**
    * The dispatch of `parse_instruction`: the words a listing writes for an
    * instruction parse back as that instruction, so each mnemonic builds its
    * own instruction with its operands in order.
    */
  lemma SpellParses(line: string, i: Instruction, lineNum: nat)
    requires Spellable(i)
    ensures ParseWords(line, Spell(i), lineNum) == Success(i)
  {
    match i
    case ClearDisplay => ClearDisplayParses(line, lineNum);
    case Return => ReturnParses(line, lineNum);
    case Exit => ExitParses(line, lineNum);
    case Jump(a) => JumpParses(line, a, lineNum);
    case JumpOffset(a) => JumpOffsetParses(line, a, lineNum);
    case Call(a) => CallParses(line, a, lineNum);
    case SkipRegEqualsImm(x, b) => SkipRegEqualsImmParses(line, x, b, lineNum);
    case SkipRegEqualsReg(x, y) => SkipRegEqualsRegParses(line, x, y, lineNum);
    case SkipRegNotEqualsImm(x, b) => SkipRegNotEqualsImmParses(line, x, b, lineNum);
    case SkipRegNotEqualsReg(x, y) => SkipRegNotEqualsRegParses(line, x, y, lineNum);
    case LoadImmToReg(x, b) => LoadImmToRegParses(line, x, b, lineNum);
    case LoadRegToReg(x, y) => LoadRegToRegParses(line, x, y, lineNum);
    case LoadImmToPointer(a) => LoadImmToPointerParses(line, a, lineNum);
    case LoadDelayTimerToReg(x) => LoadDelayTimerToRegParses(line, x, lineNum);
    case LoadNextKeyPress(x) => LoadNextKeyPressParses(line, x, lineNum);
    case ReadRegFromPointer(x) => ReadRegFromPointerParses(line, x, lineNum);
    case LoadRegToDelayTimer(x) => LoadRegToDelayTimerParses(line, x, lineNum);
    case LoadRegToSoundTimer(x) => LoadRegToSoundTimerParses(line, x, lineNum);
    case LoadDigitSpriteToPointer(x) => LoadDigitSpriteToPointerParses(line, x, lineNum);
    case LoadDecimalDigitsToPointer(x) => LoadDecimalDigitsToPointerParses(line, x, lineNum);
    case WriteRegToPointer(x) => WriteRegToPointerParses(line, x, lineNum);
    case AddImmToReg(x, b) => AddImmToRegParses(line, x, b, lineNum);
    case AddReg(x, y) => AddRegParses(line, x, y, lineNum);
    case AddRegToPointer(x) => AddRegToPointerParses(line, x, lineNum);
    case OrReg(x, y) => OrRegParses(line, x, y, lineNum);
    case AndReg(x, y) => AndRegParses(line, x, y, lineNum);
    case XorReg(x, y) => XorRegParses(line, x, y, lineNum);
    case SubReg(x, y) => SubRegParses(line, x, y, lineNum);
    case SubNegReg(x, y) => SubNegRegParses(line, x, y, lineNum);
    case ShiftRight(x) => ShiftRightParses(line, x, lineNum);
    case ShiftLeft(x) => ShiftLeftParses(line, x, lineNum);
    case Random(x, b) => RandomParses(line, x, b, lineNum);
    case Draw(x, y, n) => DrawParses(line, x, y, n, lineNum);
    case SkipKeyPressed(x) => SkipKeyPressedParses(line, x, lineNum);
    case SkipNotKeyPressed(x) => SkipNotKeyPressedParses(line, x, lineNum);
  }

  /** Every word a listing writes for an instruction is a listing word. */
  lemma SpellWords(i: Instruction)
    ensures forall k | 0 <= k < |Spell(i)| :: ListingWord(Spell(i)[k])
  {
    MnemonicsAreWords();
    KeywordsAreWords();
  }

  /** The mnemonics are listing words. */
  lemma MnemonicsAreWords()
    ensures ListingWord("CLS") && ListingWord("RET") && ListingWord("EXIT") && ListingWord("JP")
    ensures ListingWord("CALL") && ListingWord("SE") && ListingWord("SNE") && ListingWord("LD")
    ensures ListingWord("ADD") && ListingWord("OR") && ListingWord("AND") && ListingWord("XOR")
    ensures ListingWord("SUB") && ListingWord("SUBN") && ListingWord("SHR") && ListingWord("SHL")
    ensures ListingWord("RND") && ListingWord("DRW") && ListingWord("SKP") && ListingWord("SKNP")
  {
  }

  /** The keywords are listing words. */
  lemma KeywordsAreWords()
    ensures ListingWord("V0") && ListingWord("I") && ListingWord("DT") && ListingWord("K")
    ensures ListingWord("[I]") && ListingWord("ST") && ListingWord("F") && ListingWord("B")
  {
  }

  /** A listing word has no whitespace and does not end in `,`. */
  lemma ListingWordIsPlain(w: string)
    requires ListingWord(w)
    ensures NoWhitespace(w) && !EndsWith(w, ",") && !EndsWith(w, ":")
  {
    assert w[|w| - 1 ..][0] == w[|w| - 1];
  }

  /** Listing words joined by spaces hold only listing characters and spaces. */
  lemma {:induction false} JoinListingWords(words: seq<string>)
    requires forall k | 0 <= k < |words| :: ListingWord(words[k])
    ensures forall k | 0 <= k < |JoinSpaces(words)| :: ListingChar(JoinSpaces(words)[k]) || JoinSpaces(words)[k] == ' '
  {
    if |words| == 1 {
      assert ListingWord(words[0]);
    } else if |words| > 1 {
      JoinListingWords(words[1..]);
      var first, rest := words[0], JoinSpaces(words[1..]);
      var line := first + " " + rest;
      assert JoinSpaces(words) == line;
      assert ListingWord(first);
      forall k | 0 <= k < |line| ensures ListingChar(line[k]) || line[k] == ' ' {
        if k < |first| {
          assert line[k] == first[k];
        } else if k == |first| {
          assert line[k] == ' ';
        } else {
          assert line[k] == rest[k - |first| - 1];
        }
      }
    }
  }

  /**
    * `parse_instruction` on a listing line: the words of an instruction,
    * joined by single spaces, parse back as the instruction.
    */
  lemma SpelledLineParses(i: Instruction, lineNum: nat)
    requires Spellable(i)
    ensures LineWords(JoinSpaces(Spell(i))) == Spell(i)
    ensures ParseInstruction(JoinSpaces(Spell(i)), lineNum) == Success(i)
  {
    var words := Spell(i);
    var line := JoinSpaces(words);
    SpellWords(i);
    JoinListingWords(words);
    assert forall k | 0 <= k < |line| :: line[k] != ';' && line[k] != '/' && line[k] != '#' && line[k] != '@';
    NoMarkerCharacters(line);
    forall k | 0 <= k < |words| ensures words[k] != [] && NoWhitespace(words[k]) && !EndsWith(words[k], ",") {
      ListingWordIsPlain(words[k]);
    }
    LineWordsOfJoinedWords(words);
    SpellParses(line, i, lineNum);
  }

  /** A line of listing words is no label, so `parse_line` hands it to `parse_instruction`. */
  lemma ListingLineIsInstruction(words: seq<string>)
    requires words != [] && forall k | 0 <= k < |words| :: ListingWord(words[k])
    requires LineWords(JoinSpaces(words)) == words
    ensures InstructionLine(JoinSpaces(words))
  {
    ListingWordIsPlain(words[0]);
  }

  /**
    * `parse_line` on a listing line: the line is no label, so it is the
    * instruction statement of the instruction it spells, at address 0.
    */
  lemma SpelledLineStatement(i: Instruction, lineNum: nat)
    requires Spellable(i)
    ensures ParseLine(JoinSpaces(Spell(i)), lineNum) == Success(Some(InstructionStatement(i, 0)))
  {
    SpelledLineParses(i, lineNum);
    SpellWords(i);
    assert Spell(i) != [];
    ListingLineIsInstruction(Spell(i));
  }
}
