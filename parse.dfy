/**
  * The line parser of the assembler (chip8-assembler/src/parse.rs): comment
  * stripping and word splitting, label detection, mnemonic dispatch with
  * exact operand counts, and the number, address, byte, nibble and register
  * literal parsers with their range checks.
  */
module Parse {
  import opened Wrappers
  import opened Text
  import opened Bits
  import opened Instructions
  import opened AssemblerErrors
  import Radix

  /** `ADDR_SPACE`: the CHIP-8 address space; address literals lie below it. */
  const ADDR_SPACE: nat := 0x1000

  /** `NUM_REGISTERS`: the highest register number. */
  const NUM_REGISTERS: nat := 0xF

  /** `COMMENT_STARTERS`, in the order they are stripped. */
  const COMMENT_STARTERS: seq<string> := [";", "//", "#", "@"]

  /** The statements this parser produces: a label or an instruction, at address 0. */
  datatype Statement =
    | Label(name: string, memAddr: U16)
    | InstructionStatement(instruction: Instruction, memAddr: U16)

  // ---------------------------------------------------------------------
  // Literals

  /**
    * The radix and the digit text of a number literal. A `0x` or `0b`
    * prefix, in either case, selects hexadecimal or binary: no other
    * characters lowercase to text starting with `0x` or `0b`.
    */
  function LiteralDigits(n: string): (r: (Radix.Base, string))
    ensures r.0 == Radix.Hex <==> StartsWith(n, "0x") || StartsWith(n, "0X")
    ensures r.0 == Radix.Binary <==> StartsWith(n, "0b") || StartsWith(n, "0B")
    ensures r.0 == Radix.Decimal ==> r.1 == n
    ensures r.0 != Radix.Decimal ==> |n| >= 2 && r.1 == n[2..]
  {
    if |n| >= 2 && n[0] == '0' && (n[1] == 'x' || n[1] == 'X') then (Radix.Hex, n[2..])
    else if |n| >= 2 && n[0] == '0' && (n[1] == 'b' || n[1] == 'B') then (Radix.Binary, n[2..])
    else (Radix.Decimal, n)
  }

  /** `try_parse_number_literal`: a `u64` in the radix the prefix selects. */
  function NumberLiteral(n: string): (r: Result<nat, AssemblerError>)
    ensures r.Failure? ==> r.error.srcLocation.None?
  {
    var (base, digits) := LiteralDigits(n);
    if digits == [] then Failure(NewMessage(EmptyNumber))
    else
      match Radix.FromStrRadix(digits, base, Radix.U64_MAX)
      case Success(v) => Success(v)
      case Failure(kind) => Failure(NewMessage(BadNumber(n, kind)))
  }

  /** `try_parse_addr_literal`: a number below `ADDR_SPACE`. */
  function AddressLiteral(n: string): (r: Result<U16, AssemblerError>)
    ensures r.Success? ==> r.value < ADDR_SPACE
    ensures r.Failure? ==> r.error.srcLocation.None?
  {
    var v :- NumberLiteral(n);
    if v < ADDR_SPACE then Success(v) else Failure(NewMessage(AddressTooLarge(n)))
  }

  /** `try_parse_byte_literal`: a number no larger than `u8::MAX`. */
  function ByteLiteral(n: string): (r: Result<U8, AssemblerError>)
    ensures r.Failure? ==> r.error.srcLocation.None?
  {
    var v :- NumberLiteral(n);
    if v <= Radix.U8_MAX then Success(v) else Failure(NewMessage(ByteTooLarge(n)))
  }

  /** `try_parse_nibble_literal`: a number no larger than 0xF. */
  function NibbleLiteral(n: string): (r: Result<U8, AssemblerError>)
    ensures r.Success? ==> r.value <= 0xF
    ensures r.Failure? ==> r.error.srcLocation.None?
  {
    var v :- NumberLiteral(n);
    if v <= 0xF then Success(v) else Failure(NewMessage(NibbleTooLarge(n)))
  }

  /** `try_parse_register`: `V` or `v`, then a hexadecimal `u8` no larger than `NUM_REGISTERS`. */
  function Register(text: string): (r: Result<U8, AssemblerError>)
    ensures r.Success? ==> r.value <= NUM_REGISTERS
    ensures r.Failure? ==> r.error.srcLocation.None?
  {
    if !StartsWith(ToUpper(text), "V") then Failure(NewMessage(NotARegister(text)))
    else
      var digits := text[1..];
      if digits == [] then Failure(NewMessage(MissingRegisterDigit))
      else
        match Radix.FromStrRadix(digits, Radix.Hex, Radix.U8_MAX)
        case Failure(kind) => Failure(NewMessage(BadRegister(kind, digits)))
        case Success(v) =>
          if v <= NUM_REGISTERS then Success(v) else Failure(NewMessage(RegisterTooLarge(text)))
  }

  /** A literal whose digits `from_str_radix` reads, whatever their value. */
  predicate WellFormedNumber(n: string) {
    var (base, digits) := LiteralDigits(n);
    Radix.IsNumeral(digits, base)
  }

  /** The value of a well-formed literal. */
  function NumberValue(n: string): nat
    requires WellFormedNumber(n)
  {
    var (base, digits) := LiteralDigits(n);
    Radix.NumeralValue(digits, base)
  }

  /** A number literal parses exactly when its digits are well formed and fit a `u64`, to their value. */
  lemma NumberLiteralSpec(n: string)
    ensures NumberLiteral(n).Success? <==> WellFormedNumber(n) && NumberValue(n) <= Radix.U64_MAX
    ensures NumberLiteral(n).Success? ==> NumberLiteral(n).value == NumberValue(n)
  {
    var (base, digits) := LiteralDigits(n);
    Radix.FromStrRadixSpec(digits, base, Radix.U64_MAX);
  }

  /** An address literal is accepted exactly when its value is below `ADDR_SPACE`. */
  lemma AddressLiteralRange(n: string)
    ensures AddressLiteral(n).Success? <==> WellFormedNumber(n) && NumberValue(n) < ADDR_SPACE
    ensures AddressLiteral(n).Success? ==> AddressLiteral(n).value == NumberValue(n)
  {
    NumberLiteralSpec(n);
  }

  /** A byte literal is accepted exactly when its value is at most 255. */
  lemma ByteLiteralRange(n: string)
    ensures ByteLiteral(n).Success? <==> WellFormedNumber(n) && NumberValue(n) <= 0xFF
    ensures ByteLiteral(n).Success? ==> ByteLiteral(n).value == NumberValue(n)
  {
    NumberLiteralSpec(n);
  }

  /** A nibble literal is accepted exactly when its value is at most 15. */
  lemma NibbleLiteralRange(n: string)
    ensures NibbleLiteral(n).Success? <==> WellFormedNumber(n) && NumberValue(n) <= 0xF
    ensures NibbleLiteral(n).Success? ==> NibbleLiteral(n).value == NumberValue(n)
  {
    NumberLiteralSpec(n);
  }

  /** Uppercase text starts with `V` exactly when the text starts with `V` or `v`. */
  lemma UpperStartsWithV(text: string)
    ensures StartsWith(ToUpper(text), "V") <==> text != [] && (text[0] == 'V' || text[0] == 'v')
  {
    if text != [] {
      assert ToUpper(text) == UpperChar(text[0]) + ToUpper(text[1..]);
      assert ToUpper(text)[0] == UpperChar(text[0])[0];
    }
  }

  /**
    * A register is accepted exactly when it is `V` or `v` followed by
    * hexadecimal digits, after one optional `+`, of value at most 0xF.
    */
  lemma RegisterRange(text: string)
    ensures Register(text).Success? <==>
      text != [] && (text[0] == 'V' || text[0] == 'v') &&
      Radix.IsNumeral(text[1..], Radix.Hex) && Radix.NumeralValue(text[1..], Radix.Hex) <= NUM_REGISTERS
    ensures Register(text).Success? ==> Register(text).value == Radix.NumeralValue(text[1..], Radix.Hex)
  {
    UpperStartsWithV(text);
    if text != [] {
      Radix.FromStrRadixSpec(text[1..], Radix.Hex, Radix.U8_MAX);
    }
  }

  /** A register operand is never also a byte literal, so trying the register form first loses nothing. */
  lemma RegisterIsNotByte(text: string)
    requires Register(text).Success?
    ensures ByteLiteral(text).Failure?
  {
    RegisterRange(text);
    ByteLiteralRange(text);
    assert LiteralDigits(text) == (Radix.Decimal, text);
    assert Radix.Unsigned(text) == text;
    assert Radix.DigitValue(text[0], Radix.Decimal).None?;
  }

  /** An address written as `0x` and its hexadecimal digits reads back as the address. */
  lemma AddressRoundTrip(a: nat)
    requires a < ADDR_SPACE
    ensures AddressLiteral("0x" + Radix.FormatRadix(a, Radix.Hex)) == Success(a)
  {
    var digits := Radix.FormatRadix(a, Radix.Hex);
    var n := "0x" + digits;
    assert LiteralDigits(n) == (Radix.Hex, digits) by {
      assert n[2..] == digits;
    }
    Radix.FormatThenParse(a, Radix.Hex, Radix.U64_MAX);
  }

  /** A byte written in decimal reads back as the byte. */
  lemma ByteRoundTrip(b: nat)
    requires b <= 0xFF
    ensures ByteLiteral(Radix.FormatRadix(b, Radix.Decimal)) == Success(b)
  {
    var n := Radix.FormatRadix(b, Radix.Decimal);
    Radix.FormatRadixValue(b, Radix.Decimal);
    assert LiteralDigits(n) == (Radix.Decimal, n) by {
      if |n| >= 2 && n[0] == '0' {
        assert Radix.DigitValue(n[1], Radix.Decimal).Some?;
      }
    }
    Radix.FormatThenParse(b, Radix.Decimal, Radix.U64_MAX);
  }

  /** A nibble written as `0b` and its binary digits reads back as the nibble. */
  lemma NibbleRoundTrip(v: nat)
    requires v <= 0xF
    ensures NibbleLiteral("0b" + Radix.FormatRadix(v, Radix.Binary)) == Success(v)
  {
    var digits := Radix.FormatRadix(v, Radix.Binary);
    var n := "0b" + digits;
    assert LiteralDigits(n) == (Radix.Binary, digits) by {
      assert n[2..] == digits;
    }
    Radix.FormatThenParse(v, Radix.Binary, Radix.U64_MAX);
  }

  /** Register `x` written as `V` and its hexadecimal digit reads back as `x`. */
  lemma RegisterRoundTrip(x: nat)
    requires x <= NUM_REGISTERS
    ensures Register("V" + Radix.FormatRadix(x, Radix.Hex)) == Success(x)
  {
    var digits := Radix.FormatRadix(x, Radix.Hex);
    var text := "V" + digits;
    assert text[1..] == digits;
    RegisterRange(text);
    Radix.FormatRadixValue(x, Radix.Hex);
    assert Radix.Unsigned(digits) == digits;
  }

  // ---------------------------------------------------------------------
  // Words

  /** The fold of `get_line_words`' loop over the comment markers: keep the text before each marker in turn. */
  function StripComments(line: string, starters: seq<string>): (code: string)
    ensures StartsWith(line, code)
  {
    if starters == [] then line
    else
      var rest := StripComments(Before(line, starters[0]), starters[1..]);
      PrefixOfPrefix(line, Before(line, starters[0]), rest);
      rest
  }

  /** A prefix of a prefix is a prefix. */
  lemma PrefixOfPrefix(a: string, b: string, c: string)
    requires StartsWith(a, b) && StartsWith(b, c)
    ensures StartsWith(a, c)
  {
    assert a[..|c|] == a[..|b|][..|c|];
  }

  /** A word with one trailing `,` removed. */
  function StripComma(word: string): (r: string)
    ensures EndsWith(word, ",") ==> r + "," == word
    ensures !EndsWith(word, ",") ==> r == word
  {
    if EndsWith(word, ",") then word[..|word| - 1] else word
  }

  /** The words of a line: those of the code before any comment, one trailing `,` removed from each. */
  function LineWords(line: string): (words: seq<string>)
    ensures var pieces := SplitWhitespace(StripComments(line, COMMENT_STARTERS));
      |words| == |pieces| && forall i | 0 <= i < |words| :: words[i] == StripComma(pieces[i])
  {
    var pieces := SplitWhitespace(StripComments(line, COMMENT_STARTERS));
    seq(|pieces|, i requires 0 <= i < |pieces| => StripComma(pieces[i]))
  }

  /** `get_line_words`: the loop cutting the line at each comment marker, then the word split. */
  method GetLineWords(line: string) returns (words: seq<string>)
    ensures words == LineWords(line)
  {
    var code := line;
    for k := 0 to |COMMENT_STARTERS|
      invariant StripComments(code, COMMENT_STARTERS[k..]) == StripComments(line, COMMENT_STARTERS)
    {
      assert COMMENT_STARTERS[k..][0] == COMMENT_STARTERS[k];
      assert COMMENT_STARTERS[k..][1..] == COMMENT_STARTERS[k + 1..];
      code := Before(code, COMMENT_STARTERS[k]);
    }
    var pieces := SplitWhitespace(code);
    words := seq(|pieces|, i requires 0 <= i < |pieces| => StripComma(pieces[i]));
  }

  /** Whether some comment marker starts at offset `j` of the line. */
  predicate MarkerAt(line: string, j: nat) {
    OccursAt(line, ";", j) || OccursAt(line, "//", j) || OccursAt(line, "#", j) || OccursAt(line, "@", j)
  }

  /** No comment marker occurs in the line. */
  predicate CommentFree(line: string) {
    forall j: nat | j <= |line| :: !MarkerAt(line, j)
  }

  /** Stripping comments cuts the line at `;`, then `//`, then `#`, then `@`. */
  lemma StripCommentsUnfold(line: string)
    ensures StripComments(line, COMMENT_STARTERS) == Before(Before(Before(Before(line, ";"), "//"), "#"), "@")
  {
    var s := COMMENT_STARTERS;
    var c1 := Before(line, ";");
    var c2 := Before(c1, "//");
    var c3 := Before(c2, "#");
    var c4 := Before(c3, "@");
    assert s[0] == ";" && s[1..][0] == "//" && s[1..][1..][0] == "#" && s[1..][1..][1..][0] == "@";
    assert s[1..][1..][1..][1..] == [];
    assert StripComments(c4, []) == c4;
    assert StripComments(c3, s[1..][1..][1..]) == c4;
    assert StripComments(c2, s[1..][1..]) == c4;
    assert StripComments(c1, s[1..]) == c4;
  }

  /** In a prefix of a line, a pattern occurs wholly inside the prefix exactly where it occurs in the line. */
  lemma OccursInPrefix(line: string, prefix: string, p: string, j: nat)
    requires StartsWith(line, prefix)
    ensures j + |p| <= |prefix| ==> (OccursAt(line, p, j) <==> OccursAt(prefix, p, j))
  {
    if j + |p| <= |prefix| {
      var a := line[j..j + |p|];
      var b := prefix[j..j + |p|];
      forall k | 0 <= k < |p| ensures a[k] == b[k] {
        assert prefix[j + k] == line[..|prefix|][j + k];
      }
      assert a == b;
    }
  }

  /** A `//` cannot straddle the end of the text before the first `;`. */
  lemma NoSlashesAcrossCut(line: string, j: nat)
    requires j < |Before(line, ";")|
    ensures OccursAt(line, "//", j) ==> j + 2 <= |Before(line, ";")|
  {
    var c1 := Before(line, ";");
    if j + 2 > |c1| && j + 2 <= |line| {
      assert j + 1 == |c1| && c1 != line;
      assert line[|c1|] == ';' by {
        assert line[|c1|..|c1| + 1][0] == line[|c1|];
      }
      assert line[j..j + 2][1] == line[j + 1];
    }
  }

  /**
    * The code of a line is the text before the first comment marker: a
    * prefix of the line, no marker starts inside it, and when the line is
    * longer a marker starts right after it.
    */
  lemma CodeBeforeComment(line: string)
    ensures var code := StripComments(line, COMMENT_STARTERS);
      StartsWith(line, code) &&
      (forall j | 0 <= j < |code| :: !MarkerAt(line, j)) &&
      (code != line ==> MarkerAt(line, |code|))
  {
    var c1 := Before(line, ";");
    var c2 := Before(c1, "//");
    var c3 := Before(c2, "#");
    var c4 := Before(c3, "@");
    StripCommentsUnfold(line);
    PrefixOfPrefix(line, c1, c2);
    PrefixOfPrefix(line, c2, c3);
    PrefixOfPrefix(line, c3, c4);
    PrefixOfPrefix(c1, c2, c3);
    PrefixOfPrefix(c1, c3, c4);
    PrefixOfPrefix(c2, c3, c4);
    forall j | 0 <= j < |c4| ensures !MarkerAt(line, j) {
      OccursInPrefix(line, c1, ";", j);
      OccursInPrefix(line, c1, "//", j);
      OccursInPrefix(line, c2, "#", j);
      OccursInPrefix(line, c3, "@", j);
      NoSlashesAcrossCut(line, j);
    }
    if c4 != line {
      CutMarker(line, c1, c2, c3, c4);
    }
  }

  /** Where a cut shortened the line, the marker of that cut starts. */
  lemma CutMarker(line: string, c1: string, c2: string, c3: string, c4: string)
    requires c1 == Before(line, ";") && c2 == Before(c1, "//") && c3 == Before(c2, "#") && c4 == Before(c3, "@")
    requires StartsWith(line, c1) && StartsWith(line, c2) && StartsWith(line, c3) && StartsWith(line, c4)
    requires c4 != line
    ensures MarkerAt(line, |c4|)
  {
    if c4 != c3 {
      OccursInPrefix(line, c3, "@", |c4|);
    } else if c3 != c2 {
      OccursInPrefix(line, c2, "#", |c4|);
    } else if c2 != c1 {
      OccursInPrefix(line, c1, "//", |c4|);
    }
  }

  /** A pattern occurs only where its first character does. */
  lemma OccursAtHead(s: string, p: string, j: nat)
    requires p != []
    ensures OccursAt(s, p, j) ==> s[j] == p[0]
  {
    if j + |p| <= |s| {
      assert s[j..j + |p|][0] == s[j];
    }
  }

  /** A line holding none of the characters that start a comment marker is free of comments. */
  lemma NoMarkerCharacters(line: string)
    requires forall i | 0 <= i < |line| :: line[i] != ';' && line[i] != '/' && line[i] != '#' && line[i] != '@'
    ensures CommentFree(line)
  {
    forall j: nat | j <= |line| ensures !MarkerAt(line, j) {
      OccursAtHead(line, ";", j);
      OccursAtHead(line, "//", j);
      OccursAtHead(line, "#", j);
      OccursAtHead(line, "@", j);
    }
  }

  /** A line without comment markers is all code. */
  lemma NoMarkerNoComment(line: string)
    requires CommentFree(line)
    ensures StripComments(line, COMMENT_STARTERS) == line
  {
    CodeBeforeComment(line);
  }

  /**
    * Words joined by spaces, on a line without comment markers, read back
    * as the same words when none of them ends in `,`.
    */
  lemma LineWordsOfJoinedWords(words: seq<string>)
    requires forall i | 0 <= i < |words| :: words[i] != [] && NoWhitespace(words[i]) && !EndsWith(words[i], ",")
    requires CommentFree(JoinSpaces(words))
    ensures LineWords(JoinSpaces(words)) == words
  {
    NoMarkerNoComment(JoinSpaces(words));
    SplitJoinSpaces(words);
  }

  // ---------------------------------------------------------------------
  // Instructions

  /** The mnemonics `parse_instruction` knows. */
  datatype Mnemonic =
    CLS | RET | EXIT | JP | CALL | SE | SNE | LD | ADD | OR | AND | XOR | SUB | SHR | SUBN | SHL | RND | DRW | SKP | SKNP

  /** The uppercase spelling of a mnemonic. */
  function Spelling(m: Mnemonic): string {
    match m
    case CLS => "CLS"
    case RET => "RET"
    case EXIT => "EXIT"
    case JP => "JP"
    case CALL => "CALL"
    case SE => "SE"
    case SNE => "SNE"
    case LD => "LD"
    case ADD => "ADD"
    case OR => "OR"
    case AND => "AND"
    case XOR => "XOR"
    case SUB => "SUB"
    case SHR => "SHR"
    case SUBN => "SUBN"
    case SHL => "SHL"
    case RND => "RND"
    case DRW => "DRW"
    case SKP => "SKP"
    case SKNP => "SKNP"
  }

  /** The arms of `parse_instruction`'s `match`: the mnemonic an uppercase word spells, if any. */
  function MnemonicOf(upper: string): (r: Option<Mnemonic>)
    ensures r.Some? ==> Spelling(r.value) == upper
  {
    if upper == "CLS" then Some(CLS)
    else if upper == "RET" then Some(RET)
    else if upper == "EXIT" then Some(EXIT)
    else if upper == "JP" then Some(JP)
    else if upper == "CALL" then Some(CALL)
    else if upper == "SE" then Some(SE)
    else if upper == "SNE" then Some(SNE)
    else if upper == "LD" then Some(LD)
    else if upper == "ADD" then Some(ADD)
    else if upper == "OR" then Some(OR)
    else if upper == "AND" then Some(AND)
    else if upper == "XOR" then Some(XOR)
    else if upper == "SUB" then Some(SUB)
    else if upper == "SHR" then Some(SHR)
    else if upper == "SUBN" then Some(SUBN)
    else if upper == "SHL" then Some(SHL)
    else if upper == "RND" then Some(RND)
    else if upper == "DRW" then Some(DRW)
    else if upper == "SKP" then Some(SKP)
    else if upper == "SKNP" then Some(SKNP)
    else None
  }

  /** Every mnemonic is recognised from its spelling. */
  lemma MnemonicOfSpelling(m: Mnemonic)
    ensures MnemonicOf(Spelling(m)) == Some(m)
  {
  }

  /** The errors an operand parser reports: its operand-count error, an `LD` argument error, or a literal's error, which has no location. */
  predicate OperandError(e: AssemblerError) {
    e.message.WrongArity? || e.message.InvalidLoadSource? || e.message.InvalidLoadTarget? || e.srcLocation.None?
  }

  /** The operand-count error of a mnemonic, spanning the whole line. */
  function ArityError(line: string, lineNum: nat, m: Mnemonic): (e: AssemblerError)
    ensures OperandError(e)
  {
    NewNoOptions(WrongArity(Spelling(m)), LocationNoOptions(LineLocation(0, |line|), lineNum))
  }

  /** `get_jp`: an address, or `V0` and an address. */
  function GetJp(line: string, operands: seq<string>, lineNum: nat): (r: Result<Instruction, AssemblerError>)
    ensures r.Success? ==> (|operands| == 1 && r.value.Jump?) || (|operands| == 2 && r.value.JumpOffset?)
    ensures r.Failure? ==> OperandError(r.error)
    ensures |operands| == 1 ==>
      (r.Success? <==> AddressLiteral(operands[0]).Success?) &&
      (r.Success? ==> r.value == Jump(AddressLiteral(operands[0]).value)) &&
      (r.Failure? ==> r.error == AddressLiteral(operands[0]).error)
    ensures |operands| == 2 && ToUpper(operands[0]) == "V0" ==>
      (r.Success? <==> AddressLiteral(operands[1]).Success?) &&
      (r.Success? ==> r.value == JumpOffset(AddressLiteral(operands[1]).value)) &&
      (r.Failure? ==> r.error == AddressLiteral(operands[1]).error)
    ensures !(|operands| == 1 || (|operands| == 2 && ToUpper(operands[0]) == "V0")) ==>
      r == Failure(ArityError(line, lineNum, JP))
  {
    if |operands| == 1 then
      var addr :- AddressLiteral(operands[0]);
      Success(Jump(addr))
    else if |operands| == 2 && ToUpper(operands[0]) == "V0" then
      var addr :- AddressLiteral(operands[1]);
      Success(JumpOffset(addr))
    else Failure(ArityError(line, lineNum, JP))
  }

  /** `get_call`: one address. */
  function GetCall(line: string, operands: seq<string>, lineNum: nat): (r: Result<Instruction, AssemblerError>)
    ensures r.Success? ==> |operands| == 1 && r.value.Call?
    ensures r.Failure? ==> OperandError(r.error)
    ensures |operands| == 1 ==>
      (r.Success? <==> AddressLiteral(operands[0]).Success?) &&
      (r.Success? ==> r.value == Call(AddressLiteral(operands[0]).value)) &&
      (r.Failure? ==> r.error == AddressLiteral(operands[0]).error)
    ensures |operands| != 1 ==> r == Failure(ArityError(line, lineNum, CALL))
  {
    if |operands| != 1 then Failure(ArityError(line, lineNum, CALL))
    else
      var addr :- AddressLiteral(operands[0]);
      Success(Call(addr))
  }

  /** `get_se` and `get_sne`: a register, then a register or else a byte. */
  function GetSkip(line: string, operands: seq<string>, lineNum: nat, m: Mnemonic,
                   regForm: (U8, U8) -> Instruction, immForm: (U8, U8) -> Instruction): (r: Result<Instruction, AssemblerError>)
    ensures r.Success? ==> |operands| == 2
    ensures r.Failure? ==> OperandError(r.error)
    ensures |operands| != 2 ==> r == Failure(ArityError(line, lineNum, m))
    ensures |operands| == 2 ==>
      (r.Success? <==>
         Register(operands[0]).Success? && (Register(operands[1]).Success? || ByteLiteral(operands[1]).Success?))
    ensures |operands| == 2 && r.Success? && Register(operands[1]).Success? ==>
      r.value == regForm(Register(operands[0]).value, Register(operands[1]).value)
    ensures |operands| == 2 && r.Success? && Register(operands[1]).Failure? ==>
      r.value == immForm(Register(operands[0]).value, ByteLiteral(operands[1]).value)
    ensures |operands| == 2 && r.Failure? ==>
      r.error == if Register(operands[0]).Failure? then Register(operands[0]).error else ByteLiteral(operands[1]).error
  {
    if |operands| != 2 then Failure(ArityError(line, lineNum, m))
    else
      var x :- Register(operands[0]);
      match Register(operands[1])
      case Success(y) => Success(regForm(x, y))
      case Failure(_) =>
        var byte :- ByteLiteral(operands[1]);
        Success(immForm(x, byte))
  }

  /** `get_ld` with a register first: the delay timer, a key, `[I]`, a register or else a byte. */
  function GetLoadRegister(x: U8, source: string, lineNum: nat): (r: Result<Instruction, AssemblerError>)
    ensures r.Failure? ==> r.error.message == InvalidLoadSource(source)
    ensures ToUpper(source) == "DT" ==> r == Success(LoadDelayTimerToReg(x))
    ensures ToUpper(source) == "K" ==> r == Success(LoadNextKeyPress(x))
    ensures ToUpper(source) == "[I]" ==> r == Success(ReadRegFromPointer(x))
    ensures Register(source).Success? ==> r == Success(LoadRegToReg(x, Register(source).value))
    ensures ToUpper(source) !in {"DT", "K", "[I]"} && Register(source).Failure? ==>
      (r.Success? <==> ByteLiteral(source).Success?) &&
      (r.Success? ==> r.value == LoadImmToReg(x, ByteLiteral(source).value)) &&
      (r.Failure? ==> r.error == NewNoOptions(InvalidLoadSource(source), LocationLineNum(lineNum)))
  {
    var upper := ToUpper(source);
    KeywordIsNotRegister(source);
    if upper == "DT" then Success(LoadDelayTimerToReg(x))
    else if upper == "K" then Success(LoadNextKeyPress(x))
    else if upper == "[I]" then Success(ReadRegFromPointer(x))
    else if Register(source).Success? then Success(LoadRegToReg(x, Register(source).value))
    else if ByteLiteral(source).Success? then Success(LoadImmToReg(x, ByteLiteral(source).value))
    else Failure(NewNoOptions(InvalidLoadSource(source), LocationLineNum(lineNum)))
  }

  /** A word that uppercases to a keyword other than a `V` name is not a register. */
  lemma KeywordIsNotRegister(text: string)
    ensures ToUpper(text) in {"DT", "K", "[I]", "I", "ST", "F", "B"} ==> Register(text).Failure?
  {
    var upper := ToUpper(text);
    if upper in {"DT", "K", "[I]", "I", "ST", "F", "B"} {
      assert upper[0] != 'V';
      assert !StartsWith(upper, "V");
    }
  }

  /** `get_ld` with anything else first: `I`, `DT`, `ST`, `F`, `B` or `[I]`. */
  function GetLoadSpecial(target: string, source: string, lineNum: nat): (r: Result<Instruction, AssemblerError>)
    ensures r.Failure? ==> r.error.message == InvalidLoadTarget(target) || r.error.srcLocation.None?
    ensures ToUpper(target) == "I" ==>
      (r.Success? <==> AddressLiteral(source).Success?) &&
      (r.Success? ==> r.value == LoadImmToPointer(AddressLiteral(source).value)) &&
      (r.Failure? ==> r.error == AddressLiteral(source).error)
    ensures ToUpper(target) in {"DT", "ST", "F", "B", "[I]"} ==>
      (r.Success? <==> Register(source).Success?) &&
      (r.Failure? ==> r.error == Register(source).error)
    ensures r.Success? && ToUpper(target) == "DT" ==> r.value == LoadRegToDelayTimer(Register(source).value)
    ensures r.Success? && ToUpper(target) == "ST" ==> r.value == LoadRegToSoundTimer(Register(source).value)
    ensures r.Success? && ToUpper(target) == "F" ==> r.value == LoadDigitSpriteToPointer(Register(source).value)
    ensures r.Success? && ToUpper(target) == "B" ==> r.value == LoadDecimalDigitsToPointer(Register(source).value)
    ensures r.Success? && ToUpper(target) == "[I]" ==> r.value == WriteRegToPointer(Register(source).value)
    ensures ToUpper(target) !in {"I", "DT", "ST", "F", "B", "[I]"} ==>
      r == Failure(NewNoOptions(InvalidLoadTarget(target), LocationLineNum(lineNum)))
  {
    var upper := ToUpper(target);
    if upper == "I" then
      var addr :- AddressLiteral(source);
      Success(LoadImmToPointer(addr))
    else if upper in {"DT", "ST", "F", "B", "[I]"} then
      var x :- Register(source);
      Success(
        if upper == "DT" then LoadRegToDelayTimer(x)
        else if upper == "ST" then LoadRegToSoundTimer(x)
        else if upper == "F" then LoadDigitSpriteToPointer(x)
        else if upper == "B" then LoadDecimalDigitsToPointer(x)
        else WriteRegToPointer(x))
    else Failure(NewNoOptions(InvalidLoadTarget(target), LocationLineNum(lineNum)))
  }

  /** `get_ld`: two operands, the register forms first. */
  function GetLd(line: string, operands: seq<string>, lineNum: nat): (r: Result<Instruction, AssemblerError>)
    ensures r.Success? ==> |operands| == 2
    ensures r.Failure? ==> OperandError(r.error)
    ensures |operands| != 2 ==> r == Failure(ArityError(line, lineNum, LD))
    ensures |operands| == 2 && Register(operands[0]).Success? ==>
      r == GetLoadRegister(Register(operands[0]).value, operands[1], lineNum)
    ensures |operands| == 2 && Register(operands[0]).Failure? ==> r == GetLoadSpecial(operands[0], operands[1], lineNum)
  {
    if |operands| != 2 then Failure(ArityError(line, lineNum, LD))
    else if Register(operands[0]).Success? then GetLoadRegister(Register(operands[0]).value, operands[1], lineNum)
    else GetLoadSpecial(operands[0], operands[1], lineNum)
  }

  /** `get_add`: `I` and a register, or a register and then a register or else a byte. */
  function GetAdd(line: string, operands: seq<string>, lineNum: nat): (r: Result<Instruction, AssemblerError>)
    ensures r.Success? ==> |operands| == 2 && (r.value.AddRegToPointer? || r.value.AddReg? || r.value.AddImmToReg?)
    ensures r.Failure? ==> OperandError(r.error)
    ensures |operands| != 2 ==> r == Failure(ArityError(line, lineNum, ADD))
    ensures |operands| == 2 && ToUpper(operands[0]) == "I" ==>
      (r.Success? <==> Register(operands[1]).Success?) &&
      (r.Success? ==> r.value == AddRegToPointer(Register(operands[1]).value)) &&
      (r.Failure? ==> r.error == Register(operands[1]).error)
    ensures |operands| == 2 && ToUpper(operands[0]) != "I" ==>
      (r.Success? <==>
         Register(operands[0]).Success? && (Register(operands[1]).Success? || ByteLiteral(operands[1]).Success?)) &&
      (r.Success? && Register(operands[1]).Success? ==>
         r.value == AddReg(Register(operands[0]).value, Register(operands[1]).value)) &&
      (r.Success? && Register(operands[1]).Failure? ==>
         r.value == AddImmToReg(Register(operands[0]).value, ByteLiteral(operands[1]).value)) &&
      (r.Failure? ==>
         r.error == if Register(operands[0]).Failure? then Register(operands[0]).error else ByteLiteral(operands[1]).error)
  {
    if |operands| != 2 then Failure(ArityError(line, lineNum, ADD))
    else if ToUpper(operands[0]) == "I" then
      var x :- Register(operands[1]);
      Success(AddRegToPointer(x))
    else
      var x :- Register(operands[0]);
      match Register(operands[1])
      case Success(y) => Success(AddReg(x, y))
      case Failure(_) =>
        var byte :- ByteLiteral(operands[1]);
        Success(AddImmToReg(x, byte))
  }

  /** `get_or`, `get_and`, `get_xor`, `get_sub`, `get_subn`: two registers. */
  function GetTwoRegisters(line: string, operands: seq<string>, lineNum: nat, m: Mnemonic,
                           form: (U8, U8) -> Instruction): (r: Result<Instruction, AssemblerError>)
    ensures r.Success? ==> |operands| == 2
    ensures r.Failure? ==> OperandError(r.error)
    ensures |operands| != 2 ==> r == Failure(ArityError(line, lineNum, m))
    ensures |operands| == 2 ==>
      (r.Success? <==> Register(operands[0]).Success? && Register(operands[1]).Success?) &&
      (r.Success? ==> r.value == form(Register(operands[0]).value, Register(operands[1]).value)) &&
      (r.Failure? ==>
         r.error == if Register(operands[0]).Failure? then Register(operands[0]).error else Register(operands[1]).error)
  {
    if |operands| != 2 then Failure(ArityError(line, lineNum, m))
    else
      var x :- Register(operands[0]);
      var y :- Register(operands[1]);
      Success(form(x, y))
  }

  /** `get_shr`, `get_shl`, `get_skp`, `get_sknp`: one register. */
  function GetOneRegister(line: string, operands: seq<string>, lineNum: nat, m: Mnemonic,
                          form: U8 -> Instruction): (r: Result<Instruction, AssemblerError>)
    ensures r.Success? ==> |operands| == 1
    ensures r.Failure? ==> OperandError(r.error)
    ensures |operands| != 1 ==> r == Failure(ArityError(line, lineNum, m))
    ensures |operands| == 1 ==>
      (r.Success? <==> Register(operands[0]).Success?) &&
      (r.Success? ==> r.value == form(Register(operands[0]).value)) &&
      (r.Failure? ==> r.error == Register(operands[0]).error)
  {
    if |operands| != 1 then Failure(ArityError(line, lineNum, m))
    else
      var x :- Register(operands[0]);
      Success(form(x))
  }

  /** `get_rnd`: a register and a byte. */
  function GetRnd(line: string, operands: seq<string>, lineNum: nat): (r: Result<Instruction, AssemblerError>)
    ensures r.Success? ==> |operands| == 2 && r.value.Random?
    ensures r.Failure? ==> OperandError(r.error)
    ensures |operands| != 2 ==> r == Failure(ArityError(line, lineNum, RND))
    ensures |operands| == 2 ==>
      (r.Success? <==> Register(operands[0]).Success? && ByteLiteral(operands[1]).Success?) &&
      (r.Success? ==> r.value == Random(Register(operands[0]).value, ByteLiteral(operands[1]).value)) &&
      (r.Failure? ==>
         r.error == if Register(operands[0]).Failure? then Register(operands[0]).error else ByteLiteral(operands[1]).error)
  {
    if |operands| != 2 then Failure(ArityError(line, lineNum, RND))
    else
      var x :- Register(operands[0]);
      var byte :- ByteLiteral(operands[1]);
      Success(Random(x, byte))
  }

  /** `get_drw`: two registers and a nibble. */
  function GetDrw(line: string, operands: seq<string>, lineNum: nat): (r: Result<Instruction, AssemblerError>)
    ensures r.Success? ==> |operands| == 3 && r.value.Draw? && r.value.nibble <= 0xF
    ensures r.Failure? ==> OperandError(r.error)
    ensures |operands| != 3 ==> r == Failure(ArityError(line, lineNum, DRW))
    ensures |operands| == 3 ==>
      (r.Success? <==>
         Register(operands[0]).Success? && Register(operands[1]).Success? && NibbleLiteral(operands[2]).Success?) &&
      (r.Success? ==>
         r.value == Draw(Register(operands[0]).value, Register(operands[1]).value, NibbleLiteral(operands[2]).value)) &&
      (r.Failure? ==>
         r.error == if Register(operands[0]).Failure? then Register(operands[0]).error
                    else if Register(operands[1]).Failure? then Register(operands[1]).error
                    else NibbleLiteral(operands[2]).error)
  {
    if |operands| != 3 then Failure(ArityError(line, lineNum, DRW))
    else
      var x :- Register(operands[0]);
      var y :- Register(operands[1]);
      var nibble :- NibbleLiteral(operands[2]);
      Success(Draw(x, y, nibble))
  }

  /** The number of operands each mnemonic takes. */
  predicate AcceptsCount(m: Mnemonic, count: nat) {
    match m
    case CLS | RET | EXIT => true
    case JP => count == 1 || count == 2
    case CALL | SHR | SHL | SKP | SKNP => count == 1
    case DRW => count == 3
    case _ => count == 2
  }

  /** The operand parser of a mnemonic, applied to the words after it. */
  function Operands(line: string, operands: seq<string>, lineNum: nat, m: Mnemonic): (r: Result<Instruction, AssemblerError>)
    ensures r.Success? ==> AcceptsCount(m, |operands|)
    ensures r.Failure? ==> OperandError(r.error)
  {
    match m
    case CLS => Success(ClearDisplay)
    case RET => Success(Return)
    case EXIT => Success(Exit)
    case JP => GetJp(line, operands, lineNum)
    case CALL => GetCall(line, operands, lineNum)
    case SE =>
      GetSkip(line, operands, lineNum, m, (x: U8, y: U8) => SkipRegEqualsReg(x, y), (x: U8, b: U8) => SkipRegEqualsImm(x, b))
    case SNE =>
      GetSkip(line, operands, lineNum, m, (x: U8, y: U8) => SkipRegNotEqualsReg(x, y), (x: U8, b: U8) => SkipRegNotEqualsImm(x, b))
    case LD => GetLd(line, operands, lineNum)
    case ADD => GetAdd(line, operands, lineNum)
    case OR => GetTwoRegisters(line, operands, lineNum, m, (x: U8, y: U8) => OrReg(x, y))
    case AND => GetTwoRegisters(line, operands, lineNum, m, (x: U8, y: U8) => AndReg(x, y))
    case XOR => GetTwoRegisters(line, operands, lineNum, m, (x: U8, y: U8) => XorReg(x, y))
    case SUB => GetTwoRegisters(line, operands, lineNum, m, (x: U8, y: U8) => SubReg(x, y))
    case SHR => GetOneRegister(line, operands, lineNum, m, (x: U8) => ShiftRight(x))
    case SUBN => GetTwoRegisters(line, operands, lineNum, m, (x: U8, y: U8) => SubNegReg(x, y))
    case SHL => GetOneRegister(line, operands, lineNum, m, (x: U8) => ShiftLeft(x))
    case RND => GetRnd(line, operands, lineNum)
    case DRW => GetDrw(line, operands, lineNum)
    case SKP => GetOneRegister(line, operands, lineNum, m, (x: U8) => SkipKeyPressed(x))
    case SKNP => GetOneRegister(line, operands, lineNum, m, (x: U8) => SkipNotKeyPressed(x))
  }

  /**
    * The dispatch of `parse_instruction` on the words of a line: an
    * instruction comes only from a known mnemonic, in any case, with the
    * operand count it takes.
    */
  function ParseWords(line: string, words: seq<string>, lineNum: nat): (r: Result<Instruction, AssemblerError>)
    ensures r.Success? ==>
      (words != [] && MnemonicOf(ToUpper(words[0])).Some? &&
       AcceptsCount(MnemonicOf(ToUpper(words[0])).value, |words| - 1))
  {
    if words == [] then Failure(NewNoOptions(UnknownInstruction, LocationLineNum(lineNum)))
    else
      match MnemonicOf(ToUpper(words[0]))
      case None => Failure(NewNoOptions(UnknownMnemonic(words[0]), LocationLineNum(lineNum)))
      case Some(m) => Operands(line, words[1..], lineNum, m)
  }

  /**
    * `parse_instruction`: a line with no words is an unknown instruction,
    * and an instruction comes only from a known mnemonic with an operand
    * count it takes.
    */
  function ParseInstruction(line: string, lineNum: nat): (r: Result<Instruction, AssemblerError>)
    ensures LineWords(line) == [] ==> r == Failure(NewNoOptions(UnknownInstruction, LocationLineNum(lineNum)))
    ensures r.Success? ==> var words := LineWords(line);
      words != [] && MnemonicOf(ToUpper(words[0])).Some? &&
      AcceptsCount(MnemonicOf(ToUpper(words[0])).value, |words| - 1)
  {
    ParseWords(line, LineWords(line), lineNum)
  }

  /** The error names the first word as unknown exactly when its uppercase form is no mnemonic. */
  lemma UnknownMnemonicIff(line: string, words: seq<string>, lineNum: nat)
    requires words != []
    ensures ParseWords(line, words, lineNum) == Failure(NewNoOptions(UnknownMnemonic(words[0]), LocationLineNum(lineNum)))
      <==> MnemonicOf(ToUpper(words[0])).None?
  {
    if MnemonicOf(ToUpper(words[0])).Some? {
      var r := Operands(line, words[1..], lineNum, MnemonicOf(ToUpper(words[0])).value);
      assert r.Failure? ==> OperandError(r.error);
    }
  }

  /** A wrong operand count is reported as such, over the whole line, whatever the operands are. */
  lemma WrongCountIsArityError(line: string, words: seq<string>, lineNum: nat, m: Mnemonic)
    requires words != [] && MnemonicOf(ToUpper(words[0])) == Some(m) && !AcceptsCount(m, |words| - 1)
    ensures ParseWords(line, words, lineNum) == Failure(ArityError(line, lineNum, m))
  {
    assert !(m.CLS? || m.RET? || m.EXIT?);
  }

  /** Mnemonics match case-insensitively: the first word parses as its uppercase form. */
  lemma MnemonicCaseInsensitive(line: string, words: seq<string>, lineNum: nat)
    requires words != [] && MnemonicOf(ToUpper(words[0])).Some?
    ensures ParseWords(line, words, lineNum) == ParseWords(line, [ToUpper(words[0])] + words[1..], lineNum)
  {
    var words' := [ToUpper(words[0])] + words[1..];
    ToUpperIdempotent(words[0]);
    assert words'[0] == ToUpper(words[0]) && words'[1..] == words[1..];
  }

  // ---------------------------------------------------------------------
  // Lines

  /**
    * `parse_line`: nothing for a blank line, a label for one word ending in
    * `:`, otherwise an instruction; all at address 0.
    */
  function ParseLine(line: string, lineNum: nat): (r: Result<Option<Statement>, AssemblerError>)
    ensures r == Success(None) <==> LineWords(line) == []
    ensures r.Success? && r.value.Some? ==> r.value.value.memAddr == 0
    ensures r.Success? && r.value.Some? && r.value.value.Label? ==>
      r.value.value.name != [] && LineWords(line) == [r.value.value.name + ":"]
    ensures r.Success? && r.value.Some? && r.value.value.InstructionStatement? ==>
      ParseInstruction(line, lineNum) == Success(r.value.value.instruction)
    ensures LineWords(line) == [":"] ==>
      r == Failure(NewNoOptions(LabelBeforeColon, Location(LocateWord(line, [":"], 0), lineNum)))
    ensures InstructionLine(line) ==> (r.Success? <==> ParseInstruction(line, lineNum).Success?)
    ensures InstructionLine(line) && r.Success? ==>
      r.value == Some(InstructionStatement(ParseInstruction(line, lineNum).value, 0))
    ensures InstructionLine(line) && r.Failure? ==> r.error == ParseInstruction(line, lineNum).error
  {
    var words := LineWords(line);
    if words == [] then Success(None)
    else if |words| == 1 && EndsWith(words[0], ":") then
      var name := words[0][..|words[0]| - 1];
      if name == [] then
        Failure(NewNoOptions(LabelBeforeColon, Location(LocateWord(line, words, 0), lineNum)))
      else
        assert words[0] == name + ":";
        Success(Some(Label(name, 0)))
    else
      var instruction :- ParseInstruction(line, lineNum);
      Success(Some(InstructionStatement(instruction, 0)))
  }

  /** A line `parse_line` hands to `parse_instruction`: it has words, and is not one word ending in `:`. */
  predicate InstructionLine(line: string) {
    var words := LineWords(line);
    words != [] && !(|words| == 1 && EndsWith(words[0], ":"))
  }

  /** A line whose code is all whitespace holds no statement. */
  lemma BlankLineIsNothing(line: string, lineNum: nat)
    requires AllWhitespace(StripComments(line, COMMENT_STARTERS))
    ensures ParseLine(line, lineNum) == Success(None)
  {
    BlankHasNoWords(StripComments(line, COMMENT_STARTERS));
    assert LineWords(line) == [];
  }

  /** Every character is whitespace. */
  predicate AllWhitespace(s: string) {
    forall i | 0 <= i < |s| :: IsWhitespace(s[i])
  }

  /** Text that is all whitespace splits into no words. */
  lemma BlankHasNoWords(code: string)
    requires AllWhitespace(code)
    ensures SplitWhitespace(code) == []
  {
  }

  /** One word ending in `:` with text before it is a label of that text, at address 0. */
  lemma LabelLine(line: string, lineNum: nat, name: string)
    requires LineWords(line) == [name + ":"] && name != []
    ensures ParseLine(line, lineNum) == Success(Some(Label(name, 0)))
  {
    assert (name + ":")[..|name|] == name;
  }

  /** A bare `:` is the label error, with a span covering the colon. */
  lemma BareColonLine(lineNum: nat)
    ensures ParseLine(":", lineNum) ==
      Failure(NewNoOptions(LabelBeforeColon, Location(Some(LineLocation(0, 1)), lineNum)))
  {
    ColonWords();
    ColonLocation();
  }

  /** The words of ":". */
  lemma ColonWords()
    ensures LineWords(":") == [":"]
  {
    NoMarkerCharacters(":");
    assert JoinSpaces([":"]) == ":";
    LineWordsOfJoinedWords([":"]);
  }

  /** The span of the bare `:` is the whole line. */
  lemma ColonLocation()
    ensures LocateWord(":", [":"], 0) == Some(LineLocation(0, 1))
  {
    assert [":"][..1] == [":"] && [":"][..1][..0] == [];
    assert ":"[0..] == ":";
    FindAt(":", ":", 0);
  }

  /** The values of the options that hold one, in order. */
  function Somes<T>(xs: seq<Option<T>>): seq<T> {
    if xs == [] then []
    else Somes(xs[..|xs| - 1]) + (if xs[|xs| - 1].Some? then [xs[|xs| - 1].value] else [])
  }

  /**
    * The values kept are exactly those of the options that hold one, in
    * their order: an increasing list of positions picks them out.
    */
  lemma {:induction false} SomesPositions<T>(xs: seq<Option<T>>) returns (positions: seq<nat>)
    ensures |positions| == |Somes(xs)|
    ensures forall k | 0 <= k < |positions| :: positions[k] < |xs| && xs[positions[k]] == Some(Somes(xs)[k])
    ensures forall k, l | 0 <= k < l < |positions| :: positions[k] < positions[l]
    ensures forall i | 0 <= i < |xs| && xs[i].Some? :: i in positions
  {
    if xs == [] {
      positions := [];
    } else {
      var init := xs[..|xs| - 1];
      var last := xs[|xs| - 1];
      var p := SomesPositions(init);
      var kept := Somes(xs);
      assert kept == Somes(init) + (if last.Some? then [last.value] else []);
      positions := if last.Some? then p + [|xs| - 1] else p;
      forall k | 0 <= k < |positions| ensures positions[k] < |xs| && xs[positions[k]] == Some(kept[k]) {
        if k < |p| {
          assert positions[k] == p[k] && kept[k] == Somes(init)[k];
          assert xs[p[k]] == init[p[k]];
        }
      }
      forall i | 0 <= i < |xs| && xs[i].Some? ensures i in positions {
        if i < |xs| - 1 {
          assert init[i] == xs[i];
          assert i in p;
        }
      }
    }
  }

  /** `flatten` keeps at most one value per option. */
  lemma {:induction false} SomesLength<T>(xs: seq<Option<T>>)
    ensures |Somes(xs)| <= |xs|
  {
    if xs != [] {
      SomesLength(xs[..|xs| - 1]);
    }
  }

  /** No option holds a value exactly when none is kept. */
  lemma {:induction false} SomesEmpty<T>(xs: seq<Option<T>>)
    ensures Somes(xs) == [] <==> forall i | 0 <= i < |xs| :: xs[i].None?
  {
    if xs != [] {
      SomesEmpty(xs[..|xs| - 1]);
      assert forall i | 0 <= i < |xs| - 1 :: xs[..|xs| - 1][i] == xs[i];
    }
  }

  /** The error of a failed result. */
  function ErrorOf<T, E>(r: Result<Option<T>, E>): Option<E> {
    if r.Failure? then Some(r.error) else None
  }

  /** The value of a result that holds one. */
  function ValueOf<T, E>(r: Result<Option<T>, E>): Option<T> {
    if r.Success? then r.value else None
  }

  /**
    * `partition_result` followed by `flatten`: all the values in order when
    * nothing failed, otherwise all the errors in order.
    */
  function Partition<T, E>(results: seq<Result<Option<T>, E>>): (r: Result<seq<T>, seq<E>>)
    ensures r.Success? ==> |r.value| <= |results|
    ensures r.Failure? ==> 0 < |r.error| <= |results|
  {
    SomesLength(ErrorOptions(results));
    SomesLength(ValueOptions(results));
    var errors := Somes(ErrorOptions(results));
    if errors != [] then Failure(errors) else Success(Somes(ValueOptions(results)))
  }

  /** The error of each result, position by position. */
  function ErrorOptions<T, E>(results: seq<Result<Option<T>, E>>): (r: seq<Option<E>>)
    ensures |r| == |results| && forall i | 0 <= i < |r| :: r[i] == ErrorOf(results[i])
  {
    seq(|results|, i requires 0 <= i < |results| => ErrorOf(results[i]))
  }

  /** The value of each result, position by position. */
  function ValueOptions<T, E>(results: seq<Result<Option<T>, E>>): (r: seq<Option<T>>)
    ensures |r| == |results| && forall i | 0 <= i < |r| :: r[i] == ValueOf(results[i])
  {
    seq(|results|, i requires 0 <= i < |results| => ValueOf(results[i]))
  }

  /** The partition succeeds exactly when every result does. */
  lemma PartitionSucceedsIff<T, E>(results: seq<Result<Option<T>, E>>)
    ensures Partition(results).Success? <==> forall i | 0 <= i < |results| :: results[i].Success?
  {
    var errors := ErrorOptions(results);
    assert forall i | 0 <= i < |results| :: errors[i].None? <==> results[i].Success?;
    SomesEmpty(errors);
  }

  /** On failure, the errors are those of the failed results, each once, in order. */
  lemma PartitionErrors<T, E>(results: seq<Result<Option<T>, E>>) returns (failing: seq<nat>)
    requires Partition(results).Failure?
    ensures |failing| == |Partition(results).error|
    ensures forall k | 0 <= k < |failing| ::
      failing[k] < |results| && results[failing[k]] == Failure(Partition(results).error[k])
    ensures forall k, l | 0 <= k < l < |failing| :: failing[k] < failing[l]
    ensures forall i | 0 <= i < |results| && results[i].Failure? :: i in failing
  {
    failing := SomesPositions(ErrorOptions(results));
  }

  /** On success, the values are those of the results that hold one, each once, in order. */
  lemma PartitionValues<T, E>(results: seq<Result<Option<T>, E>>) returns (holding: seq<nat>)
    requires Partition(results).Success?
    ensures |holding| == |Partition(results).value|
    ensures forall k | 0 <= k < |holding| ::
      holding[k] < |results| && results[holding[k]] == Success(Some(Partition(results).value[k]))
    ensures forall k, l | 0 <= k < l < |holding| :: holding[k] < holding[l]
    ensures forall i | 0 <= i < |results| && results[i].Success? && results[i].value.Some? :: i in holding
  {
    PartitionSucceedsIff(results);
    holding := SomesPositions(ValueOptions(results));
  }

  /** Every line of the text parsed, numbered from 0. */
  function LineResults(text: string): (results: seq<Result<Option<Statement>, AssemblerError>>)
    ensures var lines := Lines(text);
      |results| == |lines| && forall i | 0 <= i < |lines| :: results[i] == ParseLine(lines[i], i)
  {
    var lines := Lines(text);
    seq(|lines|, i requires 0 <= i < |lines| => ParseLine(lines[i], i))
  }

  /**
    * `parse_lines`: the statements of all lines in order when every line
    * parses, and otherwise the errors of all failing lines in order.
    */
  function ParseLines(text: string): (r: Result<seq<Statement>, seq<AssemblerError>>)
    ensures r.Success? <==> forall i | 0 <= i < |LineResults(text)| :: LineResults(text)[i].Success?
    ensures r.Success? ==> |r.value| <= |LineResults(text)|
    ensures r.Failure? ==> 0 < |r.error| <= |LineResults(text)|
  {
    PartitionSucceedsIff(LineResults(text));
    Partition(LineResults(text))
  }

  /** Empty text holds no statements. */
  lemma EmptyTextNoStatements()
    ensures ParseLines("") == Success([])
  {
    assert LineResults("") == [];
  }

  /** The words of "jp abc". */
  lemma JumpToWordWords()
    ensures LineWords("jp abc") == ["jp", "abc"]
  {
    var line := "jp abc";
    assert JoinSpaces(["jp", "abc"]) == line;
    NoMarkerCharacters(line);
    LineWordsOfJoinedWords(["jp", "abc"]);
  }

  /** "jp abc" fails with the one error that "abc" is not a number. */
  lemma JumpToWordFails()
    ensures ParseLines("jp abc") == Failure([NewMessage(BadNumber("abc", Radix.InvalidDigit))])
    ensures StartsWith(MessageText(ParseLines("jp abc").error[0].message), "Failed to parse number")
  {
    var e := NewMessage(BadNumber("abc", Radix.InvalidDigit));
    JumpToWordResults();
    PartitionOneFailure<Statement, AssemblerError>(e);
    assert ParseLines("jp abc") == Failure([e]);
    BadNumberText("abc", Radix.InvalidDigit);
  }

  /** The text "jp abc" is one line, and that line fails on its address. */
  lemma JumpToWordResults()
    ensures LineResults("jp abc") == [Failure(NewMessage(BadNumber("abc", Radix.InvalidDigit)))]
  {
    SingleLineResults("jp abc");
    JumpToWordLine();
  }

  /** Text of one line gives the one result of that line, as line 0. */
  lemma SingleLineResults(line: string)
    requires line != [] && '\n' !in line
    ensures LineResults(line) == [ParseLine(line, 0)]
  {
    SingleLine(line);
  }

  /** A single failure partitions into that one error. */
  lemma PartitionOneFailure<T, E>(e: E)
    ensures Partition<T, E>([Failure(e)]) == Failure([e])
  {
    var results: seq<Result<Option<T>, E>> := [Failure(e)];
    var errors := ErrorOptions(results);
    assert errors == [Some(e)];
    assert errors[..0] == [];
    assert Somes(errors) == Somes(errors[..0]) + [e];
    assert Somes(errors) == [e];
  }

  /** The line "jp abc" is a jump whose address is not a number. */
  lemma JumpToWordLine()
    ensures ParseLine("jp abc", 0) == Failure(NewMessage(BadNumber("abc", Radix.InvalidDigit)))
  {
    JumpToWordWords();
    JumpToWordInstruction();
  }

  /** The words "jp" and "abc" are a jump whose address is not a number. */
  lemma JumpToWordInstruction()
    ensures ParseWords("jp abc", ["jp", "abc"], 0) == Failure(NewMessage(BadNumber("abc", Radix.InvalidDigit)))
  {
    assert ToUpper("jp") == "JP";
    assert MnemonicOf("JP") == Some(JP);
    WordIsNotNumber();
    assert ["jp", "abc"][1..] == ["abc"];
  }

  /** "abc" is not a decimal number. */
  lemma WordIsNotNumber()
    ensures NumberLiteral("abc") == Failure(NewMessage(BadNumber("abc", Radix.InvalidDigit)))
  {
    assert LiteralDigits("abc") == (Radix.Decimal, "abc");
    assert Radix.DigitValue('a', Radix.Decimal).None?;
  }
}
