/**
  * The assembler's errors (chip8-assembler/src/assembler_error.rs): a
  * message and an optional source location, a line number and an optional
  * column span. A message is kept as the kind of failure with the text it
  * quotes; `Text` renders it as the assembler words it.
  */
module AssemblerErrors {
  import opened Wrappers
  import opened Text
  import Radix

  /** A span of a source line, `LineLocation`. */
  datatype LineLocation = LineLocation(column: nat, length: nat)

  /** A source line and an optional span of it, `Location`. */
  datatype Location = Location(lineLocation: Option<LineLocation>, lineNum: nat)

  /** What went wrong, with the text each message quotes. */
  datatype Message =
    | EmptyNumber
    | BadNumber(literal: string, kind: Radix.IntErrorKind)
    | AddressTooLarge(literal: string)
    | NotARegister(text: string)
    | MissingRegisterDigit
    | BadRegister(kind: Radix.IntErrorKind, digits: string)
    | RegisterTooLarge(text: string)
    | ByteTooLarge(literal: string)
    | NibbleTooLarge(literal: string)
    | LabelBeforeColon
    | UnknownInstruction
    | UnknownMnemonic(word: string)
    | WrongArity(mnemonic: string)
    | InvalidLoadSource(argument: string)
    | InvalidLoadTarget(argument: string)
    | MemoryExceeded(max: nat)
    | EmptyLabel
    | LabelUsed(name: string)
    | External(text: string)

  /** `AssemblerError`. */
  datatype AssemblerError = AssemblerError(message: Message, srcLocation: Option<Location>)

  /** `AssemblerError::new_no_options`: an error that has a location. */
  function NewNoOptions(message: Message, location: Location): (e: AssemblerError)
    ensures e.srcLocation == Some(location) && e.message == message
  {
    AssemblerError(message, Some(location))
  }

  /** `AssemblerError::new_message`: an error with no location. */
  function NewMessage(message: Message): (e: AssemblerError)
    ensures e.srcLocation.None? && e.message == message
  {
    AssemblerError(message, None)
  }

  /** `Location::new_no_options`: a line with a span. */
  function LocationNoOptions(lineLocation: LineLocation, lineNum: nat): (l: Location)
    ensures l.lineLocation == Some(lineLocation) && l.lineNum == lineNum
  {
    Location(Some(lineLocation), lineNum)
  }

  /** `Location::new_line_num`: a line with no span. */
  function LocationLineNum(lineNum: nat): (l: Location)
    ensures l.lineLocation.None? && l.lineNum == lineNum
  {
    Location(None, lineNum)
  }

  /** The sentence an operand-count error gives for a mnemonic. */
  function ArityText(mnemonic: string): string {
    if mnemonic == "JP" then "Expected one address for a JP instruction, or V0 and an address."
    else if mnemonic == "CALL" then "Expected one address for a CALL instruction"
    else if mnemonic == "ADD" then "Expected two arguments for an ADD instruction"
    else if mnemonic in {"SE", "SNE", "LD"} then "Expected two arguments for a " + mnemonic + " instruction"
    else if mnemonic in {"OR", "AND"} then "Expected two register arguments for an " + mnemonic + " instruction"
    else if mnemonic in {"XOR", "SUB", "SUBN"} then "Expected two register arguments for a " + mnemonic + " instruction"
    else if mnemonic == "RND" then "Expected a register and a byte for a RND instruction"
    else if mnemonic == "DRW" then "Expected two registers and a nibble for a DRW instruction"
    else "Expected one register argument for a " + mnemonic + " instruction"
  }

  /** The piece of source text a message quotes, if it quotes one. */
  function Quoted(m: Message): Option<string> {
    match m
    case BadNumber(literal, _) => Some(literal)
    case AddressTooLarge(literal) => Some(literal)
    case NotARegister(text) => Some(text)
    case BadRegister(_, digits) => Some(digits)
    case RegisterTooLarge(text) => Some(text)
    case ByteTooLarge(literal) => Some(literal)
    case NibbleTooLarge(literal) => Some(literal)
    case UnknownMnemonic(word) => Some(word)
    case InvalidLoadSource(argument) => Some(argument)
    case InvalidLoadTarget(argument) => Some(argument)
    case LabelUsed(name) => Some(name)
    case External(text) => Some(text)
    case _ => None
  }

  /** `w` occurs somewhere in `s`. */
  predicate Contains(s: string, w: string) {
    exists i: nat | i <= |s| :: OccursAt(s, w, i)
  }

  /** `text` between a fixed lead-in and a fixed tail. */
  function Quote(before: string, text: string, after: string): (r: string)
    ensures OccursAt(r, text, |before|) && Contains(r, text)
  {
    var r := before + text + after;
    assert r[|before|..|before| + |text|] == text;
    assert OccursAt(r, text, |before|);
    r
  }

  /** The message as the assembler words it; a message about some source text quotes that text verbatim. */
  function MessageText(m: Message): (r: string)
  {
    match m
    case EmptyNumber => "Failed to parse empty number string."
    case BadNumber(literal, kind) => Quote("Failed to parse number: `", literal, "`, " + Radix.DebugText(kind))
    case AddressTooLarge(literal) =>
      Quote("Address literal (", literal, ") is larger than the available address space (1000).")
    case NotARegister(text) => Quote("Expected a register of format (V?), but got (", text, ").")
    case MissingRegisterDigit => "Expecting a digit after 'V'"
    case BadRegister(kind, digits) => Quote("Failed to parse register: " + Radix.DebugText(kind) + ", ", digits, "")
    case RegisterTooLarge(text) => Quote("Register literal (", text, ") is larger than the number of registers (f).")
    case ByteTooLarge(literal) => Quote("Byte literal (", literal, ") is larger than the max byte (ff).")
    case NibbleTooLarge(literal) => Quote("Nibble literal (", literal, ") is larger than the max nibble (f).")
    case LabelBeforeColon => "Expected a label before the colon."
    case UnknownInstruction => "Unknown instruction."
    case UnknownMnemonic(word) => Quote("Unknown instruction: ", word, "")
    case WrongArity(mnemonic) => ArityText(mnemonic)
    case InvalidLoadSource(argument) => Quote("Invalid second argument for LD: ", argument, "")
    case InvalidLoadTarget(argument) => Quote("Invalid first argument for LD: ", argument, "")
    case MemoryExceeded(max) => "Memory exceeds available space (0x" + Radix.FormatRadix(max, Radix.Hex) + ")"
    case EmptyLabel => "Cannot use an empty label."
    case LabelUsed(name) => Quote("Label '", name, "' already used.")
    case External(text) => Quote("", text, "")
  }

  /** A message about some source text quotes that text verbatim. */
  lemma MessageQuotes(m: Message)
    requires Quoted(m).Some?
    ensures Contains(MessageText(m), Quoted(m).value)
  {
  }

  /** A number that does not parse is reported as such, quoting the literal. */
  lemma BadNumberText(literal: string, kind: Radix.IntErrorKind)
    ensures StartsWith(MessageText(BadNumber(literal, kind)), "Failed to parse number")
    ensures OccursAt(MessageText(BadNumber(literal, kind)), "`" + literal + "`", 24)
  {
    var t := MessageText(BadNumber(literal, kind));
    var head := "Failed to parse number: ";
    assert t == head + ("`" + literal + "`") + (", " + Radix.DebugText(kind));
    assert t[..22] == head[..22];
    assert t[24..24 + |literal| + 2] == "`" + literal + "`";
  }

  /** Where the match of `word` ends, searching the line from `start`. */
  function Extend(line: string, start: nat, word: string): (r: Option<nat>)
    requires start <= |line|
    ensures r.Some? ==> |word| <= r.value <= |line|
    ensures r.Some? ==> OccursAt(line, word, r.value - |word|)
  {
    var found := Find(line[start..], word);
    FindSpec(line[start..], word);
    if found.None? then None
    else
      assert line[start..][found.value..found.value + |word|] == line[start + found.value..start + found.value + |word|];
      Some(start + found.value + |word|)
  }

  /**
    * Where the search for the first `|words|` words ends: each word is
    * searched for in the line from the end of the previous word's match.
    * `None` when some word is not found.
    */
  function MatchEnd(line: string, words: seq<string>): (r: Option<nat>)
    ensures r.Some? ==> r.value <= |line|
    ensures r.Some? && words != [] ==> r.value >= |words[|words| - 1]|
    ensures r.Some? && words != [] ==> OccursAt(line, words[|words| - 1], r.value - |words[|words| - 1]|)
  {
    if words == [] then Some(0)
    else
      var previous := MatchEnd(line, words[..|words| - 1]);
      if previous.None? then None else Extend(line, previous.value, words[|words| - 1])
  }

  /**
    * `LineLocation::try_from_line_words`: the span of `words[wordIndex]` in
    * the line, found after the words before it.
    */
  function LocateWord(line: string, words: seq<string>, wordIndex: nat): (r: Option<LineLocation>)
    ensures r.Some? ==> wordIndex < |words| && r.value.length == |words[wordIndex]|
    ensures r.Some? ==> OccursAt(line, words[wordIndex], r.value.column)
  {
    if wordIndex >= |words| then None
    else
      assert words[..wordIndex + 1][wordIndex] == words[wordIndex];
      match MatchEnd(line, words[..wordIndex + 1])
      case None => None
      case Some(end) => Some(LineLocation(end - |words[wordIndex]|, |words[wordIndex]|))
  }

  /**
    * `LineLocation::try_from_line_words`, as the loop that advances the
    * search offset past one word at a time.
    */
  method TryFromLineWords(line: string, words: seq<string>, wordIndex: nat) returns (r: Option<LineLocation>)
    ensures r == LocateWord(line, words, wordIndex)
  {
    if wordIndex >= |words| {
      return None;
    }
    var start := 0;
    for k := 0 to wordIndex + 1
      invariant MatchEnd(line, words[..k]) == Some(start)
    {
      var word := words[k];
      MatchEndStep(line, words, k, start);
      match Find(line[start..], word) {
        case None =>
          MissingWordIsFinal(line, words, k + 1, wordIndex + 1);
          return None;
        case Some(i) =>
          start := start + i + |word|;
      }
    }
    var wordLen := |words[wordIndex]|;
    return Some(LineLocation(start - wordLen, wordLen));
  }

  /** Matching one more word searches for it from where the earlier words' matches end. */
  lemma MatchEndStep(line: string, words: seq<string>, k: nat, start: nat)
    requires k < |words| && MatchEnd(line, words[..k]) == Some(start)
    ensures start <= |line| && MatchEnd(line, words[..k + 1]) == Extend(line, start, words[k])
  {
    var ws := words[..k + 1];
    assert ws[..|ws| - 1] == words[..k];
    assert ws[|ws| - 1] == words[k];
  }

  /** Once a word is not found, no longer list of words is found either. */
  lemma {:induction false} MissingWordIsFinal(line: string, words: seq<string>, k: nat, n: nat)
    requires k <= n <= |words| && MatchEnd(line, words[..k]).None?
    ensures MatchEnd(line, words[..n]).None?
    decreases n
  {
    if n > k {
      MissingWordIsFinal(line, words, k, n - 1);
      assert words[..n][..n - 1] == words[..n - 1];
    }
  }

  /** A found span has the word's length and holds exactly the word. */
  lemma LocatedWordMatches(line: string, words: seq<string>, wordIndex: nat)
    requires LocateWord(line, words, wordIndex).Some?
    ensures var loc := LocateWord(line, words, wordIndex).value;
      wordIndex < |words| && loc.length == |words[wordIndex]| &&
      loc.column + loc.length <= |line| && line[loc.column..loc.column + loc.length] == words[wordIndex]
  {
    var ws := words[..wordIndex + 1];
    assert ws[..|ws| - 1] == words[..wordIndex];
    var start := MatchEnd(line, words[..wordIndex]).value;
    var w := words[wordIndex];
    var i := Find(line[start..], w).value;
    FindSpec(line[start..], w);
    assert line[start..][i..i + |w|] == line[start + i..start + i + |w|];
  }

  /**
    * A found span starts no earlier than the end of the earlier words'
    * matches, so it never points at an earlier occurrence of the word.
    */
  lemma LocatedAfterEarlierWords(line: string, words: seq<string>, wordIndex: nat)
    requires LocateWord(line, words, wordIndex).Some?
    ensures MatchEnd(line, words[..wordIndex]).Some?
    ensures LocateWord(line, words, wordIndex).value.column >= MatchEnd(line, words[..wordIndex]).value
  {
    var ws := words[..wordIndex + 1];
    assert ws[..|ws| - 1] == words[..wordIndex];
  }

  /** With no word at the index there is no span. */
  lemma NoWordNoLocation(line: string, words: seq<string>, wordIndex: nat)
    requires wordIndex >= |words|
    ensures LocateWord(line, words, wordIndex).None?
  {
  }

  /** The span of "text" in "Can you parse my text?", found after "parse", is column 17, length 4. */
  lemma LocateTextAfterParse()
    ensures LocateWord("Can you parse my text?", ["parse", "text"], 1) == Some(LineLocation(17, 4))
  {
    var line := "Can you parse my text?";
    var words := ["parse", "text"];
    assert words[..1] == ["parse"] && words[..2] == words;
    assert ["parse"][..0] == [];
    assert line[0..] == line;
    assert Find(line, "parse") == Some(8) by {
      assert line[8..13] == "parse";
      forall j | 0 <= j < 8 ensures !OccursAt(line, "parse", j) {
        assert line[j] != 'p';
        if j + 5 <= |line| {
          assert line[j..j + 5][0] == line[j];
        }
      }
      FindAt(line, "parse", 8);
    }
    assert MatchEnd(line, ["parse"]) == Some(13);
    var rest := line[13..];
    assert rest == " my text?";
    assert Find(rest, "text") == Some(4) by {
      assert rest[4..8] == "text";
      forall j | 0 <= j < 4 ensures !OccursAt(rest, "text", j) {
        assert rest[j] != 't';
        if j + 4 <= |rest| {
          assert rest[j..j + 4][0] == rest[j];
        }
      }
      FindAt(rest, "text", 4);
    }
  }
}
