/**
  * The few `str` operations of Rust's standard library the assembler relies
  * on, on strings of Unicode scalar values. Offsets and lengths count
  * characters, where Rust counts UTF-8 bytes; the two agree on ASCII text.
  */
module Text {
  import opened Wrappers

  /** `char::is_whitespace`: the Unicode White_Space property. */
  predicate IsWhitespace(c: char) {
    var n := c as int;
    (0x9 <= n <= 0xD) || n == 0x20 || n == 0x85 || n == 0xA0 || n == 0x1680 ||
    (0x2000 <= n <= 0x200A) || n == 0x2028 || n == 0x2029 || n == 0x202F || n == 0x205F ||
    n == 0x3000
  }

  /** No character of `s` is whitespace. */
  predicate NoWhitespace(s: string) {
    forall i | 0 <= i < |s| :: !IsWhitespace(s[i])
  }

  /** `s.starts_with(p)`. */
  predicate StartsWith(s: string, p: string) {
    |p| <= |s| && s[..|p|] == p
  }

  /** `s.ends_with(p)`. */
  predicate EndsWith(s: string, p: string) {
    |p| <= |s| && s[|s| - |p|..] == p
  }

  /** Whether `w` occurs in `s` at offset `i`. */
  predicate OccursAt(s: string, w: string, i: nat) {
    i + |w| <= |s| && s[i..i + |w|] == w
  }

  /** The first offset at or after `from` where `w` occurs in `s`. */
  function FindFrom(s: string, w: string, from: nat): (r: Option<nat>)
    ensures r.Some? ==> from <= r.value && r.value + |w| <= |s|
    decreases |s| - from
  {
    if from + |w| > |s| then None
    else if s[from..from + |w|] == w then Some(from)
    else FindFrom(s, w, from + 1)
  }

  /** `FindFrom` returns the first occurrence at or after `from`, or `None` when there is none. */
  lemma {:induction false} FindFromSpec(s: string, w: string, from: nat)
    ensures var r := FindFrom(s, w, from);
      (r.Some? ==> OccursAt(s, w, r.value) && forall j | from <= j < r.value :: !OccursAt(s, w, j)) &&
      (r.None? ==> forall j | from <= j :: !OccursAt(s, w, j))
    decreases |s| - from
  {
    if from + |w| <= |s| && s[from..from + |w|] != w {
      FindFromSpec(s, w, from + 1);
    }
  }

  /** `s.find(w)`: the offset of the first occurrence of `w` in `s`. */
  function Find(s: string, w: string): (r: Option<nat>)
    ensures r.Some? ==> r.value + |w| <= |s|
  {
    FindFrom(s, w, 0)
  }

  /** `Find` returns the first occurrence, or `None` when there is none. */
  lemma FindSpec(s: string, w: string)
    ensures Find(s, w).Some? ==> OccursAt(s, w, Find(s, w).value)
    ensures Find(s, w).Some? ==> forall j | 0 <= j < Find(s, w).value :: !OccursAt(s, w, j)
    ensures Find(s, w).None? ==> forall j :: !OccursAt(s, w, j)
  {
    FindFromSpec(s, w, 0);
  }

  /** An occurrence with none before it is the one `Find` returns. */
  lemma FindAt(s: string, w: string, i: nat)
    requires OccursAt(s, w, i) && forall j | 0 <= j < i :: !OccursAt(s, w, j)
    ensures Find(s, w) == Some(i)
  {
    FindSpec(s, w);
  }

  /** `s.split(p).next().unwrap_or("")`: the text before the first occurrence of `p`, or all of `s`. */
  function Before(s: string, p: string): (r: string)
    ensures StartsWith(s, r)
    ensures forall j | 0 <= j < |r| :: !OccursAt(s, p, j)
    ensures r != s ==> OccursAt(s, p, |r|)
  {
    FindSpec(s, p);
    match Find(s, p)
    case Some(i) => s[..i]
    case None => s
  }

  /** The number of leading characters of `s` that are not whitespace. */
  function WordLength(s: string): (n: nat)
    ensures n <= |s| && NoWhitespace(s[..n]) && (n < |s| ==> IsWhitespace(s[n]))
  {
    if s == [] || IsWhitespace(s[0]) then 0
    else
      var n := 1 + WordLength(s[1..]);
      assert s[..n] == [s[0]] + s[1..][..n - 1];
      n
  }

  /** `s.trim_start()`: `s` without its leading whitespace. */
  function TrimStart(s: string): (r: string)
    ensures |r| <= |s| && r == s[|s| - |r|..]
    ensures r != [] ==> !IsWhitespace(r[0])
    ensures forall i | 0 <= i < |s| - |r| :: IsWhitespace(s[i])
  {
    if s != [] && IsWhitespace(s[0]) then
      var r := TrimStart(s[1..]);
      assert s[1..][|s| - 1 - |r|..] == s[|s| - |r|..];
      assert forall i | 1 <= i < |s| - |r| :: s[i] == s[1..][i - 1];
      r
    else s
  }

  /** `s.split_whitespace()`: the maximal runs of non-whitespace characters, in order. */
  function SplitWhitespace(s: string): (words: seq<string>)
    ensures forall i | 0 <= i < |words| :: words[i] != [] && NoWhitespace(words[i])
    decreases |s|
  {
    var t := TrimStart(s);
    if t == [] then []
    else
      var n := WordLength(t);
      [t[..n]] + SplitWhitespace(t[n..])
  }

  /** The words joined by single spaces. */
  function JoinSpaces(words: seq<string>): string {
    if words == [] then []
    else if |words| == 1 then words[0]
    else words[0] + " " + JoinSpaces(words[1..])
  }

  /** Splitting on whitespace undoes joining non-empty, whitespace-free words with spaces. */
  lemma {:induction false} SplitJoinSpaces(words: seq<string>)
    requires forall i | 0 <= i < |words| :: words[i] != [] && NoWhitespace(words[i])
    ensures SplitWhitespace(JoinSpaces(words)) == words
  {
    if |words| == 1 {
      SplitWord(words[0], []);
      assert words[0] + [] == words[0];
      assert SplitWhitespace([]) == [];
    } else if |words| > 1 {
      var rest := JoinSpaces(words[1..]);
      assert JoinSpaces(words) == words[0] + (" " + rest);
      calc {
        SplitWhitespace(words[0] + (" " + rest));
        { SplitWord(words[0], " " + rest); }
        [words[0]] + SplitWhitespace(" " + rest);
        { SplitLeadingSpace(rest); }
        [words[0]] + SplitWhitespace(rest);
        { SplitJoinSpaces(words[1..]); }
        [words[0]] + words[1..];
        words;
      }
    }
  }

  /** A whitespace-free word followed by nothing or by whitespace splits off as the first word. */
  lemma SplitWord(w: string, tail: string)
    requires w != [] && NoWhitespace(w) && (tail != [] ==> IsWhitespace(tail[0]))
    ensures SplitWhitespace(w + tail) == [w] + SplitWhitespace(tail)
  {
    var s := w + tail;
    assert TrimStart(s) == s;
    WordLengthOfWord(w, tail);
  }

  /** A leading space does not change the words. */
  lemma SplitLeadingSpace(s: string)
    ensures SplitWhitespace(" " + s) == SplitWhitespace(s)
  {
    assert (" " + s)[1..] == s;
    assert TrimStart(" " + s) == TrimStart(s);
  }

  /** A whitespace-free word followed by nothing or by whitespace is one word long. */
  lemma WordLengthOfWord(w: string, tail: string)
    requires w != [] && NoWhitespace(w) && (tail != [] ==> IsWhitespace(tail[0]))
    ensures WordLength(w + tail) == |w|
    ensures (w + tail)[..|w|] == w && (w + tail)[|w|..] == tail
  {
    var n := WordLength(w + tail);
    assert (w + tail)[..|w|] == w;
    if tail != [] {
      assert (w + tail)[|w|] == tail[0];
    }
  }

  /** The uppercase form of one character, exact for every character whose uppercase form is ASCII. */
  function UpperChar(c: char): (r: string)
    ensures |r| >= 1
  {
    var n := c as int;
    if 'a' <= c <= 'z' then [(n - 32) as char]
    else if n == 0x131 then "I"
    else if n == 0x17F then "S"
    else if n == 0xDF then "SS"
    else if n == 0xFB00 then "FF"
    else if n == 0xFB01 then "FI"
    else if n == 0xFB02 then "FL"
    else if n == 0xFB03 then "FFI"
    else if n == 0xFB04 then "FFL"
    else if n == 0xFB05 || n == 0xFB06 then "ST"
    else [c]
  }

  /** `s.to_uppercase()`. */
  function ToUpper(s: string): (r: string)
    ensures |r| >= |s|
  {
    if s == [] then [] else UpperChar(s[0]) + ToUpper(s[1..])
  }

  /** Uppercasing distributes over concatenation. */
  lemma {:induction false} ToUpperAppend(a: string, b: string)
    ensures ToUpper(a + b) == ToUpper(a) + ToUpper(b)
  {
    if a != [] {
      assert (a + b)[0] == a[0];
      assert (a + b)[1..] == a[1..] + b;
      ToUpperAppend(a[1..], b);
      calc {
        ToUpper(a + b);
        UpperChar(a[0]) + ToUpper(a[1..] + b);
        UpperChar(a[0]) + (ToUpper(a[1..]) + ToUpper(b));
        (UpperChar(a[0]) + ToUpper(a[1..])) + ToUpper(b);
      }
    } else {
      assert a + b == b;
    }
  }

  /** Uppercasing twice is uppercasing once. */
  lemma {:induction false} ToUpperIdempotent(s: string)
    ensures ToUpper(ToUpper(s)) == ToUpper(s)
  {
    if s != [] {
      var u := UpperChar(s[0]);
      assert ToUpper(u) == u by {
        UpperCharIdempotent(s[0]);
      }
      ToUpperAppend(u, ToUpper(s[1..]));
      ToUpperIdempotent(s[1..]);
    }
  }

  /** Each character's uppercase form is already uppercase. */
  lemma UpperCharIdempotent(c: char)
    ensures ToUpper(UpperChar(c)) == UpperChar(c)
  {
    var u := UpperChar(c);
    if |u| == 1 {
      assert ToUpper(u) == UpperChar(u[0]) + ToUpper([]);
    } else if |u| == 2 {
      assert u == [u[0]] + [u[1]];
      ToUpperAppend([u[0]], [u[1]]);
      assert ToUpper([u[0]]) == UpperChar(u[0]) + ToUpper([]);
      assert ToUpper([u[1]]) == UpperChar(u[1]) + ToUpper([]);
    } else {
      assert u == [u[0]] + [u[1]] + [u[2]];
      ToUpperAppend([u[0]] + [u[1]], [u[2]]);
      ToUpperAppend([u[0]], [u[1]]);
      assert ToUpper([u[0]]) == UpperChar(u[0]) + ToUpper([]);
      assert ToUpper([u[1]]) == UpperChar(u[1]) + ToUpper([]);
      assert ToUpper([u[2]]) == UpperChar(u[2]) + ToUpper([]);
    }
  }

  /**
    * `text.lines()`: the text split at each `\n`, a `\r` just before the
    * `\n` dropped with it; a final line ending adds no empty line.
    */
  function Lines(text: string): (lines: seq<string>)
    ensures forall i | 0 <= i < |lines| :: '\n' !in lines[i]
    decreases |text|
  {
    if text == [] then []
    else
      FindSpec(text, "\n");
      match Find(text, "\n")
      case None =>
        assert '\n' !in text by {
          forall i | 0 <= i < |text| ensures text[i] != '\n' {
            assert !OccursAt(text, "\n", i);
            assert text[i..i + 1] == [text[i]];
          }
        }
        [text]
      case Some(i) =>
        var line := text[..i];
        assert '\n' !in line by {
          forall j | 0 <= j < i ensures line[j] != '\n' {
            assert !OccursAt(text, "\n", j);
            assert text[j..j + 1] == [text[j]];
          }
        }
        [if EndsWith(line, "\r") then line[..i - 1] else line] + Lines(text[i + 1..])
  }

  /** The lines joined with `\n`. */
  function JoinLines(lines: seq<string>): string {
    if lines == [] then []
    else if |lines| == 1 then lines[0]
    else lines[0] + "\n" + JoinLines(lines[1..])
  }

  /**
    * Splitting into lines undoes joining lines that hold no `\n` and end in
    * no `\r`, when the last line is not empty.
    */
  lemma {:induction false} LinesJoinLines(lines: seq<string>)
    requires forall i | 0 <= i < |lines| :: '\n' !in lines[i] && !EndsWith(lines[i], "\r")
    requires lines != [] ==> lines[|lines| - 1] != []
    ensures Lines(JoinLines(lines)) == lines
  {
    if |lines| == 1 {
      FindNoNewline(lines[0]);
    } else if |lines| > 1 {
      var l := lines[0];
      var rest := JoinLines(lines[1..]);
      FindNewlineAfter(l, rest);
      LinesJoinLines(lines[1..]);
    }
  }

  /** Non-empty text without a line ending is one line. */
  lemma SingleLine(s: string)
    requires s != [] && '\n' !in s
    ensures Lines(s) == [s]
  {
    FindNoNewline(s);
  }

  /** Text without `\n` holds no line ending. */
  lemma FindNoNewline(s: string)
    requires '\n' !in s
    ensures Find(s, "\n").None?
  {
    FindSpec(s, "\n");
    forall j: nat ensures !OccursAt(s, "\n", j) {
      if j < |s| {
        assert s[j] != '\n';
        assert s[j..j + 1] == [s[j]];
      }
    }
  }

  /** The first line ending of `l + "\n" + rest` ends `l`, when `l` holds none. */
  lemma FindNewlineAfter(l: string, rest: string)
    requires '\n' !in l
    ensures var text := l + "\n" + rest;
      Find(text, "\n") == Some(|l|) && text[..|l|] == l && text[|l| + 1..] == rest
  {
    var text := l + "\n" + rest;
    assert OccursAt(text, "\n", |l|);
    forall j | 0 <= j < |l| ensures !OccursAt(text, "\n", j) {
      assert text[j..j + 1][0] == l[j];
    }
    FindAt(text, "\n", |l|);
    assert text[..|l|] == l;
    assert text[|l| + 1..] == rest;
  }
}
