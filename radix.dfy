/**
  * Rust's `from_str_radix` for unsigned integers, in the three radixes the
  * assembler uses, and the lowercase formatting of `{:x}`. An integer type
  * is given by its largest value.
  */
module Radix {
  import opened Wrappers

  const U8_MAX: nat := 0xFF
  const U64_MAX: nat := 0xFFFF_FFFF_FFFF_FFFF

  /** The radixes of the assembler's literals. */
  datatype Base = Binary | Decimal | Hex

  function Size(b: Base): (r: nat)
    ensures 2 <= r <= 16
  {
    match b
    case Binary => 2
    case Decimal => 10
    case Hex => 16
  }

  /** `v * radix`, one constant factor per radix. */
  function Shift(v: nat, b: Base): (r: nat)
    ensures r >= v && (v > 0 ==> r >= 2 * v)
  {
    match b
    case Binary => 2 * v
    case Decimal => 10 * v
    case Hex => 16 * v
  }

  /** `n / radix`. */
  function Quotient(n: nat, b: Base): (q: nat)
    ensures n >= Size(b) ==> q < n
  {
    match b
    case Binary => n / 2
    case Decimal => n / 10
    case Hex => n / 16
  }

  /** `n % radix`. */
  function Remainder(n: nat, b: Base): (d: nat)
    ensures d < Size(b)
  {
    match b
    case Binary => n % 2
    case Decimal => n % 10
    case Hex => n % 16
  }

  /** Division by the radix: the quotient shifted back plus the remainder is the number. */
  lemma DivideByBase(n: nat, b: Base)
    ensures Shift(Quotient(n, b), b) + Remainder(n, b) == n
  {
  }

  /** The kind carried by a `ParseIntError`. */
  datatype IntErrorKind = Empty | InvalidDigit | PosOverflow

  /** The `{:?}` rendering of a `ParseIntError` of this kind. */
  function DebugText(kind: IntErrorKind): string {
    "ParseIntError { kind: " +
    (match kind
     case Empty => "Empty"
     case InvalidDigit => "InvalidDigit"
     case PosOverflow => "PosOverflow") +
    " }"
  }

  /** `c.to_digit(radix)`: the value of an ASCII digit or letter, if below the radix. */
  function DigitValue(c: char, b: Base): (r: Option<nat>)
    ensures r.Some? ==> r.value < Size(b)
  {
    var v :=
      if '0' <= c <= '9' then c as int - '0' as int
      else if 'a' <= c <= 'z' then c as int - 'a' as int + 10
      else if 'A' <= c <= 'Z' then c as int - 'A' as int + 10
      else 36;
    if v < Size(b) then Some(v) else None
  }

  /** Every character of `s` is a digit of the radix. */
  predicate AllDigits(s: string, b: Base) {
    forall i | 0 <= i < |s| :: DigitValue(s[i], b).Some?
  }

  /** A concatenation is all digits exactly when both parts are. */
  lemma AllDigitsAppend(p: string, q: string, b: Base)
    ensures AllDigits(p + q, b) <==> AllDigits(p, b) && AllDigits(q, b)
  {
    if AllDigits(p + q, b) {
      assert forall i | 0 <= i < |p| :: p[i] == (p + q)[i];
      assert forall i | 0 <= i < |q| :: q[i] == (p + q)[|p| + i];
    }
  }

  /** The positional value of a digit string, most significant digit first. */
  function DigitsValue(s: string, b: Base): nat
    requires AllDigits(s, b)
  {
    if s == [] then 0
    else
      assert AllDigits(s[..|s| - 1], b);
      Shift(DigitsValue(s[..|s| - 1], b), b) + DigitValue(s[|s| - 1], b).value
  }

  /**
    * The digit loop of `from_str_radix`, left to right from the value `acc`
    * of the digits before: each character must be a digit, and the value
    * must stay at most `max`; the first failure decides the error.
    */
  function ParseDigits(s: string, b: Base, max: nat, acc: nat): (r: Result<nat, IntErrorKind>)
    requires acc <= max
    ensures r.Success? ==> acc <= r.value <= max
    ensures r.Failure? ==> r.error != Empty
  {
    if s == [] then Success(acc)
    else
      match DigitValue(s[0], b)
      case None => Failure(InvalidDigit)
      case Some(d) =>
        if Shift(acc, b) + d > max then Failure(PosOverflow)
        else ParseDigits(s[1..], b, max, Shift(acc, b) + d)
  }

  /** The digits `from_str_radix` reads: `s` without one leading `+`. */
  function Unsigned(s: string): string {
    if s != [] && s[0] == '+' then s[1..] else s
  }

  /**
    * `T::from_str_radix(s, radix)` for an unsigned `T` whose largest value is
    * `max`: empty text is `Empty`, a lone sign or any non-digit is
    * `InvalidDigit`, and a value above `max` is `PosOverflow`.
    */
  function FromStrRadix(s: string, b: Base, max: nat): (r: Result<nat, IntErrorKind>)
    ensures r.Success? ==> r.value <= max
    ensures r == Failure(Empty) <==> s == []
  {
    if s == [] then Failure(Empty)
    else if |s| == 1 && (s[0] == '+' || s[0] == '-') then Failure(InvalidDigit)
    else ParseDigits(Unsigned(s), b, max, 0)
  }

  /** Appending a digit shifts the value and adds the digit. */
  lemma DigitsValueAppend(p: string, c: char, b: Base)
    requires AllDigits(p, b) && DigitValue(c, b).Some?
    ensures AllDigits(p + [c], b)
    ensures DigitsValue(p + [c], b) == Shift(DigitsValue(p, b), b) + DigitValue(c, b).value
  {
    AllDigitsAppend(p, [c], b);
    assert (p + [c])[..|p|] == p;
  }

  /** Extending a digit string never makes its value smaller. */
  lemma {:induction false} DigitsValueMonotone(p: string, s: string, b: Base)
    requires AllDigits(p, b) && AllDigits(s, b)
    ensures AllDigits(p + s, b) && DigitsValue(p + s, b) >= DigitsValue(p, b)
  {
    AllDigitsAppend(p, s, b);
    if s == [] {
      assert p + s == p;
    } else {
      var init := s[..|s| - 1];
      var last := s[|s| - 1];
      assert s == init + [last];
      AllDigitsAppend(init, [last], b);
      DigitsValueMonotone(p, init, b);
      assert p + s == (p + init) + [last];
      DigitsValueAppend(p + init, last, b);
    }
  }

  /**
    * The digit loop, started from the value of the digits `p` before, yields
    * the positional value of `p + s` when every character is a digit: that
    * value if it fits, otherwise `PosOverflow`.
    */
  lemma {:induction false} ParseDigitsValue(p: string, s: string, b: Base, max: nat)
    requires AllDigits(p, b) && AllDigits(s, b) && DigitsValue(p, b) <= max
    ensures AllDigits(p + s, b)
    ensures ParseDigits(s, b, max, DigitsValue(p, b)) ==
      if DigitsValue(p + s, b) <= max then Success(DigitsValue(p + s, b)) else Failure(PosOverflow)
    decreases |s|
  {
    AllDigitsAppend(p, s, b);
    if s == [] {
      assert p + s == p;
    } else {
      var p' := ParseDigitsStep(p, s, b, max);
      DigitsValueMonotone(p', s[1..], b);
      if DigitsValue(p', b) <= max {
        ParseDigitsValue(p', s[1..], b, max);
      }
    }
  }

  /** One turn of the digit loop moves the first digit of `s` to the end of `p`. */
  lemma ParseDigitsStep(p: string, s: string, b: Base, max: nat) returns (p': string)
    requires AllDigits(p, b) && AllDigits(s, b) && DigitsValue(p, b) <= max && s != []
    ensures p' == p + [s[0]] && p + s == p' + s[1..]
    ensures AllDigits(p', b) && AllDigits(s[1..], b)
    ensures ParseDigits(s, b, max, DigitsValue(p, b)) ==
      if DigitsValue(p', b) > max then Failure(PosOverflow) else ParseDigits(s[1..], b, max, DigitsValue(p', b))
  {
    p' := p + [s[0]];
    AllDigitsAppend([s[0]], s[1..], b);
    assert [s[0]] + s[1..] == s;
    DigitsValueAppend(p, s[0], b);
    assert p + s == p' + s[1..];
  }

  /** Text that is all digits parses to its positional value exactly when that value fits. */
  lemma FromStrRadixValue(s: string, b: Base, max: nat)
    requires s != [] && AllDigits(s, b)
    ensures FromStrRadix(s, b, max) ==
      if DigitsValue(s, b) <= max then Success(DigitsValue(s, b)) else Failure(PosOverflow)
  {
    assert DigitValue(s[0], b).Some?;
    assert s[0] != '+' && s[0] != '-';
    assert Unsigned(s) == s;
    assert FromStrRadix(s, b, max) == ParseDigits(s, b, max, 0);
    assert [] + s == s;
    assert DigitsValue([], b) == 0;
    ParseDigitsValue([], s, b, max);
  }

  /** The digit loop fails with `InvalidDigit` or `PosOverflow` on text holding a non-digit. */
  lemma {:induction false} ParseDigitsInvalid(s: string, b: Base, max: nat, acc: nat)
    requires acc <= max && !AllDigits(s, b)
    ensures ParseDigits(s, b, max, acc).Failure?
  {
    if DigitValue(s[0], b).Some? {
      var d := DigitValue(s[0], b).value;
      if Shift(acc, b) + d <= max {
        assert !AllDigits(s[1..], b) by {
          var i :| 0 <= i < |s| && DigitValue(s[i], b).None?;
          assert s[1..][i - 1] == s[i];
        }
        ParseDigitsInvalid(s[1..], b, max, Shift(acc, b) + d);
      }
    }
  }

  /** Text `from_str_radix` reads as a number: after one optional `+`, one or more digits. */
  predicate IsNumeral(s: string, b: Base) {
    Unsigned(s) != [] && AllDigits(Unsigned(s), b)
  }

  /** The value of a numeral. */
  function NumeralValue(s: string, b: Base): nat
    requires IsNumeral(s, b)
  {
    DigitsValue(Unsigned(s), b)
  }

  /**
    * `from_str_radix` succeeds exactly on a numeral whose value is at most
    * `max`, and then yields that value.
    */
  lemma FromStrRadixSpec(s: string, b: Base, max: nat)
    ensures FromStrRadix(s, b, max).Success? <==> IsNumeral(s, b) && NumeralValue(s, b) <= max
    ensures FromStrRadix(s, b, max).Success? ==> FromStrRadix(s, b, max).value == NumeralValue(s, b)
  {
    if s == [] {
      assert Unsigned(s) == [];
    } else if |s| == 1 && (s[0] == '+' || s[0] == '-') {
      assert DigitValue(s[0], b).None?;
      assert !IsNumeral(s, b);
    } else {
      var u := Unsigned(s);
      assert u != [];
      assert FromStrRadix(s, b, max) == ParseDigits(u, b, max, 0);
      if AllDigits(u, b) {
        assert [] + u == u;
        ParseDigitsValue([], u, b, max);
      } else {
        ParseDigitsInvalid(u, b, max, 0);
        assert !IsNumeral(s, b);
      }
    }
  }

  /** The lowercase digit of value `d`, as `{:x}` writes it. */
  function DigitChar(d: nat, b: Base): (c: char)
    requires d < Size(b)
    ensures DigitValue(c, b) == Some(d)
  {
    if d < 10 then ('0' as int + d) as char else ('a' as int + d - 10) as char
  }

  /** The digits of `n` in the radix, most significant first, without leading zeros. */
  function FormatRadix(n: nat, b: Base): (s: string)
    ensures s != [] && s[0] != '+' && s[0] != '-'
    decreases n
  {
    if n < Size(b) then [DigitChar(n, b)]
    else FormatRadix(Quotient(n, b), b) + [DigitChar(Remainder(n, b), b)]
  }

  /** Formatting a number writes digits whose positional value is the number. */
  lemma {:induction false} FormatRadixValue(n: nat, b: Base)
    ensures AllDigits(FormatRadix(n, b), b)
    ensures DigitsValue(FormatRadix(n, b), b) == n
    decreases n
  {
    if n < Size(b) {
      DigitsValueAppend([], DigitChar(n, b), b);
      assert [] + [DigitChar(n, b)] == [DigitChar(n, b)];
    } else {
      FormatRadixValue(Quotient(n, b), b);
      DigitsValueAppend(FormatRadix(Quotient(n, b), b), DigitChar(Remainder(n, b), b), b);
      DivideByBase(n, b);
    }
  }

  /** Parsing the formatted number gives the number back, whenever it fits the type. */
  lemma FormatThenParse(n: nat, b: Base, max: nat)
    requires n <= max
    ensures FromStrRadix(FormatRadix(n, b), b, max) == Success(n)
  {
    FormatRadixValue(n, b);
    FromStrRadixValue(FormatRadix(n, b), b, max);
  }
}
