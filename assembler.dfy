/**
  * `assemble` (chip8-assembler/src/lib.rs): the two-pass assembler. The
  * lines of the text become partial statements; a layout pass gives each
  * statement its address; a label pass builds the table of label addresses;
  * a resolution pass parses every statement against the complete table; the
  * image is the bytes of the statements in order.
  */
module Assembler {
  import opened Wrappers
  import opened Bits
  import opened Text
  import opened Instructions
  import opened AssemblerErrors
  import opened Statements

  /**
    * The parsing functions `assemble` calls but this model does not define:
    * `get_partial_statement`, `parse_label`, `parse_bytes`, the four-argument
    * `parse_instruction`, and the instruction encoder.
    */
  datatype Frontend = Frontend(
    partialStatement: (string, U16) -> seq<Statement>,
    parseLabel: (string, U16) -> Result<string, AssemblerError>,
    parseBytes: string -> Result<seq<U8>, seq<AssemblerError>>,
    parseInstruction: (string, U16, map<string, U16>, U16) -> Result<Instruction, AssemblerError>,
    encode: Encoder)

  // ---------------------------------------------------------------------
  // Partial statements

  /** The statements of the lines, the first numbered `first`; line numbers are cast to `u16`. */
  function StatementsFrom(lines: seq<string>, first: nat, fe: Frontend): seq<Statement>
    decreases |lines|
  {
    if lines == [] then []
    else fe.partialStatement(lines[0], first % 0x1_0000) + StatementsFrom(lines[1..], first + 1, fe)
  }

  /** The partial statements of the text, line by line. */
  function PartialStatements(text: string, fe: Frontend): seq<Statement> {
    StatementsFrom(Lines(text), 0, fe)
  }

  // ---------------------------------------------------------------------
  // Layout

  /** The address each statement starts at when the first starts at `start`, and where the last ends. */
  function Offsets(statements: seq<Statement>, start: nat): (offsets: seq<nat>)
    ensures |offsets| == |statements| + 1 && offsets[0] == start
    ensures forall k | 0 <= k < |statements| :: offsets[k + 1] == offsets[k] + statements[k].size
    decreases |statements|
  {
    if statements == [] then [start]
    else [start] + Offsets(statements[1..], start + statements[0].size)
  }

  /**
    * The layout never overflows a `u16`: each addition the layout loop makes,
    * which it makes only after an address below `max`, stays at most 0xFFFF.
    */
  predicate LayoutFits(statements: seq<Statement>, start: nat, max: U16) {
    var offsets := Offsets(statements, start);
    forall k | 0 <= k < |statements| :: offsets[k] < max ==> offsets[k + 1] <= 0xFFFF
  }

  /** The first of the addresses from `from` on that is at least `max`. */
  function FirstAtOrAbove(addresses: seq<nat>, max: nat, from: nat): (r: Option<nat>)
    requires from <= |addresses|
    ensures r.Some? ==> from <= r.value < |addresses| && addresses[r.value] >= max
    ensures r.Some? ==> forall j | from <= j < r.value :: addresses[j] < max
    ensures r.None? ==> forall j | from <= j < |addresses| :: addresses[j] < max
    decreases |addresses| - from
  {
    if from == |addresses| then None
    else if addresses[from] >= max then Some(from)
    else FirstAtOrAbove(addresses, max, from + 1)
  }

  /** The one error of a statement placed at or beyond the end of memory. */
  function ExceededError(s: Statement, max: U16): AssemblerError {
    NewNoOptions(MemoryExceeded(max), LocationLineNum(s.lineNum))
  }

  /**
    * The layout pass: each statement placed at its offset, or the memory
    * error of the first statement whose offset is not below `max`.
    */
  function Layout(statements: seq<Statement>, start: nat, max: U16): (r: Result<seq<Statement>, seq<AssemblerError>>)
    ensures r.Success? ==> |r.value| == |statements|
    ensures r.Failure? ==> |r.error| == 1 && r.error[0].message == MemoryExceeded(max)
  {
    var offsets := Offsets(statements, start);
    match FirstAtOrAbove(offsets[..|statements|], max, 0)
    case Some(k) => Failure([ExceededError(statements[k], max)])
    case None =>
      Success(seq(|statements|, k requires 0 <= k < |statements| => statements[k].(memAddr := offsets[k])))
  }

  /** The layout loop of `assemble`. */
  method LayOut(statements: seq<Statement>, start: U16, max: U16) returns (r: Result<seq<Statement>, seq<AssemblerError>>)
    requires LayoutFits(statements, start, max)
    ensures r == Layout(statements, start, max)
  {
    ghost var offsets := Offsets(statements, start);
    var placed := statements;
    var next: U16 := start;
    for i := 0 to |statements|
      invariant |placed| == |statements| && placed[i..] == statements[i..]
      invariant next == offsets[i]
      invariant forall k | 0 <= k < i :: offsets[k] < max && placed[k] == statements[k].(memAddr := offsets[k])
    {
      if next >= max {
        FirstAtOrAboveAt(offsets[..|statements|], max, i);
        return Failure([ExceededError(placed[i], max)]);
      }
      assert placed[i] == statements[i] by {
        assert placed[i..][0] == statements[i..][0];
      }
      assert offsets[i] < max ==> offsets[i + 1] <= 0xFFFF;
      placed := placed[i := placed[i].(memAddr := next)];
      next := next + placed[i].size;
    }
    assert forall k | 0 <= k < |statements| :: offsets[..|statements|][k] < max;
    assert placed == seq(|statements|, k requires 0 <= k < |statements| => statements[k].(memAddr := offsets[k]));
    return Success(placed);
  }

  /** The first address at or above the bound is the one found. */
  lemma {:induction false} FirstAtOrAboveAt(addresses: seq<nat>, max: nat, i: nat)
    requires i < |addresses| && addresses[i] >= max && forall j | 0 <= j < i :: addresses[j] < max
    ensures FirstAtOrAbove(addresses, max, 0) == Some(i)
  {
    FirstAtOrAboveFrom(addresses, max, i, 0);
  }

  /** The search from `from` finds the first address at or above the bound that lies at or after `from`. */
  lemma {:induction false} FirstAtOrAboveFrom(addresses: seq<nat>, max: nat, i: nat, from: nat)
    requires from <= i < |addresses| && addresses[i] >= max && forall j | from <= j < i :: addresses[j] < max
    ensures FirstAtOrAbove(addresses, max, from) == Some(i)
    decreases i - from
  {
    if from < i {
      FirstAtOrAboveFrom(addresses, max, i, from + 1);
    }
  }

  /**
    * A successful layout keeps every statement and its contents, puts the
    * first at `start` and each next one right after the previous, and puts
    * every statement below `max`.
    */
  lemma LayoutSequential(statements: seq<Statement>, start: nat, max: U16)
    requires Layout(statements, start, max).Success?
    ensures var placed := Layout(statements, start, max).value;
      |placed| == |statements| &&
      (statements != [] ==> placed[0].memAddr == start) &&
      (forall k | 0 <= k < |placed| - 1 :: placed[k + 1].memAddr == placed[k].memAddr + statements[k].size) &&
      (forall k | 0 <= k < |placed| :: placed[k].memAddr < max && placed[k] == statements[k].(memAddr := placed[k].memAddr))
  {
    var offsets := Offsets(statements, start);
    assert forall k | 0 <= k < |statements| :: offsets[..|statements|][k] == offsets[k];
  }

  /**
    * A failed layout reports exactly one error, the memory error of the
    * first statement whose address is not below `max`.
    */
  lemma LayoutExceeded(statements: seq<Statement>, start: nat, max: U16) returns (k: nat)
    requires Layout(statements, start, max).Failure?
    ensures k < |statements| && Offsets(statements, start)[k] >= max
    ensures forall j | 0 <= j < k :: Offsets(statements, start)[j] < max
    ensures Layout(statements, start, max).error == [NewNoOptions(MemoryExceeded(max), LocationLineNum(statements[k].lineNum))]
  {
    var offsets := Offsets(statements, start);
    k := FirstAtOrAbove(offsets[..|statements|], max, 0).value;
    assert forall j | 0 <= j <= k :: offsets[..|statements|][j] == offsets[j];
  }

  /** The layout succeeds exactly when every statement starts below `max`. */
  lemma LayoutSucceedsIff(statements: seq<Statement>, start: nat, max: U16)
    ensures Layout(statements, start, max).Success? <==>
      forall k | 0 <= k < |statements| :: Offsets(statements, start)[k] < max
  {
    var offsets := Offsets(statements, start);
    assert forall k | 0 <= k < |statements| :: offsets[..|statements|][k] == offsets[k];
    var first := FirstAtOrAbove(offsets[..|statements|], max, 0);
    if first.Some? {
      assert offsets[first.value] >= max;
    }
  }

  // ---------------------------------------------------------------------
  // Labels

  /** The label table after one more statement: a label adds its name and address, once. */
  function AddLabel(labels: map<string, U16>, s: Statement, fe: Frontend): (r: Result<map<string, U16>, seq<AssemblerError>>)
    ensures !s.statementType.Label? ==> r == Success(labels)
    ensures r.Success? ==> forall name | name in labels :: name in r.value && r.value[name] == labels[name]
    ensures r.Success? ==> forall name | name in r.value && name !in labels ::
      Declares(s, fe, name) && name != [] && r.value[name] == s.memAddr
    ensures r.Failure? ==> |r.error| == 1
  {
    if !s.statementType.Label? then Success(labels)
    else
      match fe.parseLabel(s.line, s.lineNum)
      case Failure(e) => Failure([e])
      case Success(name) =>
        if name == [] then Failure([NewNoOptions(EmptyLabel, Location(None, s.lineNum))])
        else if name in labels then Failure([NewNoOptions(LabelUsed(name), Location(None, s.lineNum))])
        else Success(labels[name := s.memAddr])
  }

  /** The label table of the first `n` statements. */
  function LabelsUpTo(statements: seq<Statement>, n: nat, fe: Frontend): (r: Result<map<string, U16>, seq<AssemblerError>>)
    requires n <= |statements|
    ensures r.Success? ==> forall name | name in r.value :: name != []
    ensures r.Failure? ==> |r.error| == 1
  {
    if n == 0 then Success(map[])
    else
      var labels :- LabelsUpTo(statements, n - 1, fe);
      AddLabel(labels, statements[n - 1], fe)
  }

  /** The label pass. */
  function LabelTable(statements: seq<Statement>, fe: Frontend): (r: Result<map<string, U16>, seq<AssemblerError>>)
    ensures r.Success? ==> forall name | name in r.value :: name != []
    ensures r.Failure? ==> |r.error| == 1
  {
    LabelsUpTo(statements, |statements|, fe)
  }

  /** The label loop of `assemble`. */
  method BuildLabels(statements: seq<Statement>, fe: Frontend) returns (r: Result<map<string, U16>, seq<AssemblerError>>)
    ensures r == LabelTable(statements, fe)
  {
    var labels: map<string, U16> := map[];
    for i := 0 to |statements|
      invariant LabelsUpTo(statements, i, fe) == Success(labels)
    {
      var s := statements[i];
      if s.statementType.Label? {
        var parsed := fe.parseLabel(s.line, s.lineNum);
        if parsed.Failure? {
          LabelFailureIsFinal(statements, i + 1, |statements|, fe);
          return Failure([parsed.error]);
        }
        var name := parsed.value;
        if name == [] {
          LabelFailureIsFinal(statements, i + 1, |statements|, fe);
          return Failure([NewNoOptions(EmptyLabel, Location(None, s.lineNum))]);
        }
        if name in labels {
          LabelFailureIsFinal(statements, i + 1, |statements|, fe);
          return Failure([NewNoOptions(LabelUsed(name), Location(None, s.lineNum))]);
        }
        labels := labels[name := s.memAddr];
      }
    }
    return Success(labels);
  }

  /** Once the label pass fails, it fails with the same errors however many statements follow. */
  lemma {:induction false} LabelFailureIsFinal(statements: seq<Statement>, i: nat, n: nat, fe: Frontend)
    requires i <= n <= |statements| && LabelsUpTo(statements, i, fe).Failure?
    ensures LabelsUpTo(statements, n, fe) == LabelsUpTo(statements, i, fe)
    decreases n
  {
    if n > i {
      LabelFailureIsFinal(statements, i, n - 1, fe);
    }
  }

  /** The name a label statement declares, when it parses. */
  predicate Declares(s: Statement, fe: Frontend, name: string) {
    s.statementType.Label? && fe.parseLabel(s.line, s.lineNum) == Success(name)
  }

  /**
    * A successful table maps exactly the declared names: each label of the
    * first `n` statements has a non-empty name in the table, at the
    * statement's address, and every name in the table is so declared.
    */
  lemma {:induction false} LabelTableExact(statements: seq<Statement>, n: nat, fe: Frontend)
    requires n <= |statements| && LabelsUpTo(statements, n, fe).Success?
    ensures var labels := LabelsUpTo(statements, n, fe).value;
      (forall k | 0 <= k < n && statements[k].statementType.Label? ::
         exists name :: (Declares(statements[k], fe, name) && name != [] && name in labels &&
           labels[name] == statements[k].memAddr)) &&
      (forall name | name in labels :: exists k :: (0 <= k < n && Declares(statements[k], fe, name) &&
         labels[name] == statements[k].memAddr))
  {
    if n > 0 {
      var before := LabelsUpTo(statements, n - 1, fe);
      LabelTableExact(statements, n - 1, fe);
      var labels := LabelsUpTo(statements, n, fe).value;
      var s := statements[n - 1];
      if s.statementType.Label? {
        var name := fe.parseLabel(s.line, s.lineNum).value;
        assert labels == before.value[name := s.memAddr];
        assert Declares(s, fe, name);
        forall k | 0 <= k < n - 1 && statements[k].statementType.Label?
          ensures exists name' :: (Declares(statements[k], fe, name') && name' != [] && name' in labels &&
            labels[name'] == statements[k].memAddr)
        {
          var name' :| Declares(statements[k], fe, name') && name' != [] && name' in before.value &&
            before.value[name'] == statements[k].memAddr;
          assert name' != name;
        }
      }
    }
  }

  /**
    * Two labels with the same name make the label pass fail; when the labels
    * before the second one were accepted, with the single "already used"
    * error at the second one's line.
    */
  lemma DuplicateLabelFails(statements: seq<Statement>, fe: Frontend, name: string, k: nat, l: nat)
    requires k < l < |statements| && Declares(statements[k], fe, name) && Declares(statements[l], fe, name)
    ensures LabelTable(statements, fe).Failure?
    ensures LabelsUpTo(statements, l, fe).Success? ==>
      LabelTable(statements, fe) == Failure([NewNoOptions(LabelUsed(name), Location(None, statements[l].lineNum))])
  {
    var before := LabelsUpTo(statements, l, fe);
    if before.Success? {
      LabelTableExact(statements, l, fe);
      assert name in before.value;
      LabelFailureIsFinal(statements, l + 1, |statements|, fe);
    } else {
      LabelFailureIsFinal(statements, l, |statements|, fe);
    }
  }

  /**
    * A label whose name is empty stops the label pass: when the labels before
    * it were accepted, the pass fails with the single empty-label error at
    * that statement's line.
    */
  lemma EmptyLabelFails(statements: seq<Statement>, fe: Frontend, l: nat)
    requires l < |statements| && Declares(statements[l], fe, [])
    ensures LabelTable(statements, fe).Failure?
    ensures LabelsUpTo(statements, l, fe).Success? ==>
      LabelTable(statements, fe) == Failure([NewNoOptions(EmptyLabel, Location(None, statements[l].lineNum))])
  {
    if LabelsUpTo(statements, l, fe).Success? {
      LabelFailureIsFinal(statements, l + 1, |statements|, fe);
    } else {
      LabelFailureIsFinal(statements, l, |statements|, fe);
    }
  }

  // ---------------------------------------------------------------------
  // Resolution

  /** One statement parsed in full, against the label table. */
  function ResolveOne(s: Statement, labels: map<string, U16>, max: U16, fe: Frontend): (r: Result<Statement, seq<AssemblerError>>)
    ensures r.Success? ==> r.value == s.(statementType := r.value.statementType)
    ensures r.Success? ==>
      (r.value.statementType.Bytes? == s.statementType.Bytes? && r.value.statementType.Label? == s.statementType.Label?)
    ensures r.Failure? ==> !s.statementType.Bytes? ==> |r.error| == 1
  {
    match s.statementType
    case Bytes(_) =>
      var data :- fe.parseBytes(s.line);
      Success(s.(statementType := Bytes(data)))
    case InstructionStatement(_) =>
      (match fe.parseInstruction(s.line, s.lineNum, labels, max)
       case Failure(e) => Failure([e])
       case Success(instruction) => Success(s.(statementType := InstructionStatement(instruction))))
    case Label(_) =>
      match fe.parseLabel(s.line, s.lineNum)
      case Failure(e) => Failure([e])
      case Success(name) => Success(s.(statementType := Label(name)))
  }

  /** The resolution pass: every statement resolved, in order, stopping at the first failure. */
  function Resolve(statements: seq<Statement>, labels: map<string, U16>, max: U16, fe: Frontend): (r: Result<seq<Statement>, seq<AssemblerError>>)
    ensures r.Success? ==> |r.value| == |statements|
    ensures r.Success? ==> forall k | 0 <= k < |statements| ::
      r.value[k] == statements[k].(statementType := r.value[k].statementType)
    decreases |statements|
  {
    if statements == [] then Success([])
    else
      var first :- ResolveOne(statements[0], labels, max, fe);
      var rest :- Resolve(statements[1..], labels, max, fe);
      Success([first] + rest)
  }

  /** The resolution loop of `assemble`. */
  method ResolveAll(statements: seq<Statement>, labels: map<string, U16>, max: U16, fe: Frontend)
    returns (r: Result<seq<Statement>, seq<AssemblerError>>)
    ensures r == Resolve(statements, labels, max, fe)
  {
    var resolved := statements;
    for i := 0 to |statements|
      invariant |resolved| == |statements| && resolved[i..] == statements[i..]
      invariant forall k | 0 <= k < i :: ResolveOne(statements[k], labels, max, fe) == Success(resolved[k])
    {
      var s := resolved[i];
      match s.statementType {
        case Bytes(_) =>
          var data := fe.parseBytes(s.line);
          if data.Failure? {
            ResolveFailsAt(statements, labels, max, fe, i);
            return Failure(data.error);
          }
          resolved := resolved[i := s.(statementType := Bytes(data.value))];
        case InstructionStatement(_) =>
          var instruction := fe.parseInstruction(s.line, s.lineNum, labels, max);
          if instruction.Failure? {
            ResolveFailsAt(statements, labels, max, fe, i);
            return Failure([instruction.error]);
          }
          resolved := resolved[i := s.(statementType := InstructionStatement(instruction.value))];
        case Label(_) =>
          var name := fe.parseLabel(s.line, s.lineNum);
          if name.Failure? {
            ResolveFailsAt(statements, labels, max, fe, i);
            return Failure([name.error]);
          }
          resolved := resolved[i := s.(statementType := Label(name.value))];
      }
    }
    ResolveSucceeds(statements, labels, max, fe, resolved);
    return Success(resolved);
  }

  /** Resolution fails with the error of the first statement that fails. */
  lemma {:induction false} ResolveFailsAt(statements: seq<Statement>, labels: map<string, U16>, max: U16, fe: Frontend, i: nat)
    requires i < |statements| && ResolveOne(statements[i], labels, max, fe).Failure?
    requires forall k | 0 <= k < i :: ResolveOne(statements[k], labels, max, fe).Success?
    ensures Resolve(statements, labels, max, fe) == Failure(ResolveOne(statements[i], labels, max, fe).error)
    decreases i
  {
    if i > 0 {
      var tail := statements[1..];
      assert tail[i - 1] == statements[i];
      assert forall k | 0 <= k < i - 1 :: tail[k] == statements[k + 1];
      ResolveFailsAt(tail, labels, max, fe, i - 1);
    }
  }

  /** Resolution succeeds with the resolved statements when every statement resolves. */
  lemma {:induction false} ResolveSucceeds(statements: seq<Statement>, labels: map<string, U16>, max: U16, fe: Frontend, resolved: seq<Statement>)
    requires |resolved| == |statements|
    requires forall k | 0 <= k < |statements| :: ResolveOne(statements[k], labels, max, fe) == Success(resolved[k])
    ensures Resolve(statements, labels, max, fe) == Success(resolved)
    decreases |statements|
  {
    if statements != [] {
      var tail := statements[1..];
      assert forall k | 0 <= k < |tail| :: tail[k] == statements[k + 1] && resolved[1..][k] == resolved[k + 1];
      ResolveSucceeds(tail, labels, max, fe, resolved[1..]);
      assert resolved == [resolved[0]] + resolved[1..];
    }
  }

  /**
    * A successful resolution resolves every statement in place: each
    * result is the statement's own resolution.
    */
  lemma {:induction false} ResolvedInPlace(statements: seq<Statement>, labels: map<string, U16>, max: U16, fe: Frontend)
    requires Resolve(statements, labels, max, fe).Success?
    ensures var resolved := Resolve(statements, labels, max, fe).value;
      |resolved| == |statements| &&
      forall k | 0 <= k < |statements| :: ResolveOne(statements[k], labels, max, fe) == Success(resolved[k])
    decreases |statements|
  {
    if statements != [] {
      ResolvedInPlace(statements[1..], labels, max, fe);
      var resolved := Resolve(statements, labels, max, fe).value;
      assert forall k | 1 <= k < |statements| :: statements[k] == statements[1..][k - 1];
      assert forall k | 1 <= k < |statements| :: resolved[k] == Resolve(statements[1..], labels, max, fe).value[k - 1];
    }
  }

  // ---------------------------------------------------------------------
  // Image

  /** The bytes of the statements, concatenated in order. */
  function Image(statements: seq<Statement>, encode: Encoder): seq<U8>
    decreases |statements|
  {
    if statements == [] then [] else statements[0].Bytes(encode) + Image(statements[1..], encode)
  }

  /** The image of consecutive runs of statements is the concatenation of their images. */
  lemma {:induction false} ImageAppend(a: seq<Statement>, b: seq<Statement>, encode: Encoder)
    ensures Image(a + b, encode) == Image(a, encode) + Image(b, encode)
    decreases |a|
  {
    if a == [] {
      assert a + b == b;
    } else {
      assert (a + b)[0] == a[0];
      assert (a + b)[1..] == a[1..] + b;
      ImageAppend(a[1..], b, encode);
    }
  }

  /** Labels take no room in the image. */
  lemma {:induction false} LabelsHaveNoImage(statements: seq<Statement>, encode: Encoder)
    requires forall k | 0 <= k < |statements| :: statements[k].statementType.Label?
    ensures Image(statements, encode) == []
    decreases |statements|
  {
    if statements != [] {
      LabelsHaveNoImage(statements[1..], encode);
    }
  }

  // ---------------------------------------------------------------------
  // Assemble

  /** `assemble`: layout, label table, resolution against the full table, image. */
  function AssembleSpec(text: string, start: U16, max: U16, fe: Frontend): Result<seq<U8>, seq<AssemblerError>> {
    var placed :- Layout(PartialStatements(text, fe), start, max);
    var labels :- LabelTable(placed, fe);
    var resolved :- Resolve(placed, labels, max, fe);
    Success(Image(resolved, fe.encode))
  }

  /** `assemble`, pass by pass. */
  method Assemble(text: string, memAddrStart: U16, memAddrMax: U16, fe: Frontend) returns (r: Result<seq<U8>, seq<AssemblerError>>)
    requires LayoutFits(PartialStatements(text, fe), memAddrStart, memAddrMax)
    ensures r == AssembleSpec(text, memAddrStart, memAddrMax, fe)
  {
    var statements := PartialStatements(text, fe);
    var placed :- LayOut(statements, memAddrStart, memAddrMax);
    var labels :- BuildLabels(placed, fe);
    var resolved :- ResolveAll(placed, labels, memAddrMax, fe);
    return Success(Image(resolved, fe.encode));
  }

  /** A text with no statements assembles to an empty image. */
  lemma NoStatementsEmptyImage(text: string, start: U16, max: U16, fe: Frontend)
    requires PartialStatements(text, fe) == []
    ensures AssembleSpec(text, start, max, fe) == Success([])
  {
    LayoutSucceedsIff([], start, max);
    LayoutSequential([], start, max);
    assert Layout([], start, max) == Success([]);
    assert LabelTable([], fe) == Success(map[]);
    assert Resolve([], map[], max, fe) == Success([]);
  }

  /** Running out of memory is the only error reported, and it is reported before any label or instruction is parsed. */
  lemma ExceededStopsAssembly(text: string, start: U16, max: U16, fe: Frontend)
    requires Layout(PartialStatements(text, fe), start, max).Failure?
    ensures AssembleSpec(text, start, max, fe).Failure?
    ensures |AssembleSpec(text, start, max, fe).error| == 1
    ensures AssembleSpec(text, start, max, fe).error[0].message == MemoryExceeded(max)
  {
    var k := LayoutExceeded(PartialStatements(text, fe), start, max);
  }

  /** The statements as the layout pass places them, on success. */
  function Placed(text: string, start: U16, max: U16, fe: Frontend): Result<seq<Statement>, seq<AssemblerError>> {
    Layout(PartialStatements(text, fe), start, max)
  }

  /**
    * On success every statement lies below `max`, and the label table holds
    * every label of the program at its address.
    */
  lemma AssembledLabels(text: string, start: U16, max: U16, fe: Frontend)
    requires AssembleSpec(text, start, max, fe).Success?
    ensures Placed(text, start, max, fe).Success? && LabelTable(Placed(text, start, max, fe).value, fe).Success?
    ensures var placed := Placed(text, start, max, fe).value;
      var labels := LabelTable(placed, fe).value;
      (forall k | 0 <= k < |placed| :: placed[k].memAddr < max) &&
      (forall k | 0 <= k < |placed| && placed[k].statementType.Label? ::
         exists name :: (Declares(placed[k], fe, name) && name in labels && labels[name] == placed[k].memAddr))
  {
    var statements := PartialStatements(text, fe);
    var placed := Layout(statements, start, max).value;
    LayoutSequential(statements, start, max);
    LabelTableExact(placed, |placed|, fe);
  }

  /**
    * On success each instruction is parsed against the complete label
    * table, so a label may be used before it is declared.
    */
  lemma AssembledWithFullTable(text: string, start: U16, max: U16, fe: Frontend)
    requires AssembleSpec(text, start, max, fe).Success?
    ensures Placed(text, start, max, fe).Success? && LabelTable(Placed(text, start, max, fe).value, fe).Success?
    ensures var placed := Placed(text, start, max, fe).value;
      var labels := LabelTable(placed, fe).value;
      forall k | 0 <= k < |placed| && placed[k].statementType.InstructionStatement? ::
        fe.parseInstruction(placed[k].line, placed[k].lineNum, labels, max).Success?
  {
    var placed := Placed(text, start, max, fe).value;
    var labels := LabelTable(placed, fe).value;
    ResolvedInPlace(placed, labels, max, fe);
  }

  /**
    * On success the image is the bytes of the resolved statements in order,
    * each at the statement's place.
    */
  lemma AssembledImage(text: string, start: U16, max: U16, fe: Frontend)
    requires AssembleSpec(text, start, max, fe).Success?
    ensures var placed := Layout(PartialStatements(text, fe), start, max).value;
      var labels := LabelTable(placed, fe).value;
      var resolved := Resolve(placed, labels, max, fe).value;
      |resolved| == |placed| &&
      (forall k | 0 <= k < |placed| :: resolved[k].memAddr == placed[k].memAddr && resolved[k].line == placed[k].line) &&
      AssembleSpec(text, start, max, fe).value == Image(resolved, fe.encode)
  {
    var placed := Layout(PartialStatements(text, fe), start, max).value;
    var labels := LabelTable(placed, fe).value;
    ResolvedInPlace(placed, labels, max, fe);
  }
}
