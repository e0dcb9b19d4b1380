/**
  * The interpreter (chip8/src/processor.rs): a `Processor` whose registers,
  * framebuffer, memory and stack are updated in place. The `Registers`
  * struct is flattened into the class, and the logger is left out.
  *
  * Every method is proved against the reference semantics: its new state,
  * read through the ghost `State()`, is the `Semantics` function of the
  * old state, so every property proved about `Semantics` holds of the
  * class.
  */
module Engine {
  import opened Wrappers
  import opened Bits
  import opened KeyMask
  import opened Instructions
  import opened Sprite
  import opened Semantics
  import DisplayView

  /** `slice.fill(v)`: every element set to `v`. */
  method Fill<T>(a: array<T>, v: T)
    modifies a
    ensures forall i | 0 <= i < a.Length :: a[i] == v
  {
    for i := 0 to a.Length
      invariant forall k | 0 <= k < i :: a[k] == v
    {
      a[i] := v;
    }
  }

  /** `a[at..at + src.len()].copy_from_slice(src)`: `src` copied in from `at`, the rest kept. */
  method CopyInto(a: array<U8>, at: nat, src: seq<U8>)
    requires at + |src| <= a.Length
    modifies a
    ensures forall i | 0 <= i < a.Length ::
              a[i] == if at <= i < at + |src| then src[i - at] else old(a[i])
  {
    for i := 0 to |src|
      invariant forall k | 0 <= k < a.Length ::
                  a[k] == if at <= k < at + i then src[k - at] else old(a[k])
    {
      a[at + i] := src[i];
    }
  }

  class Processor {
    const general: array<U8>
    var pointer: U16
    var programCounter: U16
    var stackPointer: nat
    var delayTimer: U8
    var soundTimer: U8
    const display: array<bv8>
    const memory: array<U8>
    const stack: array<U16>
    var keys: Keys
    var waitForKey: WaitForKey
    var exit: bool

    /** The array sizes fixed by the Rust types, a stack pointer within the stack, and distinct register and memory arrays. */
    ghost predicate Valid()
      reads this
    {
      general.Length == REGISTER_COUNT && display.Length == DISPLAY_BYTES &&
      memory.Length == MEMORY_SIZE && stack.Length == STACK_SIZE &&
      stackPointer <= STACK_SIZE && general != memory
    }

    /** The state as a `Machine` value. */
    ghost function State(): (m: Machine)
      reads this, general, display, memory, stack
      ensures Valid() ==> m.Valid()
    {
      Machine(general[..], pointer, programCounter, stackPointer, delayTimer, soundTimer,
              display[..], memory[..], stack[..], keys, waitForKey, exit)
    }

    /** `Processor::new`: the all-zero machine. */
    constructor ()
      ensures Valid() && State() == Semantics.New()
      ensures fresh(general) && fresh(display) && fresh(memory) && fresh(stack)
    {
      general := new U8[REGISTER_COUNT](_ => 0);
      pointer, programCounter, stackPointer := 0, 0, 0;
      delayTimer, soundTimer := 0, 0;
      display := new bv8[DISPLAY_BYTES](_ => 0);
      memory := new U8[MEMORY_SIZE](_ => 0);
      stack := new U16[STACK_SIZE](_ => 0);
      keys := {};
      waitForKey := NotWaiting;
      exit := false;
      new;
      assert general[..] == Filled(0, REGISTER_COUNT);
      assert display[..] == Filled(0, DISPLAY_BYTES);
      assert memory[..] == Filled(0, MEMORY_SIZE);
    }

    /** `Processor::initialize`: the machine reset and loaded with the font and the program. */
    method Initialize(program: seq<U8>)
      requires Valid() && PROGRAM_MEM_ADDR + |program| <= MEMORY_SIZE
      modifies this, general, display, memory, stack
      ensures Valid() && State() == Semantics.Initialize(program)
    {
      Reset();
      LoadMemory(program);
    }

    /** The start of `initialize`: registers, display, stack, keys and flags cleared, execution at 0x200. */
    method Reset()
      requires Valid()
      modifies this, general, display, stack
      ensures Valid()
      ensures general[..] == Filled(0, REGISTER_COUNT) && display[..] == Filled(0, DISPLAY_BYTES)
      ensures stack[..] == Filled(0, STACK_SIZE)
      ensures pointer == 0 && programCounter == PROGRAM_MEM_ADDR && stackPointer == 0
      ensures delayTimer == 0 && soundTimer == 0 && keys == {}
      ensures waitForKey == NotWaiting && !exit
    {
      Fill(general, 0);
      pointer := 0;
      programCounter := PROGRAM_MEM_ADDR;
      stackPointer := 0;
      delayTimer := 0;
      soundTimer := 0;
      Fill(display, 0);
      Fill(stack, 0);
      keys := {};
      waitForKey := NotWaiting;
      exit := false;
      assert general[..] == Filled(0, REGISTER_COUNT);
      assert display[..] == Filled(0, DISPLAY_BYTES);
    }

    /** The end of `initialize`: memory cleared, then the font and the program copied in. */
    method LoadMemory(program: seq<U8>)
      requires Valid() && PROGRAM_MEM_ADDR + |program| <= MEMORY_SIZE
      modifies memory
      ensures memory[..] == InitialMemory(program)
    {
      Fill(memory, 0);
      CopyInto(memory, DIGIT_SPRITES_MEM_ADDR, DIGIT_SPRITES);
      CopyInto(memory, PROGRAM_MEM_ADDR, program);
      assert memory[..] == InitialMemory(program);
    }

    /**
      * `Processor::run_next_instruction`: fetch, advance the program counter
      * by 2 and execute, unless the program has exited or waits for a key.
      * The result is the exit flag, or the error of an unknown instruction.
      */
    method RunNextInstruction(decode: Decoder, random: U8) returns (r: Result<bool, ExecutionError>)
      requires Valid() && CanRun(State(), decode)
      modifies this, general, display, memory, stack
      ensures Valid()
      ensures var expected := Semantics.RunNextInstruction(old(State()), decode, random);
              (r.Success? <==> expected.Success?) &&
              (r.Success? ==> State() == expected.value.0 && r.value == expected.value.1) &&
              (r.Failure? ==> r.error == expected.error)
    {
      if exit {
        return Success(true);
      }
      if waitForKey.Waiting? {
        return Success(false);
      }
      var byte1 := memory[programCounter];
      var byte2 := memory[programCounter + 1];
      var instr := decode(byte1, byte2);
      programCounter := programCounter + 2;
      var executed := ExecuteInstruction(instr, random);
      if executed.Failure? {
        return Failure(executed.error);
      }
      return Success(exit);
    }

    /**
      * `Processor::execute_instruction`: the effect of one instruction, the
      * program counter already past it. `Unknown` fails and changes nothing.
      */
    method ExecuteInstruction(instr: Instruction, random: U8) returns (r: Result<(), ExecutionError>)
      requires Valid() && CanExecute(State(), instr)
      modifies this, general, display, memory, stack
      ensures Valid()
      ensures var expected := Semantics.Execute(old(State()), instr, random);
              (r.Success? <==> expected.Success?) &&
              (r.Success? ==> State() == expected.value) &&
              (r.Failure? ==> r.error == expected.error && State() == old(State()))
    {
      if instr.Unknown? {
        return Failure(UnknownInstruction(instr.byte1, instr.byte2));
      } else if IsSkip(instr) {
        ExecuteSkip(instr);
      } else if IsControl(instr) {
        ExecuteControl(instr);
      } else if IsRegister(instr) {
        ExecuteRegister(instr, random);
      } else if IsArithmetic(instr) {
        ExecuteArithmetic(instr);
      } else {
        ExecuteOther(instr);
      }
      return Success(());
    }

    /** The six conditional skips: the program counter advances by 2 when the condition holds. */
    method ExecuteSkip(instr: Instruction)
      requires Valid() && IsSkip(instr) && CanExecute(State(), instr)
      modifies this
      ensures Valid() && State() == SkipIf(old(State()), SkipTaken(old(State()), instr))
    {
      match instr
      case SkipRegEqualsImm(x, byte) =>
        if general[x] == byte {
          programCounter := programCounter + 2;
        }
      case SkipRegNotEqualsImm(x, byte) =>
        if general[x] != byte {
          programCounter := programCounter + 2;
        }
      case SkipRegEqualsReg(x, y) =>
        if general[x] == general[y] {
          programCounter := programCounter + 2;
        }
      case SkipRegNotEqualsReg(x, y) =>
        if general[x] != general[y] {
          programCounter := programCounter + 2;
        }
      case SkipKeyPressed(x) =>
        if general[x] in keys {
          programCounter := programCounter + 2;
        }
      case SkipNotKeyPressed(x) =>
        if general[x] !in keys {
          programCounter := programCounter + 2;
        }
    }

    /** The screen clear, return, exit, the two jumps and call. */
    method ExecuteControl(instr: Instruction)
      requires Valid() && IsControl(instr) && CanExecute(State(), instr)
      modifies this, display, stack
      ensures Valid() && State() == Semantics.ExecuteControl(old(State()), instr)
    {
      match instr
      case ClearDisplay =>
        Fill(display, 0);
        assert display[..] == Filled(0, DISPLAY_BYTES);
      case Return =>
        stackPointer := stackPointer - 1;
        programCounter := stack[stackPointer];
      case Exit =>
        exit := true;
      case Jump(addr) =>
        if programCounter - 2 == addr {
          exit := true;
        }
        programCounter := addr;
      case Call(addr) =>
        stack[stackPointer] := programCounter;
        stackPointer := stackPointer + 1;
        programCounter := addr;
      case JumpOffset(addr) =>
        programCounter := general[0] + addr;
    }

    /** The single-register instructions; `random` stands for the byte `fastrand` draws. */
    method ExecuteRegister(instr: Instruction, random: U8)
      requires Valid() && IsRegister(instr) && CanExecute(State(), instr)
      modifies general
      ensures Valid() && State() == Semantics.ExecuteRegister(old(State()), instr, random)
    {
      if instr.OrReg? || instr.AndReg? || instr.XorReg? || instr.Random? {
        ExecuteBitwise(instr, random);
      } else {
        ExecuteLoad(instr);
      }
    }

    /** The loads into Vx and the wrapping immediate add. */
    method ExecuteLoad(instr: Instruction)
      requires Valid() && CanExecute(State(), instr)
      requires instr.LoadImmToReg? || instr.AddImmToReg? || instr.LoadRegToReg? || instr.LoadDelayTimerToReg?
      modifies general
      ensures Valid() && State() == Semantics.ExecuteRegister(old(State()), instr, 0)
    {
      match instr
      case LoadImmToReg(x, byte) =>
        general[x] := byte;
      case AddImmToReg(x, byte) =>
        general[x] := (general[x] as int + byte) % 256;
      case LoadRegToReg(x, y) =>
        general[x] := general[y];
      case LoadDelayTimerToReg(x) =>
        general[x] := delayTimer;
    }

    /** The bitwise instructions and `Random`. */
    method ExecuteBitwise(instr: Instruction, random: U8)
      requires Valid() && CanExecute(State(), instr)
      requires instr.OrReg? || instr.AndReg? || instr.XorReg? || instr.Random?
      modifies general
      ensures Valid() && State() == Semantics.ExecuteRegister(old(State()), instr, random)
    {
      match instr
      case OrReg(x, y) =>
        general[x] := BitOr(general[x], general[y]);
      case AndReg(x, y) =>
        general[x] := BitAnd(general[x], general[y]);
      case XorReg(x, y) =>
        general[x] := BitXor(general[x], general[y]);
      case Random(x, byte) =>
        general[x] := BitAnd(random, byte);
    }

    /** The arithmetic instructions: Vx is written first, then VF. */
    method ExecuteArithmetic(instr: Instruction)
      requires Valid() && IsArithmetic(instr) && CanExecute(State(), instr)
      modifies general
      ensures Valid() && State() == Semantics.ExecuteArithmetic(old(State()), instr)
    {
      if instr.ShiftRight? || instr.ShiftLeft? {
        ExecuteShift(instr);
      } else {
        ExecuteAddSub(instr);
      }
    }

    /** The register add and the two subtractions, VF the carry or no-borrow flag. */
    method ExecuteAddSub(instr: Instruction)
      requires Valid() && CanExecute(State(), instr)
      requires instr.AddReg? || instr.SubReg? || instr.SubNegReg?
      modifies general
      ensures Valid() && State() == Semantics.ExecuteArithmetic(old(State()), instr)
    {
      match instr
      case AddReg(x, y) =>
        var total := general[x] as int + general[y];
        general[x] := total % 256;
        general[FLAG] := if total > 255 then 1 else 0;
      case SubReg(x, y) =>
        var vx, vy := general[x], general[y];
        general[x] := (vx as int - vy) % 256;
        general[FLAG] := if vx >= vy then 1 else 0;
      case SubNegReg(x, y) =>
        var vx, vy := general[x], general[y];
        general[x] := (vy as int - vx) % 256;
        general[FLAG] := if vy >= vx then 1 else 0;
    }

    /** The two shifts, VF the bit shifted out. */
    method ExecuteShift(instr: Instruction)
      requires Valid() && CanExecute(State(), instr)
      requires instr.ShiftRight? || instr.ShiftLeft?
      modifies general
      ensures Valid() && State() == Semantics.ExecuteArithmetic(old(State()), instr)
    {
      match instr
      case ShiftRight(x) =>
        var vx := general[x];
        general[x] := vx / 2;
        general[FLAG] := vx % 2;
      case ShiftLeft(x) =>
        var vx := general[x];
        general[x] := (vx as int * 2) % 256;
        general[FLAG] := if vx >= 0x80 then 1 else 0;
    }

    /** The pointer, memory, drawing, timer and key-wait instructions. */
    method ExecuteOther(instr: Instruction)
      requires Valid() && CanExecute(State(), instr)
      requires !IsSkip(instr) && !IsControl(instr) && !IsRegister(instr) && !IsArithmetic(instr) && !instr.Unknown?
      modifies this, general, display, memory
      ensures Valid() && State() == Semantics.ExecuteOther(old(State()), instr)
    {
      match instr
      case LoadImmToPointer(addr) =>
        pointer := addr;
      case Draw(x, y, nibble) =>
        DrawSprite(x, y, nibble);
      case LoadNextKeyPress(x) =>
        waitForKey := Waiting(x);
      case LoadRegToDelayTimer(x) =>
        delayTimer := general[x];
      case LoadRegToSoundTimer(x) =>
        soundTimer := general[x];
      case AddRegToPointer(x) =>
        pointer := pointer + general[x];
      case LoadDigitSpriteToPointer(x) =>
        pointer := DIGIT_SPRITES_MEM_ADDR + 5 * (general[x] as int);
      case LoadDecimalDigitsToPointer(x) =>
        memory[pointer] := x / 100 % 10;
        memory[pointer + 1] := x / 10 % 10;
        memory[pointer + 2] := x % 10;
      case WriteRegToPointer(x) =>
        WriteRegs(x);
      case ReadRegFromPointer(x) =>
        ReadRegs(x);
    }

    /** `LD [I], Vx`: the loop copying V0 to Vx into memory from I on. */
    method WriteRegs(x: U8)
      requires Valid() && x < 16 && pointer + x < MEMORY_SIZE
      modifies memory
      ensures Valid() && State() == Semantics.WriteRegs(old(State()), x)
    {
      for i := 0 to x + 1
        invariant forall k | 0 <= k < MEMORY_SIZE ::
                    memory[k] == if pointer <= k < pointer + i then general[k - pointer] else old(memory[k])
      {
        memory[pointer + i] := general[i];
      }
      ghost var m := Semantics.WriteRegs(old(State()), x);
      assert memory[..] == m.memory;
    }

    /** `LD Vx, [I]`: the loop loading V0 to Vx from memory from I on. */
    method ReadRegs(x: U8)
      requires Valid() && x < 16 && pointer + x < MEMORY_SIZE
      modifies general
      ensures Valid() && State() == Semantics.ReadRegs(old(State()), x)
    {
      for i := 0 to x + 1
        invariant forall k | 0 <= k < REGISTER_COUNT ::
                    general[k] == if k < i then memory[pointer + k] else old(general[k])
      {
        general[i] := memory[pointer + i];
      }
      ghost var m := Semantics.ReadRegs(old(State()), x);
      assert general[..] == m.general;
    }

    /** `DRW Vx, Vy, nibble`: the sprite XORed in, then VF set to whether a pixel was erased. */
    method DrawSprite(x: U8, y: U8, nibble: U8)
      requires Valid() && x < 16 && y < 16
      requires DrawFits(DISPLAY_BYTES, memory[..], pointer, general[x], general[y], nibble)
      modifies display, general
      ensures Valid() && State() == Semantics.DrawSprite(old(State()), x, y, nibble)
    {
      var erase := XorSprite(general[x], general[y], nibble);
      general[FLAG] := if erase then 1 else 0;
    }

    /**
      * The two nested loops of `Draw`: sprite row `i`, column `j` is step
      * `8 * i + j`, and after each step the framebuffer and the `erase`
      * accumulator are those of the flips so far.
      */
    method XorSprite(vx: U8, vy: U8, nibble: U8) returns (erase: bool)
      requires Valid() && DrawFits(DISPLAY_BYTES, memory[..], pointer, vx, vy, nibble)
      modifies display
      ensures InBounds(Flips(memory[..], pointer, vx, vy, 8 * nibble), DISPLAY_BYTES)
      ensures display[..] == Apply(old(display[..]), Flips(memory[..], pointer, vx, vy, 8 * nibble))
      ensures erase == AnyErased(old(display[..]), Flips(memory[..], pointer, vx, vy, 8 * nibble))
    {
      ghost var d0 := display[..];
      ghost var fs := Flips(memory[..], pointer, vx, vy, 8 * nibble);
      FlipsInBounds(DISPLAY_BYTES, memory[..], pointer, vx, vy, 8 * nibble);
      erase := false;
      for i := 0 to nibble
        invariant display[..] == Apply(d0, fs[..8 * i])
        invariant erase == AnyErased(d0, fs[..8 * i])
      {
        erase := XorRow(vx, vy, nibble, i, d0, fs, erase);
      }
      assert fs[..8 * nibble] == fs;
    }

    /** The inner loop of `Draw`: the eight steps of sprite row `i`, continuing from the flips of the rows above it. */
    method XorRow(vx: U8, vy: U8, nibble: U8, i: nat, ghost d0: seq<bv8>, ghost fs: seq<Flip>, erase0: bool)
      returns (erase: bool)
      requires Valid() && |d0| == DISPLAY_BYTES && i < nibble
      requires 8 * nibble > 0 ==> pointer + (8 * nibble - 1) / 8 < MEMORY_SIZE
      requires fs == Flips(memory[..], pointer, vx, vy, 8 * nibble) && InBounds(fs, DISPLAY_BYTES)
      requires display[..] == Apply(d0, fs[..8 * i]) && erase0 == AnyErased(d0, fs[..8 * i])
      modifies display
      ensures display[..] == Apply(d0, fs[..8 * i + 8]) && erase == AnyErased(d0, fs[..8 * i + 8])
    {
      erase := erase0;
      for j := 0 to 8
        invariant display[..] == Apply(d0, fs[..8 * i + j])
        invariant erase == AnyErased(d0, fs[..8 * i + j])
      {
        FlipsAt(memory[..], pointer, vx, vy, 8 * nibble, 8 * i + j);
        erase := DrawStep(vx, vy, i, j, d0, fs, erase);
      }
    }

    /** One pass of the inner `Draw` loop: step `8 * i + j` applied, and the accumulator updated. */
    method DrawStep(vx: U8, vy: U8, i: nat, j: nat, ghost d0: seq<bv8>, ghost fs: seq<Flip>, erase0: bool)
      returns (erase: bool)
      requires Valid() && |d0| == DISPLAY_BYTES && j < 8 && 8 * i + j < |fs| && pointer + i < MEMORY_SIZE
      requires InBounds(fs, DISPLAY_BYTES) && fs[8 * i + j] == StepFlip(memory[..], pointer, vx, vy, 8 * i + j)
      requires display[..] == Apply(d0, fs[..8 * i + j]) && erase0 == AnyErased(d0, fs[..8 * i + j])
      modifies display
      ensures display[..] == Apply(d0, fs[..8 * i + j + 1]) && erase == AnyErased(d0, fs[..8 * i + j + 1])
    {
      ApplyPrefixStep(d0, fs, 8 * i + j);
      var displayByte, mask := PixelMask(vx, vy, i, j);
      var erased := FlipPixel(displayByte, mask);
      erase := erase0 || erased;
    }

    /** The write of the inner `Draw` loop: `display[byte] ^= mask`; the result says whether the byte became smaller. */
    method FlipPixel(displayByte: nat, mask: bv8) returns (erased: bool)
      requires Valid() && displayByte < DISPLAY_BYTES
      modifies display
      ensures display[..] == ApplyFlip(old(display[..]), Flip(displayByte, mask))
      ensures erased == Erases(old(display[..]), Flip(displayByte, mask))
    {
      var before := display[displayByte];
      display[displayByte] := display[displayByte] ^ mask;
      var after := display[displayByte];
      erased := before > after;
    }

    /**
      * The sprite bit of row `i`, column `j` shifted to its pixel's bit, and
      * that pixel's framebuffer byte: the flip of step `8 * i + j`.
      */
    method PixelMask(vx: U8, vy: U8, i: nat, j: nat) returns (displayByte: nat, mask: bv8)
      requires Valid() && j < 8 && pointer + i < MEMORY_SIZE
      ensures Flip(displayByte, mask) == StepFlip(memory[..], pointer, vx, vy, 8 * i + j)
    {
      StepRowColumn(i, j);
      var spriteBit := ((memory[pointer + i] as bv8) >> (7 - j)) & 1;
      assert spriteBit == SpriteBit(memory[..], pointer, 8 * i + j);
      var col := (vx as int + j) % 256;
      var row := (vy as int + i) % 256;
      assert (col, row) == Pixel(vx, vy, 8 * i + j);
      var displayBit;
      displayByte, displayBit := GetDisplayBit(col, row, DISPLAY_PIXELS_X).0, GetDisplayBit(col, row, DISPLAY_PIXELS_X).1;
      mask := spriteBit << displayBit;
    }

    /** `Processor::tick_timers`. */
    method TickTimers()
      requires Valid()
      modifies this
      ensures Valid() && State() == Semantics.TickTimers(old(State()))
    {
      if delayTimer > 0 {
        delayTimer := delayTimer - 1;
      }
      if soundTimer > 0 {
        soundTimer := soundTimer - 1;
      }
    }

    /** `Processor::has_sound`. */
    function HasSound(): (r: bool)
      reads this, general, display, memory, stack
      ensures r == Semantics.HasSound(State())
    {
      soundTimer > 0
    }

    /** `Processor::set_keys`: a pending key wait takes the lowest newly pressed key; the mask is replaced. */
    method SetKeys(newKeys: Keys)
      requires Valid() && CanSetKeys(State(), newKeys)
      modifies this, general
      ensures Valid() && State() == Semantics.SetKeys(old(State()), newKeys)
    {
      if waitForKey.Waiting? {
        var pressed := NewKeys(keys, newKeys);
        if pressed != {} {
          var n := FindKeyNumber(pressed);
          general[waitForKey.x] := n;
          waitForKey := NotWaiting;
        }
      }
      keys := newKeys;
    }

    /** `Processor::get_display`: the framebuffer viewed as a 64 by 32 display. */
    function GetDisplay(): (d: DisplayView.Display)
      requires Valid()
      reads this, general, display, memory, stack
      ensures d == Semantics.GetDisplay(State())
    {
      DisplayView.New(display[..], DISPLAY_PIXELS_X, DISPLAY_PIXELS_Y)
    }
  }
}
