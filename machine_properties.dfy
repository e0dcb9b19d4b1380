/**
  * What the interpreter's instructions mean, proved about the `Semantics`
  * functions: the arithmetic behind the wrapped results and the VF flag,
  * the control-flow facts (exit is final, a key wait blocks, call and
  * return pair up, a self-jump halts), the sprite XOR, the memory copies
  * and the timers.
  */
module MachineProperties {
  import opened Wrappers
  import opened Bits
  import opened KeyMask
  import opened Instructions
  import opened Sprite
  import opened Semantics

  // ----- running -----

  /** Once the exit flag is set, running changes nothing and reports exit. */
  lemma ExitIsFinal(m: Machine, decode: Decoder, random: U8)
    requires m.Valid() && m.exit
    ensures CanRun(m, decode)
    ensures RunNextInstruction(m, decode, random) == Success((m, true))
  {
  }

  /** While waiting for a key, running changes nothing. */
  lemma WaitingBlocks(m: Machine, decode: Decoder, random: U8)
    requires m.Valid() && !m.exit && m.waitForKey.Waiting?
    ensures CanRun(m, decode)
    ensures RunNextInstruction(m, decode, random) == Success((m, false))
  {
  }

  /**
    * A machine created by `new` and run without `initialize` fails: its
    * memory is all zero, and the zero word decodes to `Unknown`.
    */
  lemma UninitializedRunFails(decode: Decoder, random: U8)
    requires DecodesZeroAsUnknown(decode)
    ensures CanRun(New(), decode)
    ensures RunNextInstruction(New(), decode, random) == Failure(UnknownInstruction(0, 0))
  {
    var m := New();
    assert Fetch(m, decode) == decode(0, 0);
  }

  /** After `initialize`, the first instruction fetched is the program's first two bytes. */
  lemma InitializeFetchesProgram(program: seq<U8>, decode: Decoder)
    requires 2 <= |program| && PROGRAM_MEM_ADDR + |program| <= MEMORY_SIZE
    ensures Fetch(Initialize(program), decode) == decode(program[0], program[1])
  {
    var m := Initialize(program);
    assert m.memory[PROGRAM_MEM_ADDR..PROGRAM_MEM_ADDR + |program|][0] == program[0];
    assert m.memory[PROGRAM_MEM_ADDR..PROGRAM_MEM_ADDR + |program|][1] == program[1];
  }

  /**
    * A running step that fetched an instruction other than a jump, call,
    * return or skip leaves the program counter two bytes further on.
    */
  lemma StraightLineAdvances(m: Machine, decode: Decoder, random: U8)
    requires m.Valid() && CanRun(m, decode) && !m.exit && m.waitForKey.NotWaiting?
    requires !IsSkip(Fetch(m, decode)) && !IsControl(Fetch(m, decode)) && !Fetch(m, decode).Unknown?
    ensures RunNextInstruction(m, decode, random).Success?
    ensures RunNextInstruction(m, decode, random).value.0.programCounter == m.programCounter + 2
    ensures RunNextInstruction(m, decode, random).value.0.stackPointer == m.stackPointer
  {
  }

  // ----- control flow -----

  /**
    * A skip leaves everything but the program counter alone, and moves it on
    * by a further two bytes exactly when its condition holds.
    */
  lemma SkipAdvancesIffTaken(m: Machine, instr: Instruction, random: U8)
    requires m.Valid() && IsSkip(instr) && CanExecute(m, instr)
    ensures Execute(m, instr, random).Success?
    ensures Execute(m, instr, random).value ==
              m.(programCounter := if SkipTaken(m, instr) then m.programCounter + 2 else m.programCounter)
  {
  }

  /** `SKP Vx` is taken exactly when the key mask shares a key with the one-key mask of Vx. */
  lemma SkipKeyPressedMatchesKeyMask(m: Machine, x: U8)
    requires m.Valid() && x < 16 && m.general[x] < 16
    ensures SkipTaken(m, SkipKeyPressed(x)) <==> KeysHasAnyKey(m.keys, KeyNumberToKeys(m.general[x]))
    ensures SkipTaken(m, SkipNotKeyPressed(x)) <==> !KeysHasAnyKey(m.keys, KeyNumberToKeys(m.general[x]))
  {
    HeldIffSharesKey(m.keys, m.general[x]);
  }

  /** A jump to its own address (the instruction two bytes back) sets the exit flag; any jump lands on its target. */
  lemma JumpToSelfExits(m: Machine, addr: U16, random: U8)
    requires m.Valid() && m.programCounter >= 2
    ensures Execute(m, Jump(addr), random).Success?
    ensures Execute(m, Jump(addr), random).value.programCounter == addr
    ensures Execute(m, Jump(addr), random).value.exit <==> m.exit || m.programCounter - 2 == addr
  {
  }

  /**
    * `CALL` followed by `RET` comes back to the instruction after the call
    * with the stack pointer restored, whatever the routine's address.
    */
  lemma CallThenReturn(m: Machine, addr: U16, random: U8)
    requires m.Valid() && m.stackPointer < STACK_SIZE
    ensures Execute(m, Call(addr), random).Success?
    ensures CanExecute(Execute(m, Call(addr), random).value, Return)
    ensures var called := Execute(m, Call(addr), random).value;
            called.programCounter == addr && called.stackPointer == m.stackPointer + 1 &&
            Execute(called, Return, random).Success? &&
            Execute(called, Return, random).value ==
              m.(stack := called.stack)
  {
  }

  // ----- register arithmetic -----

  /** `ADD Vx, byte` wraps at 256 and, unlike `ADD Vx, Vy`, leaves VF alone (unless x is F). */
  lemma AddImmWraps(m: Machine, x: U8, byte: U8, random: U8)
    requires m.Valid() && x < 16
    ensures Execute(m, AddImmToReg(x, byte), random).Success?
    ensures var r := Execute(m, AddImmToReg(x, byte), random).value;
            (r.general[x] == m.general[x] + byte || r.general[x] == m.general[x] + byte - 256) &&
            forall i | 0 <= i < 16 && i != x :: r.general[i] == m.general[i]
  {
  }

  /**
    * `ADD Vx, Vy` with x other than F: VF is the carry and Vx the low byte,
    * so `256 * VF + Vx` is the full sum; no other register changes. With x
    * equal to F the flag is written last and wins.
    */
  lemma AddRegCarry(m: Machine, x: U8, y: U8, random: U8)
    requires m.Valid() && x < 16 && y < 16
    ensures Execute(m, AddReg(x, y), random).Success?
    ensures var r := Execute(m, AddReg(x, y), random).value;
            r.general[FLAG] <= 1 &&
            (r.general[FLAG] == 1 <==> m.general[x] as int + m.general[y] > 255) &&
            (x != 0xF ==> 256 * (r.general[FLAG] as int) + r.general[x] == m.general[x] as int + m.general[y]) &&
            forall i | 0 <= i < 16 && i != x && i != FLAG :: r.general[i] == m.general[i]
  {
  }

  /**
    * `SUB Vx, Vy` with x other than F: VF is 1 exactly when there is no
    * borrow (`Vx >= Vy`), and `Vx - Vy` is the new Vx less the borrowed 256.
    */
  lemma SubRegBorrow(m: Machine, x: U8, y: U8, random: U8)
    requires m.Valid() && x < 16 && y < 16
    ensures Execute(m, SubReg(x, y), random).Success?
    ensures var r := Execute(m, SubReg(x, y), random).value;
            r.general[FLAG] <= 1 &&
            (r.general[FLAG] == 1 <==> m.general[x] >= m.general[y]) &&
            (x != 0xF ==> r.general[x] as int - 256 * (1 - r.general[FLAG] as int) == m.general[x] as int - m.general[y]) &&
            forall i | 0 <= i < 16 && i != x && i != FLAG :: r.general[i] == m.general[i]
  {
    assert Execute(m, SubReg(x, y), random) == Success(ExecuteArithmetic(m, SubReg(x, y)));
  }

  /** `SUBN Vx, Vy` is `SUB` with the operands swapped: the new Vx is `Vy - Vx` modulo 256, VF the no-borrow flag. */
  lemma SubNegBorrow(m: Machine, x: U8, y: U8, random: U8)
    requires m.Valid() && x < 16 && y < 16
    ensures Execute(m, SubNegReg(x, y), random).Success?
    ensures var r := Execute(m, SubNegReg(x, y), random).value;
            r.general[FLAG] <= 1 &&
            (r.general[FLAG] == 1 <==> m.general[y] >= m.general[x]) &&
            (x != 0xF ==> r.general[x] as int - 256 * (1 - r.general[FLAG] as int) == m.general[y] as int - m.general[x]) &&
            forall i | 0 <= i < 16 && i != x && i != FLAG :: r.general[i] == m.general[i]
  {
    assert Execute(m, SubNegReg(x, y), random) == Success(ExecuteArithmetic(m, SubNegReg(x, y)));
  }

  /** `SHR Vx` with x other than F: the bit shifted out lands in VF, so `2 * Vx' + VF == Vx`. */
  lemma ShiftRightOut(m: Machine, x: U8, random: U8)
    requires m.Valid() && x < 16 && x != 0xF
    ensures Execute(m, ShiftRight(x), random).Success?
    ensures var r := Execute(m, ShiftRight(x), random).value;
            r.general[FLAG] <= 1 && 2 * r.general[x] + r.general[FLAG] == m.general[x]
  {
  }

  /** `SHL Vx` with x other than F: the bit shifted out lands in VF, so `Vx' + 256 * VF == 2 * Vx`. */
  lemma ShiftLeftOut(m: Machine, x: U8, random: U8)
    requires m.Valid() && x < 16 && x != 0xF
    ensures Execute(m, ShiftLeft(x), random).Success?
    ensures var r := Execute(m, ShiftLeft(x), random).value;
            r.general[FLAG] <= 1 && r.general[x] as int + 256 * (r.general[FLAG] as int) == 2 * (m.general[x] as int)
  {
  }

  /** `RND Vx, byte` holds no bit that `byte` does not hold. */
  lemma RandomMasked(m: Machine, x: U8, byte: U8, random: U8)
    requires m.Valid() && x < 16
    ensures Execute(m, Random(x, byte), random).Success?
    ensures var r := Execute(m, Random(x, byte), random).value;
            BitAnd(r.general[x], byte) == r.general[x]
  {
    BitAndIdempotent(random, byte);
  }

  // ----- pointer and memory -----

  /** `LD F, Vx` for a hexadecimal digit points I at that digit's five-byte glyph of the font loaded by `initialize`. */
  lemma DigitSpriteInFont(m: Machine, x: U8, random: U8)
    requires m.Valid() && x < 16 && m.general[x] < 16
    ensures Execute(m, LoadDigitSpriteToPointer(x), random).Success?
    ensures var r := Execute(m, LoadDigitSpriteToPointer(x), random).value;
            r.pointer == 5 * m.general[x] && r.pointer + 5 <= |DIGIT_SPRITES|
  {
  }

  /** `LD B, x` stores three decimal digits that recombine to the index `x`. */
  lemma DecimalDigitsRecombine(m: Machine, x: U8, random: U8)
    requires m.Valid() && m.pointer + 2 < MEMORY_SIZE
    ensures Execute(m, LoadDecimalDigitsToPointer(x), random).Success?
    ensures var r := Execute(m, LoadDecimalDigitsToPointer(x), random).value;
            var p := m.pointer;
            r.memory[p] < 10 && r.memory[p + 1] < 10 && r.memory[p + 2] < 10 &&
            100 * (r.memory[p] as int) + 10 * (r.memory[p + 1] as int) + r.memory[p + 2] == x &&
            forall i | 0 <= i < MEMORY_SIZE && !(p <= i <= p + 2) :: r.memory[i] == m.memory[i]
  {
    DecimalDigits(x);
  }

  /** Three decimal digits recombine to the number they were taken from. */
  lemma DecimalDigits(x: int)
    requires 0 <= x < 1000
    ensures 100 * (x / 100 % 10) + 10 * (x / 10 % 10) + x % 10 == x
  {
  }

  /** `LD [I], Vx` copies V0 to Vx to memory from I on and no other byte. */
  lemma WriteRegsCopies(m: Machine, x: U8)
    requires m.Valid() && x < 16 && m.pointer + x < MEMORY_SIZE
    ensures var r := WriteRegs(m, x);
            r.memory[m.pointer..m.pointer + x + 1] == m.general[..x + 1] &&
            (forall i | 0 <= i < MEMORY_SIZE && !(m.pointer <= i <= m.pointer + x) :: r.memory[i] == m.memory[i]) &&
            r == m.(memory := r.memory)
  {
  }

  /** `LD Vx, [I]` loads V0 to Vx from memory from I on and changes no other register. */
  lemma ReadRegsLoads(m: Machine, x: U8)
    requires m.Valid() && x < 16 && m.pointer + x < MEMORY_SIZE
    ensures var r := ReadRegs(m, x);
            r.general[..x + 1] == m.memory[m.pointer..m.pointer + x + 1] &&
            (forall i | x < i < 16 :: r.general[i] == m.general[i]) &&
            r == m.(general := r.general)
  {
  }

  /** Storing registers and loading them back from the same place restores them. */
  lemma WriteThenRead(m: Machine, x: U8)
    requires m.Valid() && x < 16 && m.pointer + x < MEMORY_SIZE
    ensures ReadRegs(WriteRegs(m, x), x).general == m.general
  {
    var w := WriteRegs(m, x);
    WriteRegsCopies(m, x);
    var r := ReadRegs(w, x);
    ReadRegsLoads(w, x);
    assert r.general == r.general[..x + 1] + r.general[x + 1..];
    assert m.general == m.general[..x + 1] + m.general[x + 1..];
  }

  // ----- drawing -----

  /**
    * Drawing the same sprite at the same place twice restores the screen,
    * when neither coordinate register is VF (which the first draw rewrites).
    */
  lemma DrawTwiceRestores(m: Machine, x: U8, y: U8, nibble: U8)
    requires m.Valid() && x < 16 && y < 16 && x != 0xF && y != 0xF
    requires DrawFits(|m.display|, m.memory, m.pointer, m.general[x], m.general[y], nibble)
    ensures var once := DrawSprite(m, x, y, nibble);
            DrawFits(|once.display|, once.memory, once.pointer, once.general[x], once.general[y], nibble) &&
            DrawSprite(once, x, y, nibble).display == m.display
  {
    var once := DrawSprite(m, x, y, nibble);
    var fs := DrawFlips(m, x, y, nibble);
    assert DrawFlips(once, x, y, nibble) == fs;
    ApplyTwice(m.display, fs);
  }

  /** After `DRW`, VF is 1 exactly when some step of the loop turned a lit pixel off. */
  lemma DrawFlagIffErased(m: Machine, x: U8, y: U8, nibble: U8)
    requires m.Valid() && x < 16 && y < 16
    requires DrawFits(|m.display|, m.memory, m.pointer, m.general[x], m.general[y], nibble)
    ensures var fs := DrawFlips(m, x, y, nibble);
            var r := DrawSprite(m, x, y, nibble);
            r.general[FLAG] <= 1 &&
            (r.general[FLAG] == 1 <==> exists s | 0 <= s < |fs| :: ErasesAt(m.display, fs, s)) &&
            r.display == Apply(m.display, fs)
  {
    AnyErasedIffSomeFlip(m.display, DrawFlips(m, x, y, nibble));
  }

  /** `CLS` blanks every byte of the framebuffer. */
  lemma ClearDisplayBlanks(m: Machine, random: U8)
    requires m.Valid()
    ensures Execute(m, ClearDisplay, random).Success?
    ensures forall i | 0 <= i < DISPLAY_BYTES :: Execute(m, ClearDisplay, random).value.display[i] == 0
  {
  }

  // ----- timers and keys -----

  /** The machine after `n` calls of `tick_timers`. */
  function TickN(m: Machine, n: nat): (r: Machine)
    ensures r == m.(delayTimer := r.delayTimer, soundTimer := r.soundTimer)
  {
    if n == 0 then m else TickTimers(TickN(m, n - 1))
  }

  /** Each timer counts down by one per tick and stops at zero. */
  lemma {:induction false} TicksCountDown(m: Machine, n: nat)
    ensures TickN(m, n).delayTimer == if n < m.delayTimer then m.delayTimer - n else 0
    ensures TickN(m, n).soundTimer == if n < m.soundTimer then m.soundTimer - n else 0
  {
    if n > 0 {
      TicksCountDown(m, n - 1);
    }
  }

  /** The buzzer sounds for exactly as many ticks as the sound timer was set to. */
  lemma SoundLasts(m: Machine, n: nat)
    ensures HasSound(TickN(m, n)) <==> n < m.soundTimer
  {
    TicksCountDown(m, n);
  }

  /**
    * `set_keys` while waiting on register x, when some key went down: the
    * lowest such key's number goes to Vx and the wait ends. The mask is
    * replaced and nothing else of the machine changes.
    */
  lemma SetKeysLatchesLowestNewKey(m: Machine, keys: Keys)
    requires m.Valid() && m.waitForKey.Waiting? && m.waitForKey.x < 16
    requires exists k :: k in keys && k !in m.keys
    ensures var r := SetKeys(m, keys);
            var x := m.waitForKey.x;
            var n := r.general[x];
            n in keys && n !in m.keys && (forall k | k in keys && k !in m.keys :: n <= k) &&
            r == m.(general := m.general[x := n], waitForKey := NotWaiting, keys := keys)
  {
    var k :| k in keys && k !in m.keys;
    assert k in NewKeys(m.keys, keys);
    LowestNewKey(m.keys, keys);
  }

  /** `set_keys` while waiting, when no key went down: only the mask changes and the wait goes on. */
  lemma SetKeysKeepsWaiting(m: Machine, keys: Keys)
    requires m.Valid() && m.waitForKey.Waiting?
    requires forall k | k in keys :: k in m.keys
    ensures SetKeys(m, keys) == m.(keys := keys)
  {
    assert NewKeys(m.keys, keys) == {};
  }

  /** Outside a key wait, `set_keys` only replaces the mask. */
  lemma SetKeysNotWaiting(m: Machine, keys: Keys)
    requires m.Valid() && m.waitForKey.NotWaiting?
    ensures SetKeys(m, keys) == m.(keys := keys)
  {
  }
}
