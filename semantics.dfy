/**
  * The interpreter's state machine (chip8/src/processor.rs) as pure
  * functions on a `Machine` value: the reference the `Processor` class is
  * proved against.
  *
  * Every Rust panic the operations can reach (an index out of range, a
  * `u16` or `usize` overflow or underflow in a debug build, a `u16` shift by
  * 16 or more) is excluded by a precondition (`CanExecute`, `CanRun`,
  * `CanSetKeys`); executing `Instruction::Unknown`, whose arm panics on
  * purpose, is the error result `UnknownInstruction`. The random byte of
  * `Random` is a parameter.
  */
module Semantics {
  import opened Wrappers
  import opened Bits
  import opened KeyMask
  import opened Instructions
  import opened Sprite
  import DisplayView

  /** The hexadecimal font: five bytes per digit, 0 to F. */
  const DIGIT_SPRITES: seq<U8> := [
    0xF0, 0x90, 0x90, 0x90, 0xF0,
    0x20, 0x60, 0x20, 0x20, 0x70,
    0xF0, 0x10, 0xF0, 0x80, 0xF0,
    0xF0, 0x10, 0xF0, 0x10, 0xF0,
    0x90, 0x90, 0xF0, 0x10, 0x10,
    0xF0, 0x80, 0xF0, 0x10, 0xF0,
    0xF0, 0x80, 0xF0, 0x90, 0xF0,
    0xF0, 0x10, 0x20, 0x40, 0x40,
    0xF0, 0x90, 0xF0, 0x90, 0xF0,
    0xF0, 0x90, 0xF0, 0x10, 0xF0,
    0xF0, 0x90, 0xF0, 0x90, 0x90,
    0xE0, 0x90, 0xE0, 0x90, 0xE0,
    0xF0, 0x80, 0x80, 0x80, 0xF0,
    0xE0, 0x90, 0x90, 0x90, 0xE0,
    0xF0, 0x80, 0xF0, 0x80, 0xF0,
    0xF0, 0x80, 0xF0, 0x80, 0x80
  ]

  const DIGIT_SPRITES_MEM_ADDR: nat := 0x0
  const DISPLAY_PIXELS_Y: nat := 32
  const DISPLAY_BYTES: nat := (DISPLAY_PIXELS_X * DISPLAY_PIXELS_Y + 0x7) / 8
  const PROGRAM_MEM_ADDR: nat := 0x200
  const MEMORY_SIZE: nat := 4096
  const STACK_SIZE: nat := 16
  const REGISTER_COUNT: nat := 16
  /** The flag register VF. */
  const FLAG: nat := 0xF

  /** The key-wait latch set by `LD Vx, K`. */
  datatype WaitForKey = NotWaiting | Waiting(x: U8)

  /** The one failure of execution: the instruction word decoded to `Unknown`. */
  datatype ExecutionError = UnknownInstruction(byte1: U8, byte2: U8)

  /** The state of a `Processor`, the logger left out. */
  datatype Machine = Machine(
    general: seq<U8>,
    pointer: U16,
    programCounter: U16,
    stackPointer: nat,
    delayTimer: U8,
    soundTimer: U8,
    display: seq<bv8>,
    memory: seq<U8>,
    stack: seq<U16>,
    keys: Keys,
    waitForKey: WaitForKey,
    exit: bool)
  {
    /** The array sizes fixed by the Rust types, and a stack pointer no larger than the stack. */
    predicate Valid() {
      |general| == REGISTER_COUNT && |display| == DISPLAY_BYTES && |memory| == MEMORY_SIZE &&
      |stack| == STACK_SIZE && stackPointer <= STACK_SIZE
    }
  }

  /** `Processor::new`: everything zero, the program counter included. */
  function New(): (m: Machine)
    ensures m.Valid()
    ensures forall i | 0 <= i < REGISTER_COUNT :: m.general[i] == 0
    ensures forall i | 0 <= i < MEMORY_SIZE :: m.memory[i] == 0
    ensures forall i | 0 <= i < DISPLAY_BYTES :: m.display[i] == 0
    ensures forall i | 0 <= i < STACK_SIZE :: m.stack[i] == 0
    ensures m.pointer == 0 && m.programCounter == 0 && m.stackPointer == 0
    ensures m.delayTimer == 0 && m.soundTimer == 0 && m.keys == {}
    ensures m.waitForKey == NotWaiting && !m.exit
  {
    Machine(Filled(0, REGISTER_COUNT), 0, 0, 0, 0, 0, Filled(0, DISPLAY_BYTES),
            Filled(0, MEMORY_SIZE), Filled(0, STACK_SIZE), {}, NotWaiting, false)
  }

  /**
    * `Processor::initialize`: every register, timer, the stack, the display
    * and the keys cleared, the font at address 0, the program at 0x200 and
    * zero everywhere else in memory, and execution starting at 0x200. The
    * copy panics when the program does not fit below 4096.
    */
  function Initialize(program: seq<U8>): (m: Machine)
    requires PROGRAM_MEM_ADDR + |program| <= MEMORY_SIZE
    ensures m.Valid()
    ensures forall i | 0 <= i < REGISTER_COUNT :: m.general[i] == 0
    ensures forall i | 0 <= i < DISPLAY_BYTES :: m.display[i] == 0
    ensures forall i | 0 <= i < STACK_SIZE :: m.stack[i] == 0
    ensures m.pointer == 0 && m.programCounter == PROGRAM_MEM_ADDR && m.stackPointer == 0
    ensures m.delayTimer == 0 && m.soundTimer == 0 && m.keys == {}
    ensures m.waitForKey == NotWaiting && !m.exit
    ensures m.memory[DIGIT_SPRITES_MEM_ADDR..DIGIT_SPRITES_MEM_ADDR + |DIGIT_SPRITES|] == DIGIT_SPRITES
    ensures m.memory[PROGRAM_MEM_ADDR..PROGRAM_MEM_ADDR + |program|] == program
    ensures forall i | |DIGIT_SPRITES| <= i < PROGRAM_MEM_ADDR :: m.memory[i] == 0
    ensures forall i | PROGRAM_MEM_ADDR + |program| <= i < MEMORY_SIZE :: m.memory[i] == 0
  {
    Machine(Filled(0, REGISTER_COUNT), 0, PROGRAM_MEM_ADDR, 0, 0, 0, Filled(0, DISPLAY_BYTES),
            InitialMemory(program), Filled(0, STACK_SIZE), {}, NotWaiting, false)
  }

  /** The memory `initialize` leaves, byte by byte: the font, then zeros, the program at 0x200, zeros. */
  function InitialMemory(program: seq<U8>): (memory: seq<U8>)
    requires PROGRAM_MEM_ADDR + |program| <= MEMORY_SIZE
    ensures |memory| == MEMORY_SIZE
    ensures forall i | 0 <= i < MEMORY_SIZE ::
              memory[i] == if i < |DIGIT_SPRITES| then DIGIT_SPRITES[i]
                           else if PROGRAM_MEM_ADDR <= i < PROGRAM_MEM_ADDR + |program| then program[i - PROGRAM_MEM_ADDR]
                           else 0
  {
    DIGIT_SPRITES + Filled(0, PROGRAM_MEM_ADDR - |DIGIT_SPRITES|) + program +
    Filled(0, MEMORY_SIZE - PROGRAM_MEM_ADDR - |program|)
  }

  /** Register `x` replaced by `v`. */
  function SetReg(m: Machine, x: nat, v: U8): (r: Machine)
    requires m.Valid() && x < REGISTER_COUNT
    ensures r.Valid()
  {
    m.(general := m.general[x := v])
  }

  /** The program counter advanced past the next instruction when `condition` holds. */
  function SkipIf(m: Machine, condition: bool): (r: Machine)
    requires condition ==> m.programCounter + 2 <= 0xFFFF
    ensures r == m.(programCounter := r.programCounter)
    ensures condition <==> r.programCounter == m.programCounter + 2
    ensures !condition ==> r == m
  {
    if condition then m.(programCounter := m.programCounter + 2) else m
  }

  /** Whether a skip instruction's condition holds in `m` (false for every other instruction). */
  predicate SkipTaken(m: Machine, instr: Instruction)
    requires m.Valid()
  {
    match instr
    case SkipRegEqualsImm(x, byte) => x < 16 && m.general[x] == byte
    case SkipRegNotEqualsImm(x, byte) => x < 16 && m.general[x] != byte
    case SkipRegEqualsReg(x, y) => x < 16 && y < 16 && m.general[x] == m.general[y]
    case SkipRegNotEqualsReg(x, y) => x < 16 && y < 16 && m.general[x] != m.general[y]
    case SkipKeyPressed(x) => x < 16 && m.general[x] in m.keys
    case SkipNotKeyPressed(x) => x < 16 && m.general[x] < 16 && m.general[x] !in m.keys
    case _ => false
  }

  /** Whether the instruction is one of the six conditional skips. */
  predicate IsSkip(instr: Instruction) {
    instr.SkipRegEqualsImm? || instr.SkipRegNotEqualsImm? || instr.SkipRegEqualsReg? ||
    instr.SkipRegNotEqualsReg? || instr.SkipKeyPressed? || instr.SkipNotKeyPressed?
  }

  /** Executing the instruction in `m` does not panic. */
  predicate CanExecute(m: Machine, instr: Instruction)
    requires m.Valid()
  {
    var skipFits := SkipTaken(m, instr) ==> m.programCounter + 2 <= 0xFFFF;
    match instr
    case ClearDisplay => true
    case Return => m.stackPointer >= 1
    case Exit => true
    case Jump(_) => m.programCounter >= 2
    case Call(_) => m.stackPointer < STACK_SIZE
    case SkipRegEqualsImm(x, _) => x < 16 && skipFits
    case SkipRegNotEqualsImm(x, _) => x < 16 && skipFits
    case SkipRegEqualsReg(x, y) => x < 16 && y < 16 && skipFits
    case LoadImmToReg(x, _) => x < 16
    case AddImmToReg(x, _) => x < 16
    case LoadRegToReg(x, y) => x < 16 && y < 16
    case OrReg(x, y) => x < 16 && y < 16
    case AndReg(x, y) => x < 16 && y < 16
    case XorReg(x, y) => x < 16 && y < 16
    case AddReg(x, y) => x < 16 && y < 16
    case SubReg(x, y) => x < 16 && y < 16
    case ShiftRight(x) => x < 16
    case SubNegReg(x, y) => x < 16 && y < 16
    case ShiftLeft(x) => x < 16
    case SkipRegNotEqualsReg(x, y) => x < 16 && y < 16 && skipFits
    case LoadImmToPointer(_) => true
    case JumpOffset(addr) => m.general[0] + addr <= 0xFFFF
    case Random(x, _) => x < 16
    case Draw(x, y, nibble) =>
      x < 16 && y < 16 &&
      DrawFits(|m.display|, m.memory, m.pointer, m.general[x], m.general[y], nibble)
    case SkipKeyPressed(x) => x < 16 && m.general[x] < 16 && skipFits
    case SkipNotKeyPressed(x) => x < 16 && m.general[x] < 16 && skipFits
    case LoadDelayTimerToReg(x) => x < 16
    case LoadNextKeyPress(_) => true
    case LoadRegToDelayTimer(x) => x < 16
    case LoadRegToSoundTimer(x) => x < 16
    case AddRegToPointer(x) => x < 16 && m.pointer + m.general[x] <= 0xFFFF
    case LoadDigitSpriteToPointer(x) => x < 16
    case LoadDecimalDigitsToPointer(_) => m.pointer + 2 < MEMORY_SIZE
    case WriteRegToPointer(x) => x < 16 && m.pointer + x < MEMORY_SIZE
    case ReadRegFromPointer(x) => x < 16 && m.pointer + x < MEMORY_SIZE
    case Unknown(_, _) => true
  }

  /** The flips of `DRW Vx, Vy, nibble` in `m`. */
  function DrawFlips(m: Machine, x: U8, y: U8, nibble: U8): (fs: seq<Flip>)
    requires m.Valid() && x < 16 && y < 16
    requires DrawFits(|m.display|, m.memory, m.pointer, m.general[x], m.general[y], nibble)
    ensures InBounds(fs, |m.display|) && |fs| == 8 * nibble
  {
    FlipsInBounds(|m.display|, m.memory, m.pointer, m.general[x], m.general[y], 8 * nibble);
    Flips(m.memory, m.pointer, m.general[x], m.general[y], 8 * nibble)
  }

  /** Register `x` and then the flag register written, in the order the arithmetic instructions write them. */
  function SetWithFlag(m: Machine, x: U8, value: U8, flag: U8): (r: Machine)
    requires m.Valid() && x < 16
    ensures r.Valid()
  {
    SetReg(SetReg(m, x, value), FLAG, flag)
  }

  /** `DRW Vx, Vy, nibble`: the sprite XORed in, and VF set to whether any step erased a pixel. */
  function DrawSprite(m: Machine, x: U8, y: U8, nibble: U8): (r: Machine)
    requires m.Valid() && x < 16 && y < 16
    requires DrawFits(|m.display|, m.memory, m.pointer, m.general[x], m.general[y], nibble)
    ensures r.Valid()
  {
    var fs := DrawFlips(m, x, y, nibble);
    var erased := AnyErased(m.display, fs);
    SetReg(m.(display := Apply(m.display, fs)), FLAG, if erased then 1 else 0)
  }

  /** `LD B, x`: the hundreds, tens and ones digits of the index `x` stored at I, I+1 and I+2. */
  function StoreDecimal(m: Machine, x: U8): (r: Machine)
    requires m.Valid() && m.pointer + 2 < MEMORY_SIZE
    ensures r.Valid()
  {
    var p := m.pointer;
    m.(memory := m.memory[p := x / 100 % 10][p + 1 := x / 10 % 10][p + 2 := x % 10])
  }

  /** `LD [I], Vx`: registers V0 to Vx copied to memory from I on. */
  function WriteRegs(m: Machine, x: U8): (r: Machine)
    requires m.Valid() && x < 16 && m.pointer + x < MEMORY_SIZE
    ensures r.Valid()
  {
    var p := m.pointer;
    m.(memory := m.memory[..p] + m.general[..x + 1] + m.memory[p + x + 1..])
  }

  /** `LD Vx, [I]`: registers V0 to Vx loaded from memory from I on. */
  function ReadRegs(m: Machine, x: U8): (r: Machine)
    requires m.Valid() && x < 16 && m.pointer + x < MEMORY_SIZE
    ensures r.Valid()
  {
    var p := m.pointer;
    m.(general := m.memory[p..p + x + 1] + m.general[x + 1..])
  }

  /** The unconditional control instructions, and the screen clear. */
  predicate IsControl(instr: Instruction) {
    instr.ClearDisplay? || instr.Return? || instr.Exit? || instr.Jump? || instr.Call? ||
    instr.JumpOffset?
  }

  /** The instructions that write one general register and nothing else. */
  predicate IsRegister(instr: Instruction) {
    instr.LoadImmToReg? || instr.AddImmToReg? || instr.LoadRegToReg? || instr.OrReg? ||
    instr.AndReg? || instr.XorReg? || instr.Random? || instr.LoadDelayTimerToReg?
  }

  /** The arithmetic instructions that write Vx and then VF. */
  predicate IsArithmetic(instr: Instruction) {
    instr.AddReg? || instr.SubReg? || instr.ShiftRight? || instr.SubNegReg? || instr.ShiftLeft?
  }

  /** The screen clear, return, exit, the two jumps and call. */
  function ExecuteControl(m: Machine, instr: Instruction): (r: Machine)
    requires m.Valid() && CanExecute(m, instr) && IsControl(instr)
    ensures r.Valid()
  {
    match instr
    case ClearDisplay => m.(display := Filled(0, DISPLAY_BYTES))
    case Return =>
      var sp := m.stackPointer - 1;
      m.(stackPointer := sp, programCounter := m.stack[sp])
    case Exit => m.(exit := true)
    case Jump(addr) =>
      var exit := if m.programCounter - 2 == addr then true else m.exit;
      m.(exit := exit, programCounter := addr)
    case Call(addr) =>
      m.(stack := m.stack[m.stackPointer := m.programCounter],
         stackPointer := m.stackPointer + 1,
         programCounter := addr)
    case JumpOffset(addr) => m.(programCounter := m.general[0] + addr)
  }

  /** The single-register instructions; `random` is the byte `fastrand` would have drawn. */
  function ExecuteRegister(m: Machine, instr: Instruction, random: U8): (r: Machine)
    requires m.Valid() && CanExecute(m, instr) && IsRegister(instr)
    ensures r.Valid() && r == m.(general := r.general)
  {
    match instr
    case LoadImmToReg(x, byte) => SetReg(m, x, byte)
    case AddImmToReg(x, byte) => SetReg(m, x, (m.general[x] as int + byte) % 256)
    case LoadRegToReg(x, y) => SetReg(m, x, m.general[y])
    case OrReg(x, y) => SetReg(m, x, BitOr(m.general[x], m.general[y]))
    case AndReg(x, y) => SetReg(m, x, BitAnd(m.general[x], m.general[y]))
    case XorReg(x, y) => SetReg(m, x, BitXor(m.general[x], m.general[y]))
    case Random(x, byte) => SetReg(m, x, BitAnd(random, byte))
    case LoadDelayTimerToReg(x) => SetReg(m, x, m.delayTimer)
  }

  /** The arithmetic instructions: Vx gets the wrapped result, then VF the carry, no-borrow or shifted-out bit. */
  function ExecuteArithmetic(m: Machine, instr: Instruction): (r: Machine)
    requires m.Valid() && CanExecute(m, instr) && IsArithmetic(instr)
    ensures r.Valid() && r == m.(general := r.general)
  {
    match instr
    case AddReg(x, y) =>
      var total := m.general[x] as int + m.general[y];
      SetWithFlag(m, x, total % 256, if total > 255 then 1 else 0)
    case SubReg(x, y) =>
      var vx, vy := m.general[x], m.general[y];
      SetWithFlag(m, x, (vx as int - vy) % 256, if vx >= vy then 1 else 0)
    case ShiftRight(x) =>
      var vx := m.general[x];
      SetWithFlag(m, x, vx / 2, vx % 2)
    case SubNegReg(x, y) =>
      var vx, vy := m.general[x], m.general[y];
      SetWithFlag(m, x, (vy as int - vx) % 256, if vy >= vx then 1 else 0)
    case ShiftLeft(x) =>
      var vx := m.general[x];
      SetWithFlag(m, x, (vx as int * 2) % 256, if vx >= 0x80 then 1 else 0)
  }

  /** The remaining instructions: the pointer, memory, drawing, the timers and the key wait. */
  function ExecuteOther(m: Machine, instr: Instruction): (r: Machine)
    requires m.Valid() && CanExecute(m, instr)
    requires !IsSkip(instr) && !IsControl(instr) && !IsRegister(instr) && !IsArithmetic(instr) && !instr.Unknown?
    ensures r.Valid()
    ensures r.programCounter == m.programCounter && r.stackPointer == m.stackPointer && r.stack == m.stack
  {
    match instr
    case LoadImmToPointer(addr) => m.(pointer := addr)
    case Draw(x, y, nibble) => DrawSprite(m, x, y, nibble)
    case LoadNextKeyPress(x) => m.(waitForKey := Waiting(x))
    case LoadRegToDelayTimer(x) => m.(delayTimer := m.general[x])
    case LoadRegToSoundTimer(x) => m.(soundTimer := m.general[x])
    case AddRegToPointer(x) => m.(pointer := m.pointer + m.general[x])
    case LoadDigitSpriteToPointer(x) => m.(pointer := DIGIT_SPRITES_MEM_ADDR + 5 * (m.general[x] as int))
    case LoadDecimalDigitsToPointer(x) => StoreDecimal(m, x)
    case WriteRegToPointer(x) => WriteRegs(m, x)
    case ReadRegFromPointer(x) => ReadRegs(m, x)
  }

  /**
    * `Processor::execute_instruction`: the effect of one instruction on `m`,
    * whose program counter already points past it. Only `Unknown` fails, and
    * a valid machine stays valid.
    */
  function Execute(m: Machine, instr: Instruction, random: U8): (r: Result<Machine, ExecutionError>)
    requires m.Valid() && CanExecute(m, instr)
    ensures r.Failure? <==> instr.Unknown?
    ensures r.Failure? ==> r.error == UnknownInstruction(instr.byte1, instr.byte2)
    ensures r.Success? ==> r.value.Valid()
  {
    if instr.Unknown? then Failure(UnknownInstruction(instr.byte1, instr.byte2))
    else if IsSkip(instr) then Success(SkipIf(m, SkipTaken(m, instr)))
    else if IsControl(instr) then Success(ExecuteControl(m, instr))
    else if IsRegister(instr) then Success(ExecuteRegister(m, instr, random))
    else if IsArithmetic(instr) then Success(ExecuteArithmetic(m, instr))
    else Success(ExecuteOther(m, instr))
  }

  /** The instruction at the program counter. */
  function Fetch(m: Machine, decode: Decoder): Instruction
    requires m.Valid() && m.programCounter + 1 < MEMORY_SIZE
  {
    decode(m.memory[m.programCounter], m.memory[m.programCounter + 1])
  }

  /** `run_next_instruction` does not panic in `m`. */
  predicate CanRun(m: Machine, decode: Decoder)
    requires m.Valid()
  {
    m.exit || m.waitForKey.Waiting? ||
    (m.programCounter + 1 < MEMORY_SIZE &&
     CanExecute(m.(programCounter := m.programCounter + 2), Fetch(m, decode)))
  }

  /**
    * `Processor::run_next_instruction`: nothing happens once exited or while
    * waiting for a key; otherwise the instruction at the program counter is
    * fetched, the counter advanced by 2 and the instruction executed. The
    * result is the new machine and the value of its exit flag.
    */
  function RunNextInstruction(m: Machine, decode: Decoder, random: U8): (r: Result<(Machine, bool), ExecutionError>)
    requires m.Valid() && CanRun(m, decode)
    ensures r.Success? ==> r.value.0.Valid() && r.value.1 == r.value.0.exit
    ensures r.Failure? <==> !m.exit && m.waitForKey.NotWaiting? && Fetch(m, decode).Unknown?
  {
    if m.exit then Success((m, true))
    else if m.waitForKey.Waiting? then Success((m, false))
    else
      var instr := Fetch(m, decode);
      var advanced := m.(programCounter := m.programCounter + 2);
      match Execute(advanced, instr, random)
      case Success(next) => Success((next, next.exit))
      case Failure(e) => Failure(e)
  }

  /** One timer tick: down by one, stopping at zero. */
  function TickTimer(t: U8): (r: U8)
    ensures r <= t && (t > 0 ==> r == t - 1)
  {
    if t > 0 then t - 1 else 0
  }

  /** `Processor::tick_timers`: both timers tick, nothing else changes. */
  function TickTimers(m: Machine): (r: Machine)
    ensures r.delayTimer <= m.delayTimer && r.soundTimer <= m.soundTimer
    ensures r == m.(delayTimer := r.delayTimer, soundTimer := r.soundTimer)
  {
    m.(delayTimer := TickTimer(m.delayTimer), soundTimer := TickTimer(m.soundTimer))
  }

  /** `Processor::has_sound`: the buzzer sounds exactly while a tick still lowers the sound timer. */
  function HasSound(m: Machine): (r: bool)
    ensures r <==> TickTimers(m).soundTimer < m.soundTimer
  {
    m.soundTimer > 0
  }

  /** `set_keys` does not panic: a pending key wait writes to one of the sixteen registers. */
  predicate CanSetKeys(m: Machine, keys: Keys) {
    m.waitForKey.Waiting? && NewKeys(m.keys, keys) != {} ==> m.waitForKey.x < 16
  }

  /**
    * `Processor::set_keys`: while waiting for a key, a key held in the new
    * mask but not in the old one ends the wait and its number goes to the
    * waiting register; the mask is replaced in every case.
    */
  function SetKeys(m: Machine, keys: Keys): (r: Machine)
    requires m.Valid() && CanSetKeys(m, keys)
    ensures r.Valid() && r.keys == keys
  {
    var pressed := NewKeys(m.keys, keys);
    var latched :=
      if m.waitForKey.Waiting? && pressed != {} then
        m.(general := m.general[m.waitForKey.x := KeysToKeyNumber(pressed)], waitForKey := NotWaiting)
      else m;
    latched.(keys := keys)
  }

  /** `Processor::get_display`: the framebuffer viewed as a 64 by 32 display. */
  function GetDisplay(m: Machine): (d: DisplayView.Display)
    requires m.Valid()
    ensures d.Valid() && d.data == m.display
    ensures d.width == DISPLAY_PIXELS_X && d.height == DISPLAY_PIXELS_Y
  {
    DisplayView.New(m.display, DISPLAY_PIXELS_X, DISPLAY_PIXELS_Y)
  }
}
