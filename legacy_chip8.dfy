/**
  * The older timer and key holder of the stand-alone interpreter
  * (src/chip8/mod.rs): registers, memory and a raw `u16` key mask, with no
  * instruction execution. Its `Registers` struct is flattened into the
  * class; its stack pointer is a `u8` here, unlike the `Processor`'s.
  */
module LegacyChip8 {
  import opened Bits
  import Semantics

  class Chip8 {
    const general: array<U8>
    var pointer: U16
    var programCounter: U16
    var stackPointer: U8
    var delayTimer: U8
    var soundTimer: U8
    const memory: array<U8>
    var keys: U16

    /** Sixteen registers and 4096 bytes of memory, in two distinct arrays. */
    ghost predicate Valid()
      reads this
    {
      general.Length == 16 && memory.Length == 4096 && general != memory
    }

    /** `Chip8::new`: every register, timer, memory byte and the key mask zero. */
    constructor ()
      ensures Valid() && fresh(general) && fresh(memory)
      ensures forall i | 0 <= i < general.Length :: general[i] == 0
      ensures forall i | 0 <= i < memory.Length :: memory[i] == 0
      ensures pointer == 0 && programCounter == 0 && stackPointer == 0
      ensures delayTimer == 0 && soundTimer == 0 && keys == 0
    {
      general := new U8[16](_ => 0);
      pointer, programCounter, stackPointer := 0, 0, 0;
      delayTimer, soundTimer := 0, 0;
      memory := new U8[4096](_ => 0);
      keys := 0;
    }

    /** `Chip8::tick_timers`: each timer ticks on its own, stopping at zero; nothing else changes. */
    method TickTimers()
      modifies this
      ensures delayTimer == Semantics.TickTimer(old(delayTimer))
      ensures soundTimer == Semantics.TickTimer(old(soundTimer))
      ensures pointer == old(pointer) && programCounter == old(programCounter)
      ensures stackPointer == old(stackPointer) && keys == old(keys)
    {
      if delayTimer > 0 {
        delayTimer := delayTimer - 1;
      }
      if soundTimer > 0 {
        soundTimer := soundTimer - 1;
      }
    }

    /** `Chip8::has_sound`: a read-only query of the sound timer. */
    method HasSound() returns (r: bool)
      ensures r <==> soundTimer > 0
    {
      return soundTimer > 0;
    }

    /** `Chip8::set_keys`: the mask replaced, nothing else changed. */
    method SetKeys(newKeys: U16)
      modifies this
      ensures keys == newKeys
      ensures pointer == old(pointer) && programCounter == old(programCounter)
      ensures stackPointer == old(stackPointer)
      ensures delayTimer == old(delayTimer) && soundTimer == old(soundTimer)
    {
      keys := newKeys;
    }
  }
}
