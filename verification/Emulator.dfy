// The machine as the web interface runs it (web/app.js): registers and memory
// in arrays that every step updates, proved against Machine's step function.
module Emulator {
  import opened Machine

  class Emulator {
    var instructions: Image
    const registers: array<byte>
    const memory: array<byte>
    var pc: nat
    var cycles: nat
    var output: seq<byte>
    var halted: bool

    // The halted flag is only set when no instruction is left.
    ghost predicate Valid()
      reads this
    {
      registers.Length == 16 && memory.Length == 256 && registers != memory && (halted ==> pc >= |instructions|)
    }

    ghost function View(): State
      requires Valid()
      reads this, registers, memory
    {
      State(registers[..], memory[..], pc, output)
    }

    constructor ()
      ensures Valid() && fresh(registers) && fresh(memory) && View() == RESET && instructions == [] && cycles == 0
    {
      registers := new byte[16](_ => 0);
      memory := new byte[256](_ => 0);
      instructions, pc, cycles, output, halted := [], 0, 0, [], false;
    }

    // resetMachine
    method Reset()
      requires Valid()
      modifies this, registers, memory
      ensures Valid() && View() == RESET && instructions == old(instructions) && cycles == 0 && !halted
    {
      for i := 0 to 16
        modifies registers
        invariant forall k | 0 <= k < i :: registers[k] == 0
      {
        registers[i] := 0;
      }
      for i := 0 to 256
        modifies memory
        invariant forall k | 0 <= k < i :: memory[k] == 0
      {
        memory[i] := 0;
      }
      pc, cycles, output, halted := 0, 0, [], false;
      assert registers[..] == RESET.regs && memory[..] == RESET.mem;
    }

    // loadProgram
    method Load(program: Image)
      requires Valid()
      modifies this, registers, memory
      ensures Valid() && View() == RESET && instructions == program && cycles == 0 && !halted
    {
      instructions := program;
      halted := false;
      Reset();
    }

    // r[a] = v
    method Put(a: int, v: byte)
      requires Valid() && IsRegister(a)
      modifies this`pc, registers
      ensures registers.Length == 16 && memory.Length == 256 && pc == old(pc) + 1
      ensures State(registers[..], memory[..], pc, output) == SetReg(old(View()), a, v)
    {
      registers[a] := v;
      pc := pc + 1;
    }

    // m[a] = v
    method Poke(a: byte, v: byte)
      requires Valid()
      modifies this`pc, memory
      ensures registers.Length == 16 && memory.Length == 256 && pc == old(pc) + 1
      ensures State(registers[..], memory[..], pc, output) == SetMem(old(View()), a, v)
    {
      memory[a] := v;
      pc := pc + 1;
    }

    // The switch of step.
    method Execute(i: Instr)
      requires Valid() && Executable(i)
      modifies this`pc, this`output, registers, memory
      ensures State(registers[..], memory[..], pc, output) == Effect(i, old(View()))
    {
      hide SetReg, SetMem, Alu;
      var r, m := registers, memory;
      match i.op {
        case NOP => pc := pc + 1;
        case AFC => Put(i.a, Byte(i.b));
        case COP => Put(i.a, r[i.b]);
        case NOT => Put(i.a, Truth(r[i.b] == 0));
        case BNOT => Put(i.a, 255 - r[i.b]);
        case LOAD => Put(i.a, m[Byte(i.b)]);
        case STR => Poke(Byte(i.a), r[i.b]);
        case LDI => Put(i.a, m[r[i.b]]);
        case STI => Poke(r[i.a], r[i.b]);
        case J => pc := Byte(i.a);
        case JF =>
          if r[i.a] == 0 {
            pc := Byte(i.b);
          } else {
            pc := pc + 1;
          }
        case JI => pc := r[i.a];
        case PRI =>
          output := output + [r[i.a]];
          pc := pc + 1;
        case _ => Put(i.a, Alu(i.op, r[i.b], r[i.c]));
      }
    }

    // step
    method Step()
      requires Valid()
      requires pc < |instructions| ==> Executable(instructions[pc])
      modifies this, registers, memory
      ensures Valid() && instructions == old(instructions)
      ensures View() == Machine.Step(instructions, old(View()))
      ensures halted <==> Halted(instructions, View())
      ensures cycles == old(cycles) + if old(pc) < |instructions| then 1 else 0
    {
      hide Effect;
      if halted || pc >= |instructions| {
        halted := true;
        return;
      }
      Execute(instructions[pc]);
      cycles := cycles + 1;
      if pc >= |instructions| {
        halted := true;
      }
    }

    // The ticks of run until the machine halts, at most `limit` of them.
    method Run(limit: nat) returns (ticks: nat)
      requires Valid()
      requires forall k | 0 <= k < |instructions| :: Executable(instructions[k])
      modifies this, registers, memory
      ensures Valid() && instructions == old(instructions) && ticks <= limit
      ensures View() == Machine.Run(instructions, old(View()), limit)
      ensures ticks < limit ==> halted
    {
      hide Machine.Step, Effect;
      ticks := 0;
      while ticks < limit && !halted
        invariant Valid() && instructions == old(instructions) && ticks <= limit
        invariant Machine.Run(instructions, View(), limit - ticks) == Machine.Run(instructions, old(View()), limit)
      {
        Step();
        ticks := ticks + 1;
      }
      if ticks < limit {
        HaltedStays(instructions, View(), limit - ticks);
      }
    }
  }
}
