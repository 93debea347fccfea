// How a machine state represents a source state at a point of compilation.
module Relation {
  import opened Wrappers
  import opened Machine
  import opened Instructions
  import opened RegisterTable
  import opened Symbols
  import opened Codegen
  import opened Shape
  import opened Execution
  import opened Source

  // The machine holds every live cell and has printed the same. Live cells are
  // the globals, below `globals`, and cells above the stack pointer.
  ghost predicate Holds(m: State, st: Memory, globals: int, sp: int) {
    && m.output == st.output
    && forall a | a in st.cells :: 0 <= a < 256 && (a < globals || sp < a) && m.mem[a] == st.cells[a]
  }

  // Cache coherence: a register that the compiler holds as free, not temporary
  // and bound to a global's address contains that global.
  ghost predicate Coherent(t: Table, m: State, globals: int) {
    forall q | IsGeneral(q) && !t[q].inUse && !t[q].temporary && t[q].address != NO_MEMORY ::
      0 <= t[q].address < globals && t[q].address < 256 && m.regs[q] == m.mem[t[q].address]
  }

  // The machine is about to run what the compiler emits next. The frame
  // invariant is the equation for the stack pointer.
  ghost predicate Matches(c: Compiler, fp: int, m: State, st: Memory) {
    && m.pc == |c.code|
    && -1 <= fp < 256
    && m.regs[REG_FP] == Byte(fp)
    && m.regs[REG_SP] == Byte(fp - c.nextLocal)
    && Holds(m, st, c.nextGlobal, fp - c.nextLocal)
    && Coherent(c.regs, m, c.nextGlobal)
  }

  // Every known name of the environment is what the symbol table finds for it,
  // and the table finds nothing for a name outside the environment.
  ghost predicate Visible(c: Compiler, env: Env) {
    && (forall x | x in env && env[x].Known? ::
      && Lookup(c.symbols, x) == Some(env[x].location)
      && (env[x].location.Global? ==> 0 <= env[x].location.address < c.nextGlobal))
    && (forall x | x !in env :: Lookup(c.symbols, x) == None)
  }

  // Cells above the stack pointer that belong to no variable (saved registers,
  // pushed arguments, saved ra and fp) keep their contents.
  ghost predicate Untouched(m: State, n: State, st: Memory, sp: int) {
    forall a | 0 <= a < 256 && sp < a && a !in st.cells :: n.mem[a] == m.mem[a]
  }

  // From m, with the compiler at c, the machine has reached n by computing v
  // into register r.
  ghost predicate Computed(c: Compiler, d: Compiler, r: int, fp: int, m: State, n: State, st: Memory, st1: Memory,
                           v: byte) {
    && Matches(d, fp, n, st1)
    && IsGeneral(r) && n.regs[r] == v
    && Coherent(Free(d.regs, r), n, d.nextGlobal)
    && (forall q | IsGeneral(q) && c.regs[q].inUse :: n.regs[q] == m.regs[q])
    && Untouched(m, n, st, fp - c.nextLocal)
  }

  // Nothing but general registers and the scratch register has changed.
  ghost predicate Quiet(m: State, n: State) {
    && n.mem == m.mem && n.output == m.output
    && n.regs[REG_RETURN] == m.regs[REG_RETURN] && n.regs[REG_RA] == m.regs[REG_RA]
    && n.regs[REG_SP] == m.regs[REG_SP] && n.regs[REG_FP] == m.regs[REG_FP]
  }

  // After at least `fuel` steps the machine still runs and has printed `output`.
  ghost predicate Running(image: Image, m: State, t: nat, fuel: nat, output: seq<byte>) {
    t >= fuel && !Halted(image, Run(image, m, t)) && Run(image, m, t).output == output
  }

  // A value newly in register r, nothing else changed.
  lemma Deliver(c: Compiler, d: Compiler, r: int, fp: int, m: State, n: State, st: Memory, v: byte)
    requires Matches(c, fp, m, st) && IsGeneral(r) && !c.regs[r].inUse
    requires d.nextLocal == c.nextLocal && d.nextGlobal == c.nextGlobal
    requires forall q | IsGeneral(q) && q != r :: d.regs[q] == c.regs[q]
    requires d.regs[r].temporary || d.regs[r].address == NO_MEMORY
      || (0 <= d.regs[r].address < c.nextGlobal && d.regs[r].address < 256 && v == m.mem[d.regs[r].address])
    requires n.pc == |d.code| && n.mem == m.mem && n.output == m.output
    requires n.regs[r] == v && forall q | IsRegister(q) && q != r && q != REG_TMP :: n.regs[q] == m.regs[q]
    ensures Computed(c, d, r, fp, m, n, st, st, v)
  {
  }

  // A value that replaces the one in register r.
  lemma Replace(c: Compiler, c1: Compiler, d: Compiler, r: int, fp: int,
                m: State, m1: State, n: State, st: Memory, st1: Memory, v: byte, w: byte)
    requires Computed(c, c1, r, fp, m, m1, st, st1, v) && Takes(c.regs, c1.regs, r)
    requires c1.nextLocal == c.nextLocal
    requires d.nextLocal == c1.nextLocal && d.nextGlobal == c1.nextGlobal
    requires d.regs == MarkTemporary(c1.regs, r)
    requires n.pc == |d.code| && n.mem == m1.mem && n.output == m1.output
    requires n.regs == m1.regs[r := w]
    ensures Computed(c, d, r, fp, m, n, st, st1, w)
  {
  }

  lemma UntouchedTrans(m: State, m1: State, n: State, st: Memory, st1: Memory, sp: int)
    requires Untouched(m, m1, st, sp) && Untouched(m1, n, st1, sp)
    requires st1.cells.Keys == st.cells.Keys
    ensures Untouched(m, n, st, sp)
  {
  }
}
