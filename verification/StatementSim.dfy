// The short code of simple statements: declarations, assignments, pointer
// stores, print and return, once their operands are in registers.
module StatementSim {
  import opened Wrappers
  import opened Machine
  import opened Instructions
  import opened RegisterTable
  import opened Symbols
  import opened Syntax
  import opened Codegen
  import opened Shape
  import opened Execution
  import opened FrameSim
  import opened Source
  import opened Relation
  import Linking

  // From m the machine has fallen through to n, where the frame has `locals`
  // locals and the names of env1.
  ghost predicate Continued(c: Compiler, d: Compiler, fp: int, m: State, n: State, st: Memory, st1: Memory, env1: Env,
                            locals1: nat) {
    && Matches(d, fp, n, st1) && d.nextLocal == locals1 && Visible(d, env1)
    && Untouched(m, n, st, fp - c.nextLocal)
  }

  // From m the machine has left the frame for the return address saved in it,
  // with the caller's frame pointer and the value in the return register.
  ghost predicate Returned(c: Compiler, fp: int, m: State, n: State, st: Memory, st1: Memory, v: byte) {
    && -1 <= fp && fp + 2 < 256
    && n.pc == m.mem[fp + 2] && n.regs[REG_FP] == m.mem[fp + 1] && n.regs[REG_SP] == Byte(fp + 2)
    && n.regs[REG_RETURN] == v
    && n.output == st1.output
    && (forall a | a in st.cells :: 0 <= a < 256 && a in st1.cells && n.mem[a] == st1.cells[a])
    && Untouched(m, n, st, fp - c.nextLocal)
  }

  // The cells of the saved ra and fp belong to no variable.
  ghost predicate FrameIntact(fp: int, inMain: bool, st: Memory) {
    !inMain ==> -1 <= fp && fp + 2 < 256 && fp + 1 !in st.cells && fp + 2 !in st.cells
  }

  // A table that binds no register is coherent with every machine state.
  ghost predicate Unbound(t: Table) {
    forall q | IsGeneral(q) :: t[q].address == NO_MEMORY
  }

  lemma InitialUnbound()
    ensures Unbound(INITIAL) && Idle(INITIAL)
  {
  }

  // Running a statement's code with the value of its operand in r, which is
  // the only register in use.
  ghost predicate OperandReady(c: Compiler, c1: Compiler, r: int, fp: int, m: State, m1: State, st: Memory, st1: Memory,
                               v: byte) {
    && Computed(c, c1, r, fp, m, m1, st, st1, v) && Delivers(c, c1, r)
    && st1.cells.Keys == st.cells.Keys
  }

  lemma PrintSim(image: Image, c: Compiler, c1: Compiler, r: int, fp: int, m: State, m1: State,
                 st: Memory, st1: Memory, v: byte, env: Env) returns (t: nat)
    requires OperandReady(c, c1, r, fp, m, m1, st, st1, v) && Visible(c, env)
    requires Emitted(image, c1, PrintStatement(c1, r))
    ensures Continued(c, PrintStatement(c1, r), fp, m, Run(image, m1, t), st, st1.(output := st1.output + [v]), env,
      c.nextLocal)
  {
    assert image[m1.pc] == Instr(PRI, r, 0, 0);
    t := RunOne(image, m1);
  }

  lemma ReturnSim(image: Image, c: Compiler, c1: Compiler, r: int, fp: int, m: State, m1: State,
                  st: Memory, st1: Memory, v: byte) returns (t: nat)
    requires OperandReady(c, c1, r, fp, m, m1, st, st1, v) && FrameIntact(fp, false, st) && c.nextLocal >= 0
    requires Emitted(image, c1, ReturnStatement(c1, r))
    ensures Returned(c, fp, m, Run(image, m1, t), st, st1, v)
  {
    hide Step;
    var c2 := Emit2(c1, COP, REG_RETURN, r);
    ReturnCode(image, c1, r);
    var t1 := RunCopy(image, c1, REG_RETURN, r, m1);
    var m2 := Run(image, m1, t1);
    var t2 := SuffixSim(image, FreeRegister(c2, r), m2, fp);
    t := Compose(image, m1, t1, t2);
    assert m1.mem[fp + 2] == m.mem[fp + 2];
    assert m1.mem[fp + 1] == m.mem[fp + 1];
  }

  lemma SuffixShape(c: Compiler)
    ensures var d := FunctionSuffix(c); d == c.(code := d.code) && Extends(c, d)
  {
  }

  lemma ReturnCode(image: Image, c: Compiler, r: int)
    requires Emitted(image, c, ReturnStatement(c, r))
    ensures var c2 := Emit2(c, COP, REG_RETURN, r);
      Emitted(image, c, c2) && Emitted(image, FreeRegister(c2, r), FunctionSuffix(FreeRegister(c2, r)))
  {
    var c2 := FreeRegister(Emit2(c, COP, REG_RETURN, r), r);
    SuffixShape(c2);
    hide FunctionSuffix;
    EmittedSplit(image, c, c2, FunctionSuffix(c2));
  }

  // Storing a value into the cell of a local at the current or an earlier offset.
  lemma LocalStore(image: Image, c: Compiler, offset: int, r: int, fp: int, m: State) returns (t: nat)
    requires Emitted(image, c, StoreLocal(c, offset, r)) && m.pc == |c.code|
    requires IsGeneral(r) && m.regs[REG_FP] == Byte(fp) && 0 <= fp - offset < 256
    ensures var n := Run(image, m, t);
      && n.pc == m.pc + 3 && n.output == m.output && n.mem == m.mem[fp - offset := m.regs[r]]
      && n.regs == m.regs[REG_TMP := fp - offset]
  {
    hide Step;
    var c1 := LocalAddress(c, offset);
    EmittedSplit(image, c, c1, StoreLocal(c, offset, r));
    ByteAdd(fp, 0 - offset);
    var t1 := RunLocalAddress(image, c, offset, m);
    var m1 := Run(image, m, t1);
    var t2 := RunStoreIndirect(image, c1, REG_TMP, r, m1);
    t := Compose(image, m, t1, t2);
  }

  // A declaration writes its cell exactly at the stack pointer and moves it down.
  lemma DeclareSim(image: Image, c: Compiler, c1: Compiler, name: string, r: int, fp: int, m: State, m1: State,
                   st: Memory, st1: Memory, v: byte, env: Env) returns (t: nat)
    requires OperandReady(c, c1, r, fp, m, m1, st, st1, v) && Visible(c, env)
    requires Emitted(image, c1, Codegen.DeclareLocal(c1, name, r))
    requires fp - c.nextLocal >= c.nextGlobal
    ensures Continued(c, Codegen.DeclareLocal(c1, name, r), fp, m, Run(image, m1, t), st,
      st1.(cells := st1.cells[fp - c.nextLocal := v]), env[name := Known(Local(c.nextLocal))], c.nextLocal + 1)
  {
    hide Step, Run, StoreLocal, StackPush, Emitted, Holds, Coherent, Untouched;
    var offset := c.nextLocal;
    var b := c1.(nextLocal := offset + 1, symbols := c1.symbols + [Symbol(name, Local(offset))]);
    var d := Codegen.DeclareLocal(c1, name, r);
    DeclareSplits(image, c1, name, r);
    var t1 := LocalStore(image, b, offset, r, fp, m1);
    var m2 := Run(image, m1, t1);
    var t2 := RunDown(image, StoreLocal(b, offset, r), m2);
    t := Compose(image, m1, t1, t2);
    ByteAdd(fp - offset, -1);
    InitialUnbound();
    Linking.VisibleBind(c, d, env, name, Local(offset));
    Declared(c, c1, d, r, fp, m, m1, Run(image, m1, t), st, st1, v);
  }

  // The new local's cell is live and everything else is as it was.
  lemma Declared(c: Compiler, c1: Compiler, d: Compiler, r: int, fp: int, m: State, m1: State, n: State, st: Memory,
                 st1: Memory, v: byte)
    requires OperandReady(c, c1, r, fp, m, m1, st, st1, v) && fp - c.nextLocal >= c.nextGlobal
    requires d.nextGlobal == c1.nextGlobal && d.nextLocal == c.nextLocal + 1 && Unbound(d.regs)
    requires var a := fp - c.nextLocal;
      && n.mem == m1.mem[a := m1.regs[r]] && n.output == m1.output && n.pc == |d.code|
      && n.regs[REG_FP] == m1.regs[REG_FP] && n.regs[REG_SP] == Byte(a - 1)
    ensures var a := fp - c.nextLocal; Matches(d, fp, n, st1.(cells := st1.cells[a := v])) && Untouched(m, n, st, a)
  {
  }

  lemma DeclareSplits(image: Image, c1: Compiler, name: string, r: int)
    requires Emitted(image, c1, Codegen.DeclareLocal(c1, name, r))
    ensures var offset := c1.nextLocal;
      var b := c1.(nextLocal := offset + 1, symbols := c1.symbols + [Symbol(name, Local(offset))]);
      && Emitted(image, b, StoreLocal(b, offset, r)) && |StoreLocal(b, offset, r).code| == |c1.code| + 3
      && Emitted(image, StoreLocal(b, offset, r), StackPush(StoreLocal(b, offset, r)))
      && StackPush(StoreLocal(b, offset, r)).code == Codegen.DeclareLocal(c1, name, r).code
      && |Codegen.DeclareLocal(c1, name, r).code| == |c1.code| + 5
      && Codegen.DeclareLocal(c1, name, r) == b.(regs := INITIAL, code := Codegen.DeclareLocal(c1, name, r).code)
  {
    var offset := c1.nextLocal;
    var b := c1.(nextLocal := offset + 1, symbols := c1.symbols + [Symbol(name, Local(offset))]);
    EmittedSplit(image, b, StoreLocal(b, offset, r), StackPush(StoreLocal(b, offset, r)));
  }

  lemma AssignLocalSim(image: Image, c: Compiler, c1: Compiler, offset: int, r: int, fp: int, m: State, m1: State,
                       st: Memory, st1: Memory, v: byte, env: Env) returns (t: nat)
    requires OperandReady(c, c1, r, fp, m, m1, st, st1, v) && Visible(c, env)
    requires fp - offset in st1.cells
    requires var d := Reset(FreeRegister(StoreLocal(c1, offset, r), r)); Emitted(image, c1, d)
    ensures var d := Reset(FreeRegister(StoreLocal(c1, offset, r), r));
      Continued(c, d, fp, m, Run(image, m1, t), st, st1.(cells := st1.cells[fp - offset := v]), env, c.nextLocal)
  {
    hide Step;
    t := LocalStore(image, c1, offset, r, fp, m1);
    InitialUnbound();
  }

  // Writing a global: every binding to its address is dropped and the
  // register written becomes its clean copy.
  lemma StoreGlobalSim(image: Image, c: Compiler, c1: Compiler, address: int, r: int, fp: int, m: State, m1: State,
                       st: Memory, st1: Memory, v: byte, env: Env) returns (t: nat)
    requires OperandReady(c, c1, r, fp, m, m1, st, st1, v) && Visible(c, env)
    requires address in st1.cells && 0 <= address < c.nextGlobal
    requires Emitted(image, c1, StoreGlobal(c1, address, r))
    ensures Continued(c, StoreGlobal(c1, address, r), fp, m, Run(image, m1, t), st,
      st1.(cells := st1.cells[address := v]), env, c.nextLocal)
  {
    assert image[m1.pc] == Instr(STR, address, r, 0);
    t := RunOne(image, m1);
  }

  // After the store the register stored is a clean copy of the cell and no
  // other register is bound to it.
  lemma StoredCopy(c: Compiler, address: int, r: int)
    requires IsGeneral(r) && address != NO_MEMORY
    ensures var t := StoreGlobal(c, address, r).regs;
      Clean(t[r], address) && forall q | IsGeneral(q) && q != r :: t[q].address != address
  {
  }

  lemma PointerStoreSim(image: Image, c: Compiler, c1: Compiler, a: int, c2: Compiler, r: int, fp: int,
                        m: State, m1: State, m2: State, st: Memory, st1: Memory, st2: Memory,
                        address: byte, v: byte, env: Env) returns (t: nat)
    requires OperandReady(c, c1, a, fp, m, m1, st, st1, address)
    requires OperandReady(c1, c2, r, fp, m1, m2, st1, st2, v) && Visible(c, env)
    requires address in st2.cells
    requires Emitted(image, c2, PointerStore(c2, a, r))
    ensures Continued(c, PointerStore(c2, a, r), fp, m, Run(image, m2, t), st,
      st2.(cells := st2.cells[address := v]), env, c.nextLocal)
  {
    hide Step;
    t := RunStoreIndirect(image, c2, a, r, m2);
    InitialUnbound();
    UntouchedTrans(m, m1, m2, st, st1, fp - c.nextLocal);
  }
}
