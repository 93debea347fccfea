// Straight-line expression code computes the source value.
module ExpressionSim {
  import opened Wrappers
  import opened Machine
  import opened Instructions
  import opened RegisterTable
  import opened Symbols
  import opened Syntax
  import opened Codegen
  import opened Shape
  import opened Execution
  import opened Source
  import opened Relation

  lemma ConstantSim(image: Image, c: Compiler, value: int, fp: int, m: State, st: Memory) returns (t: nat)
    requires ConstantLoad(c, value).Success?
    requires Emitted(image, c, ConstantLoad(c, value).value.0)
    requires Matches(c, fp, m, st)
    ensures var (d, r) := ConstantLoad(c, value).value; Computed(c, d, r, fp, m, Run(image, m, t), st, st, Byte(value))
    ensures Quiet(m, Run(image, m, t))
  {
    var (d, r) := ConstantLoad(c, value).value;
    assert image[m.pc] == Instr(AFC, r, Byte(value), 0);
    t := RunOne(image, m);
    Deliver(c, d, r, fp, m, Run(image, m, t), st, Byte(value));
  }

  lemma LocalLoadSim(image: Image, c: Compiler, offset: int, fp: int, m: State, st: Memory) returns (t: nat)
    requires LocalLoad(c, offset).Success?
    requires Emitted(image, c, LocalLoad(c, offset).value.0)
    requires Matches(c, fp, m, st)
    requires fp - offset in st.cells
    ensures var (d, r) := LocalLoad(c, offset).value;
      Computed(c, d, r, fp, m, Run(image, m, t), st, st, st.cells[fp - offset])
    ensures Quiet(m, Run(image, m, t))
  {
    hide Step;
    var (c1, r) := AllocRegister(c).value;
    var c2 := LocalAddress(c1, offset);
    var c3 := Emit2(c2, LDI, r, REG_TMP);
    EmittedSplit(image, c1, c2, c3);
    ByteAdd(fp, 0 - offset);
    var t1 := RunLocalAddress(image, c1, offset, m);
    var m1 := Run(image, m, t1);
    var t2 := RunLoadIndirect(image, c2, r, REG_TMP, m1);
    t := Compose(image, m, t1, t2);
    Deliver(c, Temporary(c3, r), r, fp, m, Run(image, m, t), st, st.cells[fp - offset]);
  }

  lemma GlobalLoadSim(image: Image, c: Compiler, address: int, fp: int, m: State, st: Memory) returns (t: nat)
    requires GlobalLoad(c, address).Success?
    requires Emitted(image, c, GlobalLoad(c, address).value.0)
    requires Matches(c, fp, m, st)
    requires address in st.cells && 0 <= address < c.nextGlobal
    ensures var (d, r) := GlobalLoad(c, address).value;
      Computed(c, d, r, fp, m, Run(image, m, t), st, st, st.cells[address])
    ensures Quiet(m, Run(image, m, t))
  {
    hide Step;
    var (d, r) := GlobalLoad(c, address).value;
    if c.caching && FindMemory(c.regs, address).Some? {
      t := 0;
      assert Run(image, m, t) == m;
      Deliver(c, d, r, fp, m, m, st, st.cells[address]);
    } else {
      var (c1, q) := AllocRegister(c).value;
      FreshLoadSim(image, c, c1, r, address, fp, m, st);
      t := 1;
    }
  }

  // The LOAD of a cell into a new register.
  lemma FreshLoadSim(image: Image, c: Compiler, c1: Compiler, r: int, address: int, fp: int, m: State, st: Memory)
    requires AllocRegister(c) == Success((c1, r))
    requires var c2 := Emit2(c1, LOAD, r, address); Emitted(image, c, c2.(regs := BindMemory(c2.regs, r, address)))
    requires Matches(c, fp, m, st) && address in st.cells && 0 <= address < c.nextGlobal
    ensures var c2 := Emit2(c1, LOAD, r, address); var d := c2.(regs := BindMemory(c2.regs, r, address));
      Computed(c, d, r, fp, m, Run(image, m, 1), st, st, st.cells[address])
    ensures Quiet(m, Run(image, m, 1))
  {
    var c2 := Emit2(c1, LOAD, r, address);
    assert image[m.pc] == Instr(LOAD, r, address, 0);
    var t := RunOne(image, m);
    Deliver(c, c2.(regs := BindMemory(c2.regs, r, address)), r, fp, m, Run(image, m, 1), st, st.cells[address]);
  }

  lemma AddressSim(image: Image, c: Compiler, name: string, env: Env, fp: int, m: State, st: Memory) returns (t: nat)
    requires VariableAddress(c, name).Success?
    requires Emitted(image, c, VariableAddress(c, name).value.0)
    requires Matches(c, fp, m, st) && Visible(c, env) && name in env && env[name].Known?
    ensures var (d, r) := VariableAddress(c, name).value;
      Computed(c, d, r, fp, m, Run(image, m, t), st, st, Byte(Cell(env[name].location, fp)))
    ensures Quiet(m, Run(image, m, t))
  {
    hide Step, AllocRegister, Matches, Computed, Quiet, Emit2, Emit3, Temporary, Emitted;
    var (c1, r) := AllocRegister(c).value;
    match env[name].location
    case Global(address) => t := GlobalAddressSim(image, c, c1, r, address, fp, m, st);
    case Local(offset) => t := LocalAddressSim(image, c, c1, r, offset, fp, m, st);
  }

  lemma GlobalAddressSim(image: Image, c: Compiler, c1: Compiler, r: int, address: int, fp: int, m: State, st: Memory)
    returns (t: nat)
    requires AllocRegister(c) == Success((c1, r)) && Matches(c, fp, m, st)
    requires Emitted(image, c, Temporary(Emit2(c1, AFC, r, address), r))
    ensures Computed(c, Temporary(Emit2(c1, AFC, r, address), r), r, fp, m, Run(image, m, t), st, st, Byte(address))
    ensures Quiet(m, Run(image, m, t))
  {
    hide Step;
    t := RunConstant(image, c1, r, address, m);
    Deliver(c, Temporary(Emit2(c1, AFC, r, address), r), r, fp, m, Run(image, m, t), st, Byte(address));
  }

  // The address of a local: the frame pointer minus its offset.
  lemma LocalAddressSim(image: Image, c: Compiler, c1: Compiler, r: int, offset: int, fp: int, m: State, st: Memory)
    returns (t: nat)
    requires AllocRegister(c) == Success((c1, r)) && Matches(c, fp, m, st)
    requires Emitted(image, c, Temporary(Emit3(Emit2(c1, AFC, r, offset), SOU, r, REG_FP, r), r))
    ensures Computed(c, Temporary(Emit3(Emit2(c1, AFC, r, offset), SOU, r, REG_FP, r), r), r, fp, m, Run(image, m, t),
      st, st,
      Byte(fp - offset))
    ensures Quiet(m, Run(image, m, t))
  {
    hide Step;
    var c2 := Emit2(c1, AFC, r, offset);
    var c3 := Emit3(c2, SOU, r, REG_FP, r);
    EmittedSplit(image, c1, c2, c3);
    var t1 := RunConstant(image, c1, r, offset, m);
    var m1 := Run(image, m, t1);
    var t2 := RunTernary(image, c2, SOU, r, REG_FP, r, m1);
    t := Compose(image, m, t1, t2);
    ByteSub(m.regs[REG_FP], offset);
    ByteAdd(fp, 0 - offset);
    Deliver(c, Temporary(c3, r), r, fp, m, Run(image, m, t), st, Byte(fp - offset));
  }

  lemma VariableSim(image: Image, c: Compiler, name: string, env: Env, fp: int, m: State, st: Memory) returns (t: nat)
    requires VariableLoad(c, name).Success?
    requires Emitted(image, c, VariableLoad(c, name).value.0)
    requires Matches(c, fp, m, st) && Visible(c, env) && Live(name, env, fp, st)
    ensures var (d, r) := VariableLoad(c, name).value;
      Computed(c, d, r, fp, m, Run(image, m, t), st, st, st.cells[Cell(env[name].location, fp)])
    ensures Quiet(m, Run(image, m, t))
  {
    match env[name].location
    case Global(address) => t := GlobalLoadSim(image, c, address, fp, m, st);
    case Local(offset) => t := LocalLoadSim(image, c, offset, fp, m, st);
  }

  // A name the table does not have reads as 0.
  lemma UndeclaredSim(image: Image, c: Compiler, name: string, fp: int, m: State, st: Memory) returns (t: nat)
    requires Lookup(c.symbols, name) == None && VariableLoad(c, name).Success?
    requires Emitted(image, c, VariableLoad(c, name).value.0)
    requires Matches(c, fp, m, st)
    ensures var (d, r) := VariableLoad(c, name).value; Computed(c, d, r, fp, m, Run(image, m, t), st, st, 0)
    ensures Quiet(m, Run(image, m, t))
  {
    t := ConstantSim(image, c, 0, fp, m, st);
  }

  lemma NotSim(image: Image, c: Compiler, c1: Compiler, r: int, fp: int,
               m: State, m1: State, st: Memory, st1: Memory, v: byte) returns (t: nat)
    requires Computed(c, c1, r, fp, m, m1, st, st1, v) && Delivers(c, c1, r)
    requires Emitted(image, c1, UnaryExpression(c1, NOT, r))
    ensures Computed(c, UnaryExpression(c1, NOT, r), r, fp, m, Run(image, m1, t), st, st1, if v == 0 then 1 else 0)
    ensures Quiet(m1, Run(image, m1, t))
  {
    assert image[m1.pc] == Instr(NOT, r, r, 0);
    t := RunOne(image, m1);
    Replace(c, c1, UnaryExpression(c1, NOT, r), r, fp, m, m1, Run(image, m1, t), st, st1, v, if v == 0 then 1 else 0);
  }

  lemma DerefSim(image: Image, c: Compiler, c1: Compiler, r: int, fp: int,
                 m: State, m1: State, st: Memory, st1: Memory, a: byte) returns (t: nat)
    requires Computed(c, c1, r, fp, m, m1, st, st1, a) && Delivers(c, c1, r)
    requires a in st1.cells
    requires Emitted(image, c1, UnaryExpression(c1, LDI, r))
    ensures Computed(c, UnaryExpression(c1, LDI, r), r, fp, m, Run(image, m1, t), st, st1, st1.cells[a])
    ensures Quiet(m1, Run(image, m1, t))
  {
    assert image[m1.pc] == Instr(LDI, r, r, 0);
    t := RunOne(image, m1);
    Replace(c, c1, UnaryExpression(c1, LDI, r), r, fp, m, m1, Run(image, m1, t), st, st1, a, st1.cells[a]);
  }

  // The opcode of each operator computes it.
  lemma OpcodeMeaning(op: BinaryOp, x: byte, y: byte)
    ensures IsTernary(Opcode(op)) && Alu(Opcode(op), x, y) == Apply(op, x, y)
  {
    hide Byte;
  }

  // The left value survives the computation of the right one, and a register
  // whose binding went stale meanwhile ends up temporary.
  lemma BinarySim(image: Image, c: Compiler, c1: Compiler, l: int, c2: Compiler, r: int, op: BinaryOp, fp: int,
                  m: State, m1: State, m2: State, st: Memory, st1: Memory, st2: Memory, v: byte, w: byte)
    returns (t: nat)
    requires Computed(c, c1, l, fp, m, m1, st, st1, v) && Delivers(c, c1, l)
    requires Computed(c1, c2, r, fp, m1, m2, st1, st2, w) && Delivers(c1, c2, r)
    requires st1.cells.Keys == st.cells.Keys
    requires Emitted(image, c2, BinaryExpression(c2, op, l, r))
    ensures Computed(c, BinaryExpression(c2, op, l, r), l, fp, m, Run(image, m2, t), st, st2, Apply(op, v, w))
    ensures Quiet(m2, Run(image, m2, t))
  {
    hide Step, Alu, Apply;
    OpcodeMeaning(op, v, w);
    t := RunTernary(image, c2, Opcode(op), l, l, r, m2);
    UntouchedTrans(m, m1, m2, st, st1, fp - c.nextLocal);
  }
}
