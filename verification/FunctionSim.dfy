// The callee's side of a call: from the entry label to the body and from the
// end of the body back to the caller.
module FunctionSim {
  import opened Wrappers
  import opened Machine
  import opened Instructions
  import opened RegisterTable
  import opened Symbols
  import opened Syntax
  import opened Codegen
  import opened Shape
  import opened Execution
  import opened FrameSim
  import opened Source
  import opened Relation
  import opened CallSim
  import opened StatementSim
  import opened Linking

  lemma {:induction false} ParametersSim(image: Image, c: Compiler, names: seq<string>, vs: seq<byte>, i: nat, fp: int,
                                         m: State, m1: State) returns (t: nat)
    requires i <= |names| == |vs| && c.nextLocal == i
    requires ParameterLocals(c, names, i).Success?
    requires Emitted(image, c, ParameterLocals(c, names, i).value) && m1.pc == |c.code|
    requires Copied(m, m1, fp, vs, i) && |vs| <= fp + 1
    ensures var n := Run(image, m1, t);
      n.pc == |ParameterLocals(c, names, i).value.code| && Copied(m, n, fp, vs, |vs|)
    decreases |names| - i
  {
    hide Step, ParameterLocal, Copied;
    if i == |names| {
      t := 0;
    } else {
      ParameterLocalShape(c, names[i], i, |names|);
      var c1 := ParameterLocal(c, names[i], i, |names|).value;
      ParameterLocalsShape(c1, names, i + 1);
      EmittedSplit(image, c, c1, ParameterLocals(c1, names, i + 1).value);
      var t1 := ParameterSim(image, c, names[i], vs, i, fp, m, m1);
      var t2 := ParametersSim(image, c1, names, vs, i + 1, fp, m, Run(image, m1, t1));
      t := Compose(image, m1, t1, t2);
    }
  }

  lemma BeginUnfolds(c: Compiler, name: string, names: seq<string>)
    requires BeginFunction(c, name, names).Success?
    ensures var c2 := FunctionPrefix(Codegen.EnterFunction(c, name, |names|));
      && c2.nextLocal == 0
      && ParameterLocals(c2, names, 0).Success?
      && BeginFunction(c, name, names).value == Reset(ParameterLocals(c2, names, 0).value)
  {
    hide ParameterLocals, FunctionPrefix;
    PrefixShape(Codegen.EnterFunction(c, name, |names|));
  }

  lemma BeginParts(image: Image, c: Compiler, name: string, names: seq<string>)
    requires BeginFunction(c, name, names).Success? && Emitted(image, c, BeginFunction(c, name, names).value)
    ensures var c1 := Codegen.EnterFunction(c, name, |names|);
      var c2 := FunctionPrefix(c1);
      && |c.code| < |image| && image[|c.code|] == Instr(NOP, 0, 0, 0) && |c1.code| == |c.code| + 1
      && Emitted(image, c1, c2)
      && c2.nextLocal == 0
      && ParameterLocals(c2, names, 0).Success?
      && Emitted(image, c2, ParameterLocals(c2, names, 0).value)
      && BeginFunction(c, name, names).value == Reset(ParameterLocals(c2, names, 0).value)
  {
    hide BeginFunction, FunctionPrefix, ParameterLocals;
    BeginUnfolds(c, name, names);
    var c1 := Codegen.EnterFunction(c, name, |names|);
    var c2 := FunctionPrefix(c1);
    ParameterLocalsShape(c2, names, 0);
    PrefixShape(c1);
    var d := ParameterLocals(c2, names, 0).value;
    EmittedSplit(image, c, c1, d);
    EmittedSplit(image, c1, c2, d);
  }

  lemma RunLabel(image: Image, m: State) returns (t: nat)
    requires m.pc < |image| && image[m.pc] == Instr(NOP, 0, 0, 0)
    ensures Run(image, m, t) == m.(pc := m.pc + 1)
  {
    t := RunOne(image, m);
  }

  // The state at the start of a function body: ra and the caller's fp are
  // saved above the frame, every parameter is in its slot, and no cell above
  // the pushed arguments has changed.
  ghost predicate Entered(c1: Compiler, fp: int, m: State, n: State, st: Memory, vs: seq<byte>) {
    && n.pc == |c1.code| && n.output == m.output
    && n.regs[REG_FP] == Byte(fp) && n.regs[REG_SP] == Byte(fp - |vs|)
    && -1 <= fp && fp + |vs| + 2 < 256
    && n.mem[fp + 2] == m.regs[REG_RA] && n.mem[fp + 1] == m.regs[REG_FP]
    && |vs| <= fp + 1
    && (forall q | 0 <= q < |vs| :: n.mem[fp - q] == vs[q])
    && forall a | 0 <= a < 256 && !(fp - |vs| < a <= fp + 2) :: n.mem[a] == m.mem[a]
  }

  lemma EntrySim(p: Program, image: Image, c: Compiler, name: string, names: seq<string>, vs: seq<byte>, sp: int,
                      m: State, st: Memory) returns (t: nat)
    requires BeginFunction(c, name, names).Success? && Emitted(image, c, BeginFunction(c, name, names).value)
    requires |names| == |vs| && m.pc == |c.code| && CallReady(p, m, vs, sp, st)
    ensures Entered(BeginFunction(c, name, names).value, FrameBase(sp, |vs|), m, Run(image, m, t), st, vs)
  {
    hide Step, BeginFunction, GlobalCount, FunctionPrefix, ParameterLocals, Codegen.EnterFunction, Holds, Emitted;
    BeginParts(image, c, name, names);
    var c1 := Codegen.EnterFunction(c, name, |names|);
    var c2 := FunctionPrefix(c1);
    var fp := FrameBase(sp, |vs|);
    var t1 := RunLabel(image, m);
    var m1 := Run(image, m, t1);
    var t2 := PrefixSim(image, c1, m1, fp + 2);
    var m2 := Run(image, m1, t2);
    assert Copied(m2, m2, fp, vs, 0);
    var t3 := ParametersSim(image, c2, names, vs, 0, fp, m2, m2);
    t := Compose(image, m, t1, t2);
    t := Compose(image, m, t, t3);
  }

  // At the start of the body the machine represents the source state in which
  // the parameters are bound.
  lemma EnteredMatches(p: Program, c1: Compiler, fp: int, m: State, n: State, st: Memory, vs: seq<byte>, sp: int)
    requires Entered(c1, fp, m, n, st, vs) && CallReady(p, m, vs, sp, st) && fp == FrameBase(sp, |vs|)
    requires c1.regs == INITIAL && c1.nextLocal == |vs| && c1.nextGlobal == GlobalCount(p)
    ensures var entered := st.(cells := st.cells + ParameterCells(fp, vs));
      Matches(c1, fp, n, entered) && FrameIntact(fp, false, entered)
  {
    hide GlobalCount, ParameterCells;
    ParameterCellsAt(fp, vs);
    InitialUnbound();
  }

  // The end of the body without a return: the result is 0.
  lemma FallThrough(image: Image, c: Compiler, m: State, fp: int) returns (t: nat)
    requires Emitted(image, c, EndFunction(c)) && m.pc == |c.code|
    requires -1 <= fp && fp + 2 < 256 && m.regs[REG_FP] == Byte(fp)
    ensures var n := Run(image, m, t);
      && n.pc == m.mem[fp + 2] && n.output == m.output && n.mem == m.mem
      && n.regs[REG_SP] == Byte(fp + 2) && n.regs[REG_FP] == m.mem[fp + 1]
      && n.regs[REG_RETURN] == 0
  {
    hide Step, FunctionSuffix;
    var c1 := Emit2(c, AFC, REG_RETURN, 0);
    SuffixShape(c1);
    EmittedSplit(image, c, c1, FunctionSuffix(c1));
    var t1 := RunConstant(image, c, REG_RETURN, 0, m);
    var t2 := SuffixSim(image, c1, Run(image, m, t1), fp);
    t := Compose(image, m, t1, t2);
  }

  // Whichever way the body ended, the caller is back with its frame.
  lemma BackAtCaller(p: Program, c1: Compiler, fp: int, m: State, n: State, f: State, st: Memory, st1: Memory,
                     vs: seq<byte>, sp: int, v: byte)
    requires Entered(c1, fp, m, n, st, vs) && CallReady(p, m, vs, sp, st) && fp == FrameBase(sp, |vs|)
    requires c1.nextLocal == |vs|
    requires var entered := st.(cells := st.cells + ParameterCells(fp, vs));
      Returned(c1, fp, n, f, entered, st1, v)
    ensures CallDone(p, m, f, sp, st, Restrict(st1, st.cells.Keys), v)
  {
    hide GlobalCount, ParameterCells;
    ParameterCellsAt(fp, vs);
    var entered := st.(cells := st.cells + ParameterCells(fp, vs));
    forall a | a in st.cells
      ensures 0 <= a < 256 && (a < GlobalCount(p) || sp < a) && a in st1.cells && f.mem[a] == st1.cells[a]
    {
      assert a in entered.cells;
    }
  }
}
