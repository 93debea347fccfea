// Entering and leaving a function: the frame prefix, the copies of the
// parameters and the frame suffix.
module FrameSim {
  import opened Wrappers
  import opened Machine
  import opened Instructions
  import opened RegisterTable
  import opened Symbols
  import opened Codegen
  import opened Shape
  import opened Execution
  import opened Source
  import opened Relation

  // ra lies at cell s and the caller's fp below it; the new frame starts at s - 2.
  lemma PrefixSim(image: Image, c: Compiler, m: State, s: int) returns (t: nat)
    requires Emitted(image, c, FunctionPrefix(c)) && m.pc == |c.code|
    requires 1 <= s < 256 && m.regs[REG_SP] == s
    ensures var n := Run(image, m, t);
      && n.pc == |FunctionPrefix(c).code| && n.output == m.output
      && n.mem == m.mem[s := m.regs[REG_RA]][s - 1 := m.regs[REG_FP]]
      && n.regs[REG_SP] == Byte(s - 2) && n.regs[REG_FP] == Byte(s - 2)
  {
    hide Step;
    var c1 := PushRegister(c, REG_RA);
    var c2 := PushRegister(c1, REG_FP);
    EmittedSplit(image, c, c1, FunctionPrefix(c));
    EmittedSplit(image, c1, c2, FunctionPrefix(c));
    var t1 := RunPush(image, c, REG_RA, m);
    var m1 := Run(image, m, t1);
    var t2 := RunPush(image, c1, REG_FP, m1);
    var m2 := Run(image, m1, t2);
    var t3 := RunCopy(image, c2, REG_FP, REG_SP, m2);
    var t4 := Compose(image, m, t1, t2);
    t := Compose(image, m, t4, t3);
  }

  // The suffix undoes the prefix: the caller's fp and ra come back and sp is
  // again at the cell where ra was pushed.
  lemma SuffixSim(image: Image, c: Compiler, m: State, fp: int) returns (t: nat)
    requires Emitted(image, c, FunctionSuffix(c)) && m.pc == |c.code|
    requires -1 <= fp && fp + 2 < 256 && m.regs[REG_FP] == Byte(fp)
    ensures var n := Run(image, m, t);
      && n.pc == m.mem[fp + 2] && n.output == m.output && n.mem == m.mem
      && n.regs[REG_SP] == Byte(fp + 2) && n.regs[REG_FP] == m.mem[fp + 1]
      && n.regs[REG_RETURN] == m.regs[REG_RETURN]
  {
    hide Step;
    var c1 := StackPop(Emit2(c, COP, REG_SP, REG_FP));
    SuffixParts(image, c);
    var t1 := UnwindSim(image, c, m);
    ByteAdd(fp, 1);
    var t2 := ReloadSim(image, c1, Run(image, m, t1), fp);
    t := Compose(image, m, t1, t2);
  }

  // The suffix after sp is back at the saved fp.
  function Reload(c: Compiler): Compiler {
    Emit1(Emit2(StackPop(Emit2(c, LDI, REG_FP, REG_SP)), LDI, REG_RA, REG_SP), JI, REG_RA)
  }

  lemma SuffixParts(image: Image, c: Compiler)
    requires Emitted(image, c, FunctionSuffix(c))
    ensures var c1 := StackPop(Emit2(c, COP, REG_SP, REG_FP));
      FunctionSuffix(c) == Reload(c1) && Emitted(image, c, c1) && Emitted(image, c1, Reload(c1))
  {
    var c1 := StackPop(Emit2(c, COP, REG_SP, REG_FP));
    EmittedSplit(image, c, c1, Reload(c1));
  }

  lemma ReloadSim(image: Image, c: Compiler, m: State, fp: int) returns (t: nat)
    requires Emitted(image, c, Reload(c)) && m.pc == |c.code|
    requires -1 <= fp && fp + 2 < 256 && m.regs[REG_SP] == Byte(fp + 1)
    ensures var n := Run(image, m, t);
      && n.pc == m.mem[fp + 2] && n.output == m.output && n.mem == m.mem
      && n.regs[REG_SP] == Byte(fp + 2) && n.regs[REG_FP] == m.mem[fp + 1]
      && n.regs[REG_RETURN] == m.regs[REG_RETURN]
  {
    hide Step;
    var c2 := Emit2(c, LDI, REG_FP, REG_SP);
    var c3 := StackPop(c2);
    var c4 := Emit2(c3, LDI, REG_RA, REG_SP);
    EmittedSplit(image, c, c2, Reload(c));
    EmittedSplit(image, c2, c3, Reload(c));
    EmittedSplit(image, c3, c4, Reload(c));
    var t1 := RunLoadIndirect(image, c, REG_FP, REG_SP, m);
    var m1 := Run(image, m, t1);
    var t2 := RunPop(image, c2, m1);
    var m2 := Run(image, m1, t2);
    ByteAdd(fp + 1, 1);
    var t3 := RunLoadIndirect(image, c3, REG_RA, REG_SP, m2);
    var m3 := Run(image, m2, t3);
    var t4 := RunJumpRegister(image, c4, REG_RA, m3);
    t := Compose(image, m, t1, t2);
    t := Compose(image, m, t, t3);
    t := Compose(image, m, t, t4);
  }

  lemma UnwindSim(image: Image, c: Compiler, m: State) returns (t: nat)
    requires Emitted(image, c, StackPop(Emit2(c, COP, REG_SP, REG_FP))) && m.pc == |c.code|
    ensures Run(image, m, t) ==
      m.(regs := m.regs[REG_TMP := 1][REG_SP := Up(m.regs[REG_FP])], pc := m.pc + 3)
  {
    hide Step;
    var c1 := Emit2(c, COP, REG_SP, REG_FP);
    EmittedSplit(image, c, c1, StackPop(c1));
    var t1 := RunCopy(image, c, REG_SP, REG_FP, m);
    var m1 := Run(image, m, t1);
    var t2 := RunPop(image, c1, m1);
    t := Compose(image, m, t1, t2);
    assert Run(image, m, t).regs == m.regs[REG_TMP := 1][REG_SP := Up(m.regs[REG_FP])];
  }

  lemma ParameterCellsAt(base: int, vs: seq<byte>)
    ensures forall a :: a in ParameterCells(base, vs) <==> base - |vs| < a <= base
    ensures forall a | base - |vs| < a <= base :: ParameterCells(base, vs)[a] == vs[base - a]
  {
    if vs != [] {
      ParameterCellsAt(base, vs[..|vs| - 1]);
    }
  }

  // The first i parameters are in their slots; pushed arguments are above fp.
  ghost predicate Copied(m: State, n: State, fp: int, vs: seq<byte>, i: nat)
    requires i <= |vs|
  {
    && -1 <= fp && fp + |vs| + 2 < 256 && i <= fp + 1
    && (forall q | 0 <= q < i :: n.mem[fp - q] == vs[q])
    && (forall q | 0 <= q < |vs| :: n.mem[fp + |vs| - q + 2] == vs[q])
    && (forall a | 0 <= a < 256 && !(fp - i < a <= fp) :: n.mem[a] == m.mem[a])
    && n.output == m.output
    && n.regs[REG_FP] == Byte(fp) && n.regs[REG_SP] == Byte(fp - i)
  }

  // The source address of parameter i: fp plus its distance.
  lemma RunArgumentLoad(image: Image, c: Compiler, k: nat, r: int, m: State) returns (t: nat)
    requires Emitted(image, c, FetchArgument(c, k, r)) && m.pc == |c.code|
    requires IsGeneral(r)
    ensures var a := Byte(m.regs[REG_FP] as int + k);
      Run(image, m, t) == m.(regs := m.regs[REG_TMP := a][r := m.mem[a]], pc := m.pc + 3)
  {
    assert image[m.pc] == Instr(AFC, REG_TMP, Byte(k), 0);
    assert image[m.pc + 1] == Instr(ADD, REG_TMP, REG_FP, REG_TMP);
    assert image[m.pc + 2] == Instr(LDI, r, REG_TMP, 0);
    ExecArgumentLoad(image, k, r, m);
    Run3(image, m);
    t := 3;
  }

  lemma ExecArgumentLoad(image: Image, k: nat, r: int, m: State)
    requires m.pc + 3 <= |image| && IsGeneral(r)
    requires image[m.pc] == Instr(AFC, REG_TMP, Byte(k), 0)
    requires image[m.pc + 1] == Instr(ADD, REG_TMP, REG_FP, REG_TMP)
    requires image[m.pc + 2] == Instr(LDI, r, REG_TMP, 0)
    ensures var a := Byte(m.regs[REG_FP] as int + k);
      Step(image, Step(image, Step(image, m))) == m.(regs := m.regs[REG_TMP := a][r := m.mem[a]], pc := m.pc + 3)
  {
    var a := Byte(m.regs[REG_FP] as int + k);
    var m1 := Step(image, m);
    assert m1 == m.(regs := m.regs[REG_TMP := Byte(k)], pc := m.pc + 1);
    ByteAdd(k, m.regs[REG_FP]);
    var m2 := Step(image, m1);
    assert m2.regs == m.regs[REG_TMP := a];
    assert m2 == m.(regs := m.regs[REG_TMP := a], pc := m.pc + 2);
  }

  // First half of a round: the argument is in r, its slot's address in the scratch register.
  lemma ParameterFetch(image: Image, c: Compiler, r: int, k: nat, offset: nat, m: State) returns (t: nat)
    requires IsGeneral(r) && m.pc == |c.code|
    requires Emitted(image, c, LocalAddress(FetchArgument(c, k, r), offset))
    ensures var n := Run(image, m, t);
      && n.pc == |LocalAddress(FetchArgument(c, k, r), offset).code| && n.output == m.output && n.mem == m.mem
      && n.regs[REG_FP] == m.regs[REG_FP] && n.regs[REG_SP] == m.regs[REG_SP]
      && n.regs[r] == m.mem[Byte(m.regs[REG_FP] as int + k)]
      && n.regs[REG_TMP] == Byte(m.regs[REG_FP] as int - offset)
  {
    hide Step;
    var b := FetchArgument(c, k, r);
    EmittedSplit(image, c, b, LocalAddress(b, offset));
    var t1 := RunArgumentLoad(image, c, k, r, m);
    var m1 := Run(image, m, t1);
    var t2 := RunLocalAddress(image, b, offset, m1);
    t := Compose(image, m, t1, t2);
  }

  // One round of the copying loop: the cell at fp - i gets the one at fp + k.
  lemma ParameterRun(image: Image, c: Compiler, name: string, i: nat, count: nat, m: State) returns (t: nat)
    requires i <= count && ParameterLocal(c, name, i, count).Success?
    requires Emitted(image, c, ParameterLocal(c, name, i, count).value) && m.pc == |c.code|
    ensures var n := Run(image, m, t);
      && n.pc == |ParameterLocal(c, name, i, count).value.code| && n.output == m.output
      && n.mem == m.mem[Byte(m.regs[REG_FP] as int - c.nextLocal) :=
        m.mem[Byte(m.regs[REG_FP] as int + (count - i + 2))]]
      && n.regs[REG_FP] == m.regs[REG_FP] && n.regs[REG_SP] == Down(m.regs[REG_SP])
  {
    hide Step, CopyArgument, Loaded, Run;
    var offset := c.nextLocal;
    var (c0, r) := AllocRegister(c.(nextLocal := offset + 1)).value;
    var b := c0.(symbols := c.symbols + [Symbol(name, Local(offset))]);
    t := CopyRun(image, b, count - i + 2, offset, r, m);
  }

  lemma CopyCode(image: Image, b: Compiler, k: int, offset: int, r: int)
    requires Emitted(image, b, CopyArgument(b, k, offset, r))
    ensures var b1 := LocalAddress(FetchArgument(b, k, r), offset);
      var b2 := StoreLocal(FetchArgument(b, k, r), offset, r);
      && Emitted(image, b, b1) && Emitted(image, b1, b2) && Emitted(image, b2, StackPush(b2))
      && b2 == Emit2(b1, STI, REG_TMP, r) && StackPush(b2).code == CopyArgument(b, k, offset, r).code
  {
    hide FetchArgument;
    FetchExtends(b, k, r);
    var b1 := LocalAddress(FetchArgument(b, k, r), offset);
    var b2 := StoreLocal(FetchArgument(b, k, r), offset, r);
    EmittedSplit(image, b, b1, StackPush(b2));
    EmittedSplit(image, b1, b2, StackPush(b2));
  }

  lemma FetchExtends(b: Compiler, k: int, r: int)
    ensures Extends(b, FetchArgument(b, k, r))
  {
  }

  lemma CopyRun(image: Image, b: Compiler, k: nat, offset: nat, r: int, m: State) returns (t: nat)
    requires Emitted(image, b, CopyArgument(b, k, offset, r)) && m.pc == |b.code| && IsGeneral(r)
    ensures var n := Run(image, m, t);
      && n.pc == |CopyArgument(b, k, offset, r).code| && n.output == m.output
      && n.mem == m.mem[Byte(m.regs[REG_FP] as int - offset) := m.mem[Byte(m.regs[REG_FP] as int + k)]]
      && n.regs[REG_FP] == m.regs[REG_FP] && n.regs[REG_SP] == Down(m.regs[REG_SP])
  {
    hide Step, CopyArgument, FetchArgument, Emitted, LocalAddress;
    CopyCode(image, b, k, offset, r);
    var b1 := LocalAddress(FetchArgument(b, k, r), offset);
    var b2 := StoreLocal(FetchArgument(b, k, r), offset, r);
    var t1 := ParameterFetch(image, b, r, k, offset, m);
    var m1 := Run(image, m, t1);
    var t2 := RunStoreIndirect(image, b1, REG_TMP, r, m1);
    var m2 := Run(image, m1, t2);
    var t3 := RunDown(image, b2, m2);
    t := Compose(image, m, t1, t2);
    t := Compose(image, m, t, t3);
  }

  lemma CopiedBounds(m: State, n: State, fp: int, vs: seq<byte>, i: nat)
    requires i <= |vs| && Copied(m, n, fp, vs, i)
    ensures -1 <= fp && fp + |vs| + 2 < 256 && n.regs[REG_FP] == Byte(fp) && n.regs[REG_SP] == Byte(fp - i)
      && n.output == m.output
  {
  }

  lemma CopiedOneMore(m: State, m1: State, n: State, fp: int, vs: seq<byte>, i: nat)
    requires i < |vs| && i <= fp && Copied(m, m1, fp, vs, i)
    requires 0 <= fp - i < 256 && fp + |vs| - i + 2 < 256
    requires n.mem == m1.mem[fp - i := m1.mem[fp + |vs| - i + 2]] && n.output == m1.output
    requires n.regs[REG_FP] == Byte(fp) && n.regs[REG_SP] == Byte(fp - i - 1)
    ensures Copied(m, n, fp, vs, i + 1)
  {
    assert n.mem[fp - i] == m1.mem[fp + |vs| - i + 2] == vs[i];
    forall q | 0 <= q < |vs|
      ensures n.mem[fp + |vs| - q + 2] == vs[q]
    {
      assert m1.mem[fp + |vs| - q + 2] == vs[q];
    }
  }

  lemma ParameterSim(image: Image, c: Compiler, name: string, vs: seq<byte>, i: nat, fp: int, m: State, m1: State)
    returns (t: nat)
    requires i < |vs| && c.nextLocal == i
    requires ParameterLocal(c, name, i, |vs|).Success?
    requires Emitted(image, c, ParameterLocal(c, name, i, |vs|).value) && m1.pc == |c.code|
    requires Copied(m, m1, fp, vs, i) && i <= fp
    ensures var n := Run(image, m1, t);
      n.pc == |ParameterLocal(c, name, i, |vs|).value.code| && Copied(m, n, fp, vs, i + 1)
  {
    hide Step, ParameterLocal, Copied, Run, Emitted;
    CopiedBounds(m, m1, fp, vs, i);
    t := ParameterRun(image, c, name, i, |vs|, m1);
    ByteAdd(fp, |vs| - i + 2);
    ByteAdd(fp, 0 - i);
    ByteAdd(fp - i, -1);
    CopiedOneMore(m, m1, Run(image, m1, t), fp, vs, i);
  }
}
