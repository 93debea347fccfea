// What the machine does when it runs the generator's short instruction
// sequences: stack pushes and pops, spills and reloads, frame entry and exit.
module Execution {
  import opened Machine
  import opened Instructions
  import opened RegisterTable
  import opened Codegen
  import opened Shape

  // The instructions lo..hi of `code` are in the machine's image.
  ghost predicate Loaded(image: Image, code: seq<Raw>, lo: int, hi: int) {
    && 0 <= lo <= hi <= |code| && hi <= |image|
    && forall i | lo <= i < hi :: image[i] == Assemble(code[i], i)
  }

  // What `d` emitted on top of `c` is in the image.
  ghost predicate Emitted(image: Image, c: Compiler, d: Compiler) {
    Loaded(image, d.code, |c.code|, |d.code|)
  }

  lemma EmittedSplit(image: Image, c: Compiler, d: Compiler, e: Compiler)
    requires Emitted(image, c, e) && Extends(c, d) && Extends(d, e)
    ensures Emitted(image, c, d) && Emitted(image, d, e)
  {
  }

  lemma ByteAdd(x: int, y: int)
    ensures Byte(Byte(x) + y) == Byte(x + y)
  {
  }

  lemma ByteSub(x: int, y: int)
    ensures Byte(x - Byte(y)) == Byte(x - y)
  {
  }

  // Running is stated with a step count as out-parameter, so that runs compose
  // without being unfolded.

  lemma Compose(image: Image, m: State, t: nat, u: nat) returns (v: nat)
    ensures v == t + u && Run(image, m, v) == Run(image, Run(image, m, t), u)
  {
    RunAdd(image, m, t, u);
    v := t + u;
  }

  lemma RunOne(image: Image, m: State) returns (t: nat)
    ensures t == 1 && Run(image, m, t) == Step(image, m)
  {
    Run1(image, m);
    t := 1;
  }

  lemma PushCode(image: Image, c: Compiler, r: int)
    requires Emitted(image, c, PushRegister(c, r)) && IsRegister(r)
    ensures |c.code| + 3 <= |image|
    ensures image[|c.code|] == Instr(STI, REG_SP, r, 0)
    ensures image[|c.code| + 1] == Instr(AFC, REG_TMP, 1, 0)
    ensures image[|c.code| + 2] == Instr(SOU, REG_SP, REG_SP, REG_TMP)
  {
  }

  lemma ExecPush(image: Image, r: int, m: State)
    requires IsRegister(r) && m.pc + 3 <= |image|
    requires image[m.pc] == Instr(STI, REG_SP, r, 0)
    requires image[m.pc + 1] == Instr(AFC, REG_TMP, 1, 0)
    requires image[m.pc + 2] == Instr(SOU, REG_SP, REG_SP, REG_TMP)
    ensures Step(image, Step(image, Step(image, m))) ==
      m.(regs := m.regs[REG_TMP := 1][REG_SP := Down(m.regs[REG_SP])],
         mem := m.mem[m.regs[REG_SP] := m.regs[r]], pc := m.pc + 3)
  {
    var m1 := Step(image, m);
    assert m1 == m.(mem := m.mem[m.regs[REG_SP] := m.regs[r]], pc := m.pc + 1);
    var m2 := Step(image, m1);
    assert m2 == m1.(regs := m.regs[REG_TMP := 1], pc := m.pc + 2);
  }

  lemma RunPush(image: Image, c: Compiler, r: int, m: State) returns (t: nat)
    requires Emitted(image, c, PushRegister(c, r)) && m.pc == |c.code|
    requires IsRegister(r)
    ensures Run(image, m, t) ==
      m.(regs := m.regs[REG_TMP := 1][REG_SP := Down(m.regs[REG_SP])],
         mem := m.mem[m.regs[REG_SP] := m.regs[r]], pc := m.pc + 3)
  {
    PushCode(image, c, r);
    ExecPush(image, r, m);
    Run3(image, m);
    t := 3;
  }

  lemma PopCode(image: Image, c: Compiler)
    requires Emitted(image, c, StackPop(c))
    ensures |c.code| + 2 <= |image|
    ensures image[|c.code|] == Instr(AFC, REG_TMP, 1, 0)
    ensures image[|c.code| + 1] == Instr(ADD, REG_SP, REG_SP, REG_TMP)
  {
  }

  lemma ExecPop(image: Image, m: State)
    requires m.pc + 2 <= |image|
    requires image[m.pc] == Instr(AFC, REG_TMP, 1, 0)
    requires image[m.pc + 1] == Instr(ADD, REG_SP, REG_SP, REG_TMP)
    ensures Step(image, Step(image, m)) ==
      m.(regs := m.regs[REG_TMP := 1][REG_SP := Up(m.regs[REG_SP])], pc := m.pc + 2)
  {
    var m1 := Step(image, m);
    assert m1 == m.(regs := m.regs[REG_TMP := 1], pc := m.pc + 1);
  }

  lemma RunPop(image: Image, c: Compiler, m: State) returns (t: nat)
    requires Emitted(image, c, StackPop(c)) && m.pc == |c.code|
    ensures Run(image, m, t) ==
      m.(regs := m.regs[REG_TMP := 1][REG_SP := Up(m.regs[REG_SP])], pc := m.pc + 2)
  {
    PopCode(image, c);
    ExecPop(image, m);
    Run2(image, m);
    t := 2;
  }

  lemma LocalAddressCode(image: Image, c: Compiler, offset: int)
    requires Emitted(image, c, LocalAddress(c, offset))
    ensures |c.code| + 2 <= |image|
    ensures image[|c.code|] == Instr(AFC, REG_TMP, Byte(offset), 0)
    ensures image[|c.code| + 1] == Instr(SOU, REG_TMP, REG_FP, REG_TMP)
  {
  }

  lemma ExecLocalAddress(image: Image, offset: int, m: State)
    requires m.pc + 2 <= |image|
    requires image[m.pc] == Instr(AFC, REG_TMP, Byte(offset), 0)
    requires image[m.pc + 1] == Instr(SOU, REG_TMP, REG_FP, REG_TMP)
    ensures Step(image, Step(image, m)) ==
      m.(regs := m.regs[REG_TMP := Byte(m.regs[REG_FP] as int - offset)], pc := m.pc + 2)
  {
    var m1 := Step(image, m);
    assert m1 == m.(regs := m.regs[REG_TMP := Byte(offset)], pc := m.pc + 1);
    ByteSub(m.regs[REG_FP], offset);
    var m2 := Step(image, m1);
    assert m2.regs == m.regs[REG_TMP := Byte(m.regs[REG_FP] as int - offset)];
  }

  lemma RunLocalAddress(image: Image, c: Compiler, offset: int, m: State) returns (t: nat)
    requires Emitted(image, c, LocalAddress(c, offset)) && m.pc == |c.code|
    ensures Run(image, m, t) ==
      m.(regs := m.regs[REG_TMP := Byte(m.regs[REG_FP] as int - offset)], pc := m.pc + 2)
  {
    LocalAddressCode(image, c, offset);
    ExecLocalAddress(image, offset, m);
    Run2(image, m);
    t := 2;
  }

  lemma RunDown(image: Image, c: Compiler, m: State) returns (t: nat)
    requires Emitted(image, c, StackPush(c)) && m.pc == |c.code|
    ensures Run(image, m, t) ==
      m.(regs := m.regs[REG_TMP := 1][REG_SP := Down(m.regs[REG_SP])], pc := m.pc + 2)
  {
    assert image[m.pc] == Instr(AFC, REG_TMP, 1, 0);
    assert image[m.pc + 1] == Instr(SOU, REG_SP, REG_SP, REG_TMP);
    ExecDown(image, m);
    Run2(image, m);
    t := 2;
  }

  lemma ExecDown(image: Image, m: State)
    requires m.pc + 2 <= |image|
    requires image[m.pc] == Instr(AFC, REG_TMP, 1, 0)
    requires image[m.pc + 1] == Instr(SOU, REG_SP, REG_SP, REG_TMP)
    ensures Step(image, Step(image, m)) ==
      m.(regs := m.regs[REG_TMP := 1][REG_SP := Down(m.regs[REG_SP])], pc := m.pc + 2)
  {
    var m1 := Step(image, m);
    assert m1 == m.(regs := m.regs[REG_TMP := 1], pc := m.pc + 1);
  }

  lemma RunCopy(image: Image, c: Compiler, a: int, b: int, m: State) returns (t: nat)
    requires Emitted(image, c, Emit2(c, COP, a, b)) && m.pc == |c.code|
    requires IsRegister(a) && IsRegister(b)
    ensures Run(image, m, t) == m.(regs := m.regs[a := m.regs[b]], pc := m.pc + 1)
  {
    assert image[m.pc] == Instr(COP, a, b, 0);
    t := RunOne(image, m);
  }

  lemma RunLoadIndirect(image: Image, c: Compiler, a: int, b: int, m: State) returns (t: nat)
    requires Emitted(image, c, Emit2(c, LDI, a, b)) && m.pc == |c.code|
    requires IsRegister(a) && IsRegister(b)
    ensures Run(image, m, t) == m.(regs := m.regs[a := m.mem[m.regs[b]]], pc := m.pc + 1)
  {
    assert image[m.pc] == Instr(LDI, a, b, 0);
    t := RunOne(image, m);
  }

  lemma RunStoreIndirect(image: Image, c: Compiler, a: int, b: int, m: State) returns (t: nat)
    requires Emitted(image, c, Emit2(c, STI, a, b)) && m.pc == |c.code|
    requires IsRegister(a) && IsRegister(b)
    ensures Run(image, m, t) == m.(mem := m.mem[m.regs[a] := m.regs[b]], pc := m.pc + 1)
  {
    assert image[m.pc] == Instr(STI, a, b, 0);
    t := RunOne(image, m);
  }

  lemma RunJumpRegister(image: Image, c: Compiler, a: int, m: State) returns (t: nat)
    requires Emitted(image, c, Emit1(c, JI, a)) && m.pc == |c.code|
    requires IsRegister(a)
    ensures t >= 1 && Run(image, m, t) == m.(pc := m.regs[a])
  {
    assert image[m.pc] == Instr(JI, a, 0, 0);
    t := RunOne(image, m);
  }

  lemma RunConstant(image: Image, c: Compiler, a: int, v: int, m: State) returns (t: nat)
    requires Emitted(image, c, Emit2(c, AFC, a, v)) && m.pc == |c.code|
    requires IsRegister(a)
    ensures Run(image, m, t) == m.(regs := m.regs[a := Byte(v)], pc := m.pc + 1)
  {
    assert image[m.pc] == Instr(AFC, a, Byte(v), 0);
    t := RunOne(image, m);
  }

  lemma RunTernary(image: Image, c: Compiler, op: Op, a: int, b: int, k: int, m: State) returns (t: nat)
    requires Emitted(image, c, Emit3(c, op, a, b, k)) && m.pc == |c.code|
    requires IsTernary(op) && IsRegister(a) && IsRegister(b) && IsRegister(k)
    ensures Run(image, m, t) == m.(regs := m.regs[a := Alu(op, m.regs[b], m.regs[k])], pc := m.pc + 1)
  {
    assert image[m.pc] == Instr(op, a, b, k);
    t := RunOne(image, m);
  }

  // Registers other than the scratch register and the stack pointer.
  ghost predicate SameRegs(m: State, n: State) {
    forall q | IsRegister(q) && q != REG_TMP && q != REG_SP :: n.regs[q] == m.regs[q]
  }

  ghost predicate Spillable(list: seq<int>) {
    forall i | 0 <= i < |list| :: IsRegister(list[i]) && list[i] != REG_TMP && list[i] != REG_SP
  }

  // `list` lies in memory from cell `top` downwards.
  ghost predicate Stacked(m: State, values: State, list: seq<int>, top: int)
    requires Spillable(list)
  {
    && top < 256 && -1 <= top - |list|
    && forall i | 0 <= i < |list| :: m.mem[top - i] == values.regs[list[i]]
  }

  lemma {:induction false} RunPushes(image: Image, c: Compiler, list: seq<int>, m: State, sp: int) returns (t: nat)
    requires Emitted(image, c, PushRegisters(c, list)) && m.pc == |c.code|
    requires Spillable(list)
    requires sp < 256 && -1 <= sp - |list| && m.regs[REG_SP] == Byte(sp)
    ensures var n := Run(image, m, t);
      && n.pc == |PushRegisters(c, list).code| && n.output == m.output && SameRegs(m, n)
      && n.regs[REG_SP] == Byte(sp - |list|)
      && Stacked(n, m, list, sp)
      && forall a | 0 <= a < 256 && !(sp - |list| < a <= sp) :: n.mem[a] == m.mem[a]
    decreases |list|
  {
    hide Step;
    if list == [] {
      t := 0;
    } else {
      var c1 := PushRegister(c, list[0]);
      PushRegistersShape(c1, list[1..]);
      EmittedSplit(image, c, c1, PushRegisters(c, list));
      var t1 := RunPush(image, c, list[0], m);
      var m1 := Run(image, m, t1);
      var t2 := RunPushes(image, c1, list[1..], m1, sp - 1);
      t := Compose(image, m, t1, t2);
      var n := Run(image, m, t);
      forall i | 0 <= i < |list|
        ensures n.mem[sp - i] == m.regs[list[i]]
      {
        if i > 0 {
          assert list[1..][i - 1] == list[i];
          assert n.mem[sp - 1 - (i - 1)] == m1.regs[list[1..][i - 1]];
        }
      }
    }
  }

  lemma {:induction false} RunPops(image: Image, c: Compiler, k: nat, m: State, sp: int) returns (t: nat)
    requires Emitted(image, c, StackPops(c, k)) && m.pc == |c.code|
    requires m.regs[REG_SP] == Byte(sp)
    ensures var n := Run(image, m, t);
      && n.pc == |StackPops(c, k).code| && n.output == m.output && n.mem == m.mem && SameRegs(m, n)
      && n.regs[REG_SP] == Byte(sp + k)
    decreases k
  {
    hide Step;
    if k == 0 {
      t := 0;
    } else {
      var c1 := StackPop(c);
      StackPopsShape(c1, k - 1);
      EmittedSplit(image, c, c1, StackPops(c, k));
      var t1 := RunPop(image, c, m);
      var m1 := Run(image, m, t1);
      var t2 := RunPops(image, c1, k - 1, m1, sp + 1);
      t := Compose(image, m, t1, t2);
    }
  }

  lemma RestoreCode(image: Image, c: Compiler, r: int)
    requires Emitted(image, c, RestoreRegister(c, r)) && IsGeneral(r)
    ensures Emitted(image, c, StackPop(c))
    ensures |c.code| + 3 <= |image|
    ensures image[|c.code| + 2] == Instr(LDI, r, REG_SP, 0)
  {
    assert Extends(StackPop(c), RestoreRegister(c, r));
  }

  lemma RunRestore(image: Image, c: Compiler, r: int, m: State) returns (t: nat)
    requires Emitted(image, c, RestoreRegister(c, r)) && m.pc == |c.code|
    requires IsGeneral(r)
    ensures Run(image, m, t) ==
      m.(regs := m.regs[REG_TMP := 1][REG_SP := Up(m.regs[REG_SP])][r := m.mem[Up(m.regs[REG_SP])]],
         pc := m.pc + 3)
  {
    RestoreCode(image, c, r);
    var t1 := RunPop(image, c, m);
    var t2 := RunOne(image, Run(image, m, t1));
    t := Compose(image, m, t1, t2);
  }

  ghost predicate Distinct(list: seq<int>) {
    forall i, j | 0 <= i < j < |list| :: list[i] != list[j]
  }

  ghost predicate Generals(list: seq<int>) {
    forall i | 0 <= i < |list| :: IsGeneral(list[i])
  }

  lemma NothingStacked(m: State, list: seq<int>, sp: int)
    requires list == [] && -1 <= sp < 256
    ensures Stacked(m, m, list, sp)
  {
  }

  lemma ReloadedMore(m: State, m1: State, n: State, list: seq<int>, sp: int)
    requires list != [] && Generals(list) && Distinct(list)
    requires -1 <= sp && sp + |list| < 256
    requires var last := list[|list| - 1]; m1.mem == m.mem && m1.regs[last] == m.mem[sp + 1]
    requires var rest := list[..|list| - 1];
      && Stacked(m1, n, rest, sp + |list|)
      && forall q | IsRegister(q) && q != REG_TMP && q != REG_SP && q !in rest :: n.regs[q] == m1.regs[q]
    ensures Stacked(m, n, list, sp + |list|)
  {
    var last := list[|list| - 1];
    var rest := list[..|list| - 1];
    assert last !in rest;
    forall i | 0 <= i < |list|
      ensures m.mem[sp + |list| - i] == n.regs[list[i]]
    {
      if i < |rest| {
        assert rest[i] == list[i];
      }
    }
  }

  // Reloading undoes spilling: what was stacked below `sp + |list|` comes back.
  lemma {:induction false} RunRestores(image: Image, c: Compiler, list: seq<int>, m: State, sp: int) returns (t: nat)
    requires Emitted(image, c, RestoreRegisters(c, list)) && m.pc == |c.code|
    requires Generals(list) && Distinct(list)
    requires -1 <= sp && sp + |list| < 256 && m.regs[REG_SP] == Byte(sp)
    ensures var n := Run(image, m, t);
      && n.pc == |RestoreRegisters(c, list).code| && n.output == m.output && n.mem == m.mem
      && n.regs[REG_SP] == Byte(sp + |list|)
      && Stacked(m, n, list, sp + |list|)
      && forall q | IsRegister(q) && q != REG_TMP && q != REG_SP && q !in list :: n.regs[q] == m.regs[q]
    decreases |list|
  {
    hide Step, Stacked, Emitted;
    if list == [] {
      t := 0;
      NothingStacked(m, list, sp);
    } else {
      var last := list[|list| - 1];
      var rest := list[..|list| - 1];
      var c1 := RestoreRegister(c, last);
      RestoreRegistersShape(c1, rest);
      EmittedSplit(image, c, c1, RestoreRegisters(c, list));
      var t1 := RunRestore(image, c, last, m);
      var m1 := Run(image, m, t1);
      var t2 := RunRestores(image, c1, rest, m1, sp + 1);
      t := Compose(image, m, t1, t2);
      ReloadedMore(m, m1, Run(image, m, t), list, sp);
    }
  }
}
