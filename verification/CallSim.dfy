// The caller's side of a call: spilling the registers in use, pushing the
// arguments, and after the return popping and reloading them.
module CallSim {
  import opened Wrappers
  import opened Machine
  import opened Instructions
  import opened RegisterTable
  import opened Codegen
  import opened Shape
  import opened Execution
  import opened Syntax
  import opened Source
  import opened Relation

  // ---------- which registers are saved ----------

  // Each register in use that is no argument is saved exactly once.
  lemma {:induction false} SavedFacts(t: Table, args: seq<int>, r: int)
    requires 1 <= r <= 12
    ensures var s := Saved(t, args, r);
      && Generals(s) && Distinct(s)
      && forall q :: q in s <==> r <= q <= 11 && t[q].inUse && q !in args
    decreases 12 - r
  {
    if r < 12 {
      SavedFacts(t, args, r + 1);
    }
  }

  lemma {:induction false} DistinctCount(s: seq<int>)
    requires Distinct(s)
    ensures |set x | x in s| == |s|
    decreases |s|
  {
    if s == [] {
      assert (set x | x in s) == {};
    } else {
      var rest := s[1..];
      DistinctCount(rest);
      assert (set x | x in s) == {s[0]} + (set x | x in rest);
      assert s[0] !in rest;
    }
  }

  // The number of saved registers is the number of operands the caller holds.
  lemma SavedCount(t: Table, u: Table, args: seq<int>)
    requires forall q | IsGeneral(q) :: t[q].inUse <==> u[q].inUse && q !in args
    ensures |Saved(u, args, 1)| == |InUse(t)|
  {
    SavedFacts(u, args, 1);
    var s := Saved(u, args, 1);
    DistinctCount(s);
    assert (set x | x in s) == InUse(t);
  }

  // ---------- running into the callee ----------

  // The jump to the callee after `code`: ra gets the address that follows it.
  function CallTail(code: seq<Raw>, entry: int): seq<Raw> {
    code + [Plain(AFC, REG_RA, |code| + 2, 0)] + [Raw(J, Value(0), Ref(entry), Value(0), false, "")]
  }

  lemma TailCode(c: Compiler, entry: int)
    ensures JumpTo(Emit2(c, AFC, REG_RA, |c.code| + 2), entry).code == CallTail(c.code, entry)
  {
  }

  lemma CallSequenceCode(c: Compiler, entry: int)
    ensures var s := PushRegisters(c, Saved(c.regs, Arguments(c), 1));
      CallSequence(c, entry).code == CallTail(PushArguments(s, Arguments(c)).code, entry)
  {
    var s := PushRegisters(c, Saved(c.regs, Arguments(c), 1));
    TailCode(PushArguments(s, Arguments(c)), entry);
  }

  lemma CallSequenceShape(c: Compiler, entry: int)
    ensures var s := PushRegisters(c, Saved(c.regs, Arguments(c), 1));
      var a := PushRegisters(s, Arguments(c));
      && Extends(c, s) && Extends(s, a)
      && CallSequence(c, entry).code == CallTail(a.code, entry)
  {
    hide PushRegisters, PushArguments, Saved, Arguments, CallSequence, CallTail;
    CallSequenceCode(c, entry);
    var saved := Saved(c.regs, Arguments(c), 1);
    var args := Arguments(c);
    var s := PushRegisters(c, saved);
    PushRegistersShape(c, saved);
    PushArgumentsShape(s, args);
    PushRegistersShape(s, args);
  }

  lemma RunCallJump(image: Image, c: Compiler, entry: int, m: State) returns (t: nat)
    requires Loaded(image, CallTail(c.code, entry), |c.code|, |c.code| + 2) && m.pc == |c.code|
    requires 0 <= entry < 256
    ensures t >= 1 && Run(image, m, t) == m.(regs := m.regs[REG_RA := Byte(|c.code| + 2)], pc := entry)
  {
    var c1 := Emit2(c, AFC, REG_RA, |c.code| + 2);
    TailCode(c, entry);
    EmittedSplit(image, c, c1, JumpTo(c1, entry));
    var t1 := RunConstant(image, c, REG_RA, |c.code| + 2, m);
    var m1 := Run(image, m, t1);
    assert image[m1.pc] == Instr(J, entry, 0, 0);
    var t2 := RunOne(image, m1);
    t := Compose(image, m, t1, t2);
  }

  // At the callee's entry: saved registers and arguments are stacked below
  // `top`, ra holds the address of the instruction after the J, and no live
  // cell has changed.
  ghost predicate AtEntry(c: Compiler, entry: int, m: State, n: State, st: Memory, top: int)
    requires Generals(Saved(c.regs, Arguments(c), 1)) && Generals(Arguments(c))
  {
    var saved := Saved(c.regs, Arguments(c), 1);
    && n.pc == entry
    && n.regs[REG_RA] == Byte(|CallSequence(c, entry).code|)
    && n.regs[REG_SP] == Byte(top - |saved| - |Arguments(c)|)
    && n.regs[REG_FP] == m.regs[REG_FP]
    && Stacked(n, m, saved, top)
    && Stacked(n, m, Arguments(c), top - |saved|)
    && Holds(n, st, c.nextGlobal, top)
    && Untouched(m, n, st, top)
  }

  lemma CallEntrySim(image: Image, c: Compiler, entry: int, fp: int, m: State, st: Memory) returns (t: nat)
    requires Generals(Saved(c.regs, Arguments(c), 1)) && Generals(Arguments(c))
    requires Emitted(image, c, CallSequence(c, entry)) && Matches(c, fp, m, st)
    requires 0 <= entry < 256
    requires fp - c.nextLocal - |Saved(c.regs, Arguments(c), 1)| - |Arguments(c)| >= c.nextGlobal - 1
    ensures t >= 1 && AtEntry(c, entry, m, Run(image, m, t), st, fp - c.nextLocal)
  {
    hide Step, PushRegisters, Saved, Arguments, CallSequence;
    var saved := Saved(c.regs, Arguments(c), 1);
    var args := Arguments(c);
    var top := fp - c.nextLocal;
    var s := PushRegisters(c, saved);
    var a := PushRegisters(s, args);
    CallSequenceShape(c, entry);
    CallLoaded(image, c, s, a, entry);
    var t1 := RunPushes(image, c, saved, m, top);
    var m1 := Run(image, m, t1);
    var t2 := RunPushes(image, s, args, m1, top - |saved|);
    var m2 := Run(image, m1, t2);
    var t3 := RunCallJump(image, a, entry, m2);
    t := Compose(image, m, t1, t2);
    t := Compose(image, m, t, t3);
    StackedKept(m, m1, m2, saved, args, top);
  }

  lemma CallLoaded(image: Image, c: Compiler, s: Compiler, a: Compiler, entry: int)
    requires Extends(c, s) && Extends(s, a)
    requires CallSequence(c, entry).code == CallTail(a.code, entry)
    requires Emitted(image, c, CallSequence(c, entry))
    ensures Emitted(image, c, s) && Emitted(image, s, a)
    ensures Loaded(image, CallTail(a.code, entry), |a.code|, |a.code| + 2)
    ensures |CallSequence(c, entry).code| == |a.code| + 2
  {
    hide CallSequence;
  }

  // The second run of pushes writes below the first and reads the same registers.
  lemma StackedKept(m: State, m1: State, m2: State, saved: seq<int>, args: seq<int>, top: int)
    requires Spillable(saved) && Spillable(args)
    requires Stacked(m1, m, saved, top) && Stacked(m2, m1, args, top - |saved|) && SameRegs(m, m1)
    requires forall a | 0 <= a < 256 && !(top - |saved| - |args| < a <= top - |saved|) :: m2.mem[a] == m1.mem[a]
    ensures Stacked(m2, m, saved, top) && Stacked(m2, m, args, top - |saved|)
  {
  }

  // ---------- back from the callee ----------

  lemma CallReturnSim(image: Image, c: Compiler, entry: int, fp: int, m: State, n: State, st: Memory) returns (t: nat)
    requires Generals(Saved(c.regs, Arguments(c), 1)) && Distinct(Saved(c.regs, Arguments(c), 1))
    requires Emitted(image, CallSequence(c, entry), CallCode(c, entry))
    requires var saved := Saved(c.regs, Arguments(c), 1);
      var top := fp - c.nextLocal;
      && top < 256 && -1 <= top - |saved| - |Arguments(c)|
      && n.pc == |CallSequence(c, entry).code|
      && n.regs[REG_SP] == Byte(top - |saved| - |Arguments(c)|)
      && Stacked(n, m, saved, top)
    ensures var f := Run(image, n, t);
      && f.pc == |CallCode(c, entry).code| && f.mem == n.mem && f.output == n.output
      && f.regs[REG_SP] == Byte(fp - c.nextLocal) && f.regs[REG_FP] == n.regs[REG_FP]
      && f.regs[REG_RETURN] == n.regs[REG_RETURN]
      && forall q | q in Saved(c.regs, Arguments(c), 1) :: f.regs[q] == m.regs[q]
  {
    hide Step, Saved, Arguments, CallSequence, CallCode, StackPops, RestoreRegisters, Stacked, Generals, Distinct,
      Emitted;
    var saved := Saved(c.regs, Arguments(c), 1);
    var args := Arguments(c);
    var sp := fp - c.nextLocal - |saved| - |args|;
    var s := CallSequence(c, entry);
    var p := StackPops(s, |args|);
    ReturnCode(image, c, entry);
    var t1 := RunPops(image, s, |args|, n, sp);
    var n1 := Run(image, n, t1);
    var t2 := RunRestores(image, p, saved, n1, sp + |args|);
    t := Compose(image, n, t1, t2);
    StackedBack(m, n, n1, Run(image, n, t), saved, fp - c.nextLocal);
    SpecialsApart(saved);
  }

  // The return register and fp are not among the saved ones.
  lemma SpecialsApart(saved: seq<int>)
    requires Generals(saved)
    ensures REG_RETURN !in saved && REG_FP !in saved
  {
  }

  lemma ReturnCode(image: Image, c: Compiler, entry: int)
    requires Emitted(image, CallSequence(c, entry), CallCode(c, entry))
    ensures var saved := Saved(c.regs, Arguments(c), 1);
      var s := CallSequence(c, entry);
      var p := StackPops(s, |Arguments(c)|);
      && CallCode(c, entry) == RestoreRegisters(p, saved)
      && Emitted(image, s, p) && Emitted(image, p, RestoreRegisters(p, saved))
  {
    hide Saved, CallSequence, StackPops, RestoreRegisters;
    var saved := Saved(c.regs, Arguments(c), 1);
    var s := CallSequence(c, entry);
    var p := StackPops(s, |Arguments(c)|);
    StackPopsShape(s, |Arguments(c)|);
    RestoreRegistersShape(p, saved);
    EmittedSplit(image, s, p, CallCode(c, entry));
  }

  // What was stacked from m's registers and reloaded into f's is the same.
  lemma StackedBack(m: State, n: State, n1: State, f: State, saved: seq<int>, top: int)
    requires Generals(saved) && top < 256 && -1 <= top - |saved|
    requires Stacked(n, m, saved, top) && Stacked(n1, f, saved, top) && n1.mem == n.mem
    ensures forall q | q in saved :: f.regs[q] == m.regs[q]
  {
    forall q | q in saved
      ensures f.regs[q] == m.regs[q]
    {
      var i :| 0 <= i < |saved| && saved[i] == q;
      assert n1.mem[top - i] == f.regs[saved[i]];
    }
  }

  // ---------- a whole call ----------

  // Argument values are in their registers; the registers in use before keep theirs.
  ghost predicate Gathered(c: Compiler, d: Compiler, rs: seq<int>, fp: int, m: State, n: State,
                           st: Memory, st1: Memory, vs: seq<byte>) {
    && Matches(d, fp, n, st1)
    && |rs| == |vs| && (forall i | 0 <= i < |rs| :: IsGeneral(rs[i]) && n.regs[rs[i]] == vs[i])
    && (forall q | IsGeneral(q) && c.regs[q].inUse :: n.regs[q] == m.regs[q])
    && Untouched(m, n, st, fp - c.nextLocal)
  }

  // A call is about to enter function j: arguments are stacked from cell sp down.
  ghost predicate CallReady(p: Program, m: State, vs: seq<byte>, sp: int, st: Memory) {
    && FrameFits(p, sp, |vs|) && sp < 256
    && m.regs[REG_SP] == Byte(sp - |vs|)
    && (forall q | 0 <= q < |vs| :: m.mem[sp - q] == vs[q])
    && Holds(m, st, GlobalCount(p), sp)
  }

  // The call is over: back at the return address with sp and fp as they were
  // and the result in the return register.
  ghost predicate CallDone(p: Program, m: State, n: State, sp: int, st: Memory, st1: Memory, v: byte) {
    && n.pc == m.regs[REG_RA] && n.regs[REG_SP] == m.regs[REG_SP] && n.regs[REG_FP] == m.regs[REG_FP]
    && n.regs[REG_RETURN] == v
    && Holds(n, st1, GlobalCount(p), sp)
    && Untouched(m, n, st, sp)
  }

  // What the compiler knows when it has collected the arguments rs of a call
  // begun at c: exactly the registers in use at c will be saved.
  ghost predicate Prepared(c: Compiler, c2: Compiler, rs: seq<int>) {
    var saved := Saved(c2.regs, rs, 1);
    && Arguments(c2) == rs && Generals(rs)
    && c2.nextLocal == c.nextLocal && c2.nextGlobal == c.nextGlobal
    && |saved| == |InUse(c.regs)| && Generals(saved) && Distinct(saved)
    && forall q :: q in saved <==> IsGeneral(q) && c.regs[q].inUse
  }

  lemma PreparedFacts(c: Compiler, c2: Compiler, rs: seq<int>)
    requires Collects(c.(pending := c.pending + [[]]), c2, rs)
    ensures Prepared(c, c2, rs)
  {
    var c1 := c.(pending := c.pending + [[]]);
    assert Arguments(c1) + rs == rs;
    forall q | IsGeneral(q)
      ensures c.regs[q].inUse <==> c2.regs[q].inUse && q !in rs
    {
      if q in rs {
        var i :| 0 <= i < |rs| && rs[i] == q;
      }
    }
    SavedCount(c.regs, c2.regs, rs);
    SavedFacts(c2.regs, rs, 1);
  }

  lemma EnterCall(p: Program, image: Image, c: Compiler, c2: Compiler, rs: seq<int>, vs: seq<byte>, entry: int, fp: int,
                  m: State, m1: State, st: Memory, st1: Memory) returns (t: nat)
    requires Prepared(c, c2, rs)
    requires Gathered(c, c2, rs, fp, m, m1, st, st1, vs)
    requires c.nextGlobal == GlobalCount(p) && FrameFits(p, fp - c.nextLocal - |InUse(c.regs)|, |vs|)
    requires Emitted(image, c2, CallSequence(c2, entry)) && 0 <= entry < 256
    ensures t >= 1 && AtEntry(c2, entry, m1, Run(image, m1, t), st1, fp - c.nextLocal)
    ensures Run(image, m1, t).pc == entry
    ensures CallReady(p, Run(image, m1, t), vs, fp - c.nextLocal - |InUse(c.regs)|, st1)
  {
    hide Step, Saved, CallSequence, Emitted, Arguments, InUse, GlobalCount;
    t := CallEntrySim(image, c2, entry, fp, m1, st1);
  }

  lemma LeaveCall(p: Program, image: Image, c: Compiler, c2: Compiler, rs: seq<int>, vs: seq<byte>, entry: int, fp: int,
                  m: State, m1: State, n: State, n2: State, st: Memory, st1: Memory, st2: Memory, v: byte)
    returns (t: nat)
    requires Prepared(c, c2, rs)
    requires Gathered(c, c2, rs, fp, m, m1, st, st1, vs)
    requires c.nextGlobal == GlobalCount(p) && FrameFits(p, fp - c.nextLocal - |InUse(c.regs)|, |vs|)
    requires AtEntry(c2, entry, m1, n, st1, fp - c.nextLocal)
    requires CallDone(p, n, n2, fp - c.nextLocal - |InUse(c.regs)|, st1, st2, v)
    requires |CallSequence(c2, entry).code| < 256
    requires Emitted(image, CallSequence(c2, entry), CallCode(c2, entry))
    ensures var f := Run(image, n2, t);
      && f.pc == |CallCode(c2, entry).code| && f.mem == n2.mem && f.output == n2.output
      && f.regs[REG_SP] == Byte(fp - c.nextLocal) && f.regs[REG_FP] == Byte(fp) && f.regs[REG_RETURN] == v
      && forall q | IsGeneral(q) && c.regs[q].inUse :: f.regs[q] == m.regs[q]
  {
    hide Step, Saved, CallSequence, CallCode, Emitted, Arguments, InUse, GlobalCount;
    assert Stacked(n2, m1, Saved(c2.regs, rs, 1), fp - c.nextLocal);
    t := CallReturnSim(image, c2, entry, fp, m1, n2, st2);
  }

  // The result register of a call: no pending operand occupies it, and no
  // other free register is bound to anything any more.
  lemma ResultShape(c: Compiler, c2: Compiler, rs: seq<int>, name: string)
    requires Prepared(c, c2, rs) && FunctionCall(c2, name).Success?
    ensures var (d, r) := FunctionCall(c2, name).value;
      var c3 := CallCode(c2, Codegen.FindFunction(c2.functions, name).value.address);
      && IsGeneral(r) && !c.regs[r].inUse
      && d.code == Emit2(c3, COP, r, REG_RETURN).code
      && d.nextLocal == c.nextLocal && d.nextGlobal == c.nextGlobal
      && d.regs[r].temporary
      && forall q | IsGeneral(q) && q != r && !d.regs[q].inUse :: d.regs[q] == EMPTY
  {
    var e := Codegen.FindFunction(c2.functions, name).value.address;
    CallCodeShape(c2, e);
    SavedFacts(c2.regs, rs, 1);
    hide CallCode, Saved, Arguments, InUse;
    var c3 := CallCode(c2, e);
    var c4 := c3.(regs := ForgetAvailable(c3.regs), pending := c2.pending[..|c2.pending| - 1]);
    var (c5, r) := AllocRegister(c4).value;
    assert FunctionCall(c2, name).value == (Temporary(Emit2(c5, COP, r, REG_RETURN), r), r);
  }

  lemma ResultSim(image: Image, c: Compiler, c3: Compiler, d: Compiler, r: int, fp: int,
                  m: State, f: State, st: Memory, st2: Memory, v: byte) returns (t: nat)
    requires IsGeneral(r) && !c.regs[r].inUse
    requires d.code == Emit2(c3, COP, r, REG_RETURN).code && d.nextLocal == c.nextLocal && d.nextGlobal == c.nextGlobal
    requires d.regs[r].temporary && forall q | IsGeneral(q) && q != r && !d.regs[q].inUse :: d.regs[q] == EMPTY
    requires f.pc == |c3.code| && Emitted(image, c3, d)
    requires forall q | IsGeneral(q) && c.regs[q].inUse :: f.regs[q] == m.regs[q]
    requires f.regs[REG_RETURN] == v
    requires f.regs[REG_SP] == Byte(fp - c.nextLocal) && f.regs[REG_FP] == Byte(fp) && -1 <= fp < 256
    requires Holds(f, st2, c.nextGlobal, fp - c.nextLocal) && Untouched(m, f, st, fp - c.nextLocal)
    ensures Computed(c, d, r, fp, m, Run(image, f, t), st, st2, v)
  {
    hide Step;
    assert Emitted(image, c3, Emit2(c3, COP, r, REG_RETURN));
    t := RunCopy(image, c3, r, REG_RETURN, f);
  }

  lemma CallEmitted(image: Image, c2: Compiler, name: string)
    requires FunctionCall(c2, name).Success? && Emitted(image, c2, FunctionCall(c2, name).value.0)
    ensures var e := Codegen.FindFunction(c2.functions, name).value.address;
      && Emitted(image, c2, CallSequence(c2, e))
      && Emitted(image, CallSequence(c2, e), CallCode(c2, e))
      && Emitted(image, CallCode(c2, e), FunctionCall(c2, name).value.0)
      && |CallSequence(c2, e).code| <= |image|
  {
    var e := Codegen.FindFunction(c2.functions, name).value.address;
    var d := FunctionCall(c2, name).value.0;
    CallExtends(c2, e);
    assert Extends(CallCode(c2, e), d);
    hide CallSequence, CallCode, FunctionCall;
    assert Extends(CallSequence(c2, e), d);
    EmittedSplit(image, c2, CallSequence(c2, e), d);
    EmittedSplit(image, CallSequence(c2, e), CallCode(c2, e), d);
  }

  lemma CallExtends(c2: Compiler, e: int)
    ensures Extends(c2, CallSequence(c2, e)) && Extends(CallSequence(c2, e), CallCode(c2, e))
  {
    CallSequenceShape(c2, e);
    var s := CallSequence(c2, e);
    var saved := Saved(c2.regs, Arguments(c2), 1);
    StackPopsShape(s, |Arguments(c2)|);
    RestoreRegistersShape(StackPops(s, |Arguments(c2)|), saved);
    hide PushRegisters, PushArguments, Saved, CallSequence, StackPops, RestoreRegisters;
  }

  lemma UntouchedThrough(m: State, m1: State, n: State, n2: State, f: State, st: Memory, st1: Memory, top: int, sp: int)
    requires Untouched(m, m1, st, top) && Untouched(m1, n, st1, top) && Untouched(n, n2, st1, sp)
    requires f.mem == n2.mem && sp <= top && st1.cells.Keys == st.cells.Keys
    ensures Untouched(m, f, st, top)
  {
  }

  // From the return to the result register.
  lemma FinishCall(p: Program, image: Image, c: Compiler, c2: Compiler, rs: seq<int>, vs: seq<byte>, name: string,
                   fp: int,
                   m: State, m1: State, n: State, n2: State, st: Memory, st1: Memory, st2: Memory, v: byte)
    returns (t: nat)
    requires Prepared(c, c2, rs) && Codegen.FindFunction(c2.functions, name).Some? && FunctionCall(c2, name).Success?
    requires Emitted(image, c2, FunctionCall(c2, name).value.0) && |image| < 256
    requires Gathered(c, c2, rs, fp, m, m1, st, st1, vs) && st1.cells.Keys == st.cells.Keys
    requires c.nextGlobal == GlobalCount(p) && FrameFits(p, fp - c.nextLocal - |InUse(c.regs)|, |vs|)
    requires AtEntry(c2, Codegen.FindFunction(c2.functions, name).value.address, m1, n, st1, fp - c.nextLocal)
    requires CallDone(p, n, n2, fp - c.nextLocal - |InUse(c.regs)|, st1, st2, v)
    requires st2.cells.Keys == st.cells.Keys
    ensures var (d, r) := FunctionCall(c2, name).value; Computed(c, d, r, fp, m, Run(image, n2, t), st, st2, v)
  {
    hide Step, Emitted, FunctionCall, CallSequence, CallCode, FrameFits, Saved, Arguments, GlobalCount,
      Codegen.FindFunction, InUse;
    var entry := Codegen.FindFunction(c2.functions, name).value.address;
    CallEmitted(image, c2, name);
    var t1 := LeaveCall(p, image, c, c2, rs, vs, entry, fp, m, m1, n, n2, st, st1, st2, v);
    var f := Run(image, n2, t1);
    UntouchedThrough(m, m1, n, n2, f, st, st1, fp - c.nextLocal, fp - c.nextLocal - |InUse(c.regs)|);
    ResultShape(c, c2, rs, name);
    var (d, r) := FunctionCall(c2, name).value;
    HoldsAbove(m1, f, n2, st1, st2, c.nextGlobal, fp - c.nextLocal, fp - c.nextLocal - |InUse(c.regs)|);
    var t2 := ResultSim(image, c, CallCode(c2, entry), d, r, fp, m, f, st, st2, v);
    t := Compose(image, n2, t1, t2);
  }

  // The live cells are where they were before the call, above its frame.
  lemma HoldsAbove(m: State, f: State, n: State, st: Memory, st2: Memory, globals: int, top: int, sp: int)
    requires Holds(m, st, globals, top) && Holds(n, st2, globals, sp)
    requires st2.cells.Keys == st.cells.Keys && f.mem == n.mem && f.output == n.output
    ensures Holds(f, st2, globals, top)
  {
    forall a | a in st2.cells
      ensures a < globals || top < a
    {
      assert a in st.cells;
    }
  }
}
