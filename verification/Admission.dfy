// Programs whose text alone shows that the main theorem applies to them.
module Admission {
  import opened Wrappers
  import opened Machine
  import opened Instructions
  import opened RegisterTable
  import opened Symbols
  import opened Syntax
  import opened Codegen
  import opened Shape
  import opened Source
  import opened StatementSim
  import opened Linking
  import opened Naming
  import opened Compilability
  import opened Sizes
  import opened Correctness
  import opened Execution
  import Jumps

  // ---------- loops that have something before them ----------

  // The code of the expression is never empty.
  predicate Works(e: Expr) {
    !e.Var? && !e.AddressOf?
  }

  // The statement certainly adds an instruction to the scope it stands in.
  predicate Emits(s: Stmt) {
    match s
    case Block(_) => false
    case Declare(Let(_, _)) => true
    case Declare(LetZero(names)) => names != []
    case Assign(_, value) => Works(value)
    case Discard(value) => Works(value)
    case _ => true
  }

  // Every loop comes after a statement of its block that adds an instruction,
  // and what comes before an "else if" always returns. `started` says whether
  // there was such a statement already.
  predicate Placed(ss: Stmts, started: bool)
    decreases ss
  {
    match ss
    case Nil => true
    case Cons(head, tail) => PlacedStmt(head, started) && Placed(tail, started || Emits(head))
  }

  predicate PlacedStmt(s: Stmt, started: bool)
    decreases s
  {
    match s
    case Block(body) => Placed(body, false)
    case If(branch) => PlacedIf(branch)
    case While(_, body) => started && Placed(body, false)
    case _ => true
  }

  predicate PlacedIf(i: IfStmt)
    decreases i
  {
    && Placed(i.thn, false)
    && match i
       case IfThen(_, _) => true
       case IfElse(_, _, els) => Placed(els, false)
       case IfElseIf(_, thn, rest) => AlwaysReturns(thn) && PlacedIf(rest)
  }

  lemma {:induction false} WorksEmits(e: Expr, c: Compiler)
    requires Works(e) && Expression(e, c).Success?
    ensures |Expression(e, c).value.0.code| > |c.code|
  {
    match e
    case Binary(_, left, right) =>
      ExpressionShape(left, c);
      ExpressionShape(right, Expression(left, c).value.0);
    case Not(operand) => ExpressionShape(operand, c);
    case Deref(operand) => ExpressionShape(operand, c);
    case Call(_, _) => Jumps.CallEmits(e, c);
    case Num(_) =>
  }

  lemma {:induction false} StatementEmits(s: Stmt, c: Compiler)
    requires Emits(s) && c.inside && Idle(c.regs) && Statement(s, c).Success?
    ensures |Statement(s, c).value.code| > |c.code|
  {
    hide Expression, Conditional, IfStatement, VariableDeclaration, VariableAssignment, LetZeros, ReturnStatement;
    match s
    case Declare(Let(name, init)) =>
      ExpressionShape(init, c);
      DeclareLength(Expression(init, c).value.0, name, Expression(init, c).value.1);
    case Declare(LetZero(names)) => ZerosSize(names, c);
    case Assign(name, value) =>
      WorksEmits(value, c);
      AssignmentExtends(Expression(value, c).value.0, name, Expression(value, c).value.1);
    case Discard(value) => WorksEmits(value, c);
    case Store(target, value) =>
      ExpressionShape(target, c);
      ExpressionShape(value, Expression(target, c).value.0);
    case Return(value) =>
      ExpressionShape(value, c);
      ReturnLength(Expression(value, c).value.0, Expression(value, c).value.1);
    case Print(value) => ExpressionShape(value, c);
    case If(branch) => IfEmits(branch, c);
    case While(cond, body) =>
      InitialUnbound();
      ConditionalShape(cond, body, Reset(c), 2);
  }

  lemma AssignmentExtends(c: Compiler, name: string, r: int)
    ensures |VariableAssignment(c, name, r).code| >= |c.code|
  {
    hide Free, ForgetMemory, BindMemory;
  }

  lemma IfEmits(i: IfStmt, c: Compiler)
    requires c.inside && Idle(c.regs) && IfStatement(i, c).Success?
    ensures |IfStatement(i, c).value.0.code| > |c.code|
  {
    hide Expression, Conditional, BlockOf;
    var extra := if i.IfThen? then 1 else 2;
    var at := Jumps.ConditionalTarget(i.cond, i.thn, c, extra);
    ConditionalShape(i.cond, i.thn, c, extra);
    InitialUnbound();
    var c1 := Conditional(i.cond, i.thn, c, extra).value.0;
    match i
    case IfThen(_, _) =>
    case IfElse(_, _, els) => AlternativeShape(els, c1);
    case IfElseIf(_, _, rest) => AlternativeIfShape(rest, c1);
  }

  lemma {:induction false} PlacedIsSound(ss: Stmts, started: bool, c: Compiler)
    requires Placed(ss, started) && ScopeCount(c) >= (if started then 1 else 0) && c.inside && Idle(c.regs)
    ensures SoundBody(ss, c)
    decreases ss, 0
  {
    hide Statement, Emits;
    match ss
    case Nil =>
    case Cons(head, tail) =>
      PlacedStmtIsSound(head, started, c);
      if Statement(head, c).Success? {
        StatementShape(head, c);
        if Emits(head) {
          StatementEmits(head, c);
        }
        PlacedIsSound(tail, started || Emits(head), Statement(head, c).value);
      }
  }

  lemma {:induction false} PlacedStmtIsSound(s: Stmt, started: bool, c: Compiler)
    requires PlacedStmt(s, started) && (started ==> ScopeCount(c) > 0) && c.inside && Idle(c.regs)
    ensures SoundJumps(s, c)
    decreases s
  {
    hide Expression, Conditional, SoundBody;
    InitialUnbound();
    match s
    case Block(body) => PlacedIsSound(body, false, BeginBlock(c));
    case While(cond, body) => PlacedGuardIsSound(cond, body, Reset(c));
    case If(branch) => PlacedIfIsSound(branch, c);
    case _ =>
  }

  lemma {:induction false} PlacedIfIsSound(i: IfStmt, c: Compiler)
    requires PlacedIf(i) && c.inside && Idle(c.regs)
    ensures SoundIf(i, c)
    decreases i
  {
    hide Expression, Conditional, SoundBody, SoundGuarded, AlwaysReturns, Codeless;
    PlacedGuardIsSound(i.cond, i.thn, c);
    InitialUnbound();
    if !i.IfThen? && Conditional(i.cond, i.thn, c, 2).Success? {
      ConditionalShape(i.cond, i.thn, c, 2);
      var cu := UnconditionalJump(Conditional(i.cond, i.thn, c, 2).value.0);
      match i
      case IfElse(_, _, els) => PlacedIsSound(els, false, BeginBlock(cu));
      case IfElseIf(_, _, rest) => PlacedIfIsSound(rest, cu);
    }
  }

  lemma {:induction false} PlacedGuardIsSound(cond: Expr, body: Stmts, c: Compiler)
    requires Placed(body, false) && c.inside && Idle(c.regs)
    ensures SoundGuarded(cond, body, c)
    decreases body, 1
  {
    hide Expression, SoundBody;
    InitialUnbound();
    if Expression(cond, c).Success? {
      ExpressionShape(cond, c);
      var (c1, r) := Expression(cond, c).value;
      PlacedIsSound(body, false, BeginBlock(ConditionalJump(c1, r)));
    }
  }

  predicate PlacedProgram(p: Program) {
    Placed(p.main, false) && forall j | 0 <= j < |p.functions| :: Placed(p.functions[j].body, false)
  }

  lemma PlacedProgramIsSound(p: Program, caching: bool)
    requires PlacedProgram(p)
    ensures SoundProgram(p, caching)
  {
    hide SoundBody, Globals, Functions, BlockOf, BeginMain, BodyStart, BeginFunction;
    InitialUnbound();
    if Compiled(p, caching).Success? {
      var parts := Compiled(p, caching).value;
      MainIsInside(parts.last, |parts.globals.code|);
      PlacedIsSound(p.main, false, BeginBlock(parts.main));
      forall j | 0 <= j < |p.functions|
        ensures SoundFunction(p, parts.first, j)
      {
        if BodyStart(p, parts.first, j).Success? {
          BodyIsInside(p, parts.first, j);
          PlacedIsSound(p.functions[j].body, false, BeginBlock(BodyStart(p, parts.first, j).value));
        }
      }
    }
  }

  lemma MainIsInside(c: Compiler, start: nat)
    ensures BeginMain(c, start).inside && BeginMain(c, start).regs == INITIAL
  {
  }

  lemma BodyIsInside(p: Program, c0: Compiler, j: nat)
    requires j < |p.functions| && BodyStart(p, c0, j).Success?
    ensures BodyStart(p, c0, j).value.inside && BodyStart(p, c0, j).value.regs == INITIAL
  {
    hide BeginFunction, Stage;
    BeginFunctionShape(Stage(p, c0, j).value, p.functions[j].name, p.functions[j].parameters);
  }

  // ---------- admissible programs ----------

  // Everything the main theorem asks of a program, told from its text.
  predicate Admissible(p: Program) {
    ProgramFits(p) && PlacedProgram(p) && NoCapture(p) && ProgramSize(p) <= 255
  }

  lemma AdmissibleCompiles(p: Program, caching: bool)
    requires Admissible(p)
    ensures Compilable(p, caching)
  {
    hide ProgramFits, PlacedProgram, NoCapture, ProgramSize, CompileProgram, SoundProgram;
    ProgramDemand(p, caching);
    ProgramLength(p, caching);
    PlacedProgramIsSound(p, caching);
  }

  // The main theorem for programs that are admissible as they are written.
  lemma AdmissiblePreserved(p: Program, caching: bool, output: seq<byte>)
    requires Admissible(p) && NeverFaults(p)
    ensures Compilable(p, caching) && (Prints(p, output) <==> Outputs(Output(p, caching), output))
  {
    hide Admissible, Prints, Outputs, NeverFaults, Compilable;
    AdmissibleCompiles(p, caching);
    TerminationAgrees(p, caching, output);
  }

  // ---------- a recursive program ----------

  // function sum(n) { if (n) { return sum(n - 1) + n; } return 0; }
  function SumFunction(): Function {
    Function("sum", ["n"], Stmts.Cons(If(IfThen(Var("n"), Stmts.Cons(Return(SumStep()), Nil))),
      Stmts.Cons(Return(Num(0)), Nil)))
  }

  function SumStep(): Expr {
    Binary(Plus, Call("sum", Arg(Binary(Minus, Var("n"), Num(1)), NoArgs)), Var("n"))
  }

  // main { print(sum(20)); }
  function SumProgram(): Program {
    Program([], [SumFunction()], Stmts.Cons(Print(Call("sum", Arg(Num(20), NoArgs))), Nil))
  }

  lemma SumIsAdmissible()
    ensures Admissible(SumProgram())
  {
    SumFits();
    SumIsShort();
    hide ProgramFits, ProgramSize;
    assert NoCapture(SumProgram()) by {
      assert GlobalNames(SumProgram().globals) == [];
    }
  }

  lemma SumFits()
    ensures ProgramFits(SumProgram())
  {
    var f := SumFunction();
    assert Heads([f][..0]) == [];
    var fs := [Entry("sum", 0, 1)];
    assert Heads([f]) == fs;
    assert Codegen.FindFunction(fs, "sum") == Some(fs[0]);
    assert ExprFits(SumStep(), 0, fs);
    assert [] + fs == fs;
    assert BodyFits(f.body, fs);
    assert FunctionFits(f, Heads([f][..0]));
    assert ExprFits(Call("sum", Arg(Num(20), NoArgs)), 0, fs);
  }

  lemma SumIsShort()
    ensures ProgramSize(SumProgram()) <= 255
  {
    var f := SumFunction();
    assert ExprSize(SumStep()) == 83;
    assert BlockSize(Stmts.Cons(Return(SumStep()), Nil)) == 92;
    assert BlockSize(f.body) == 106;
    assert FunctionsSize([f][..0]) == 0;
    assert FunctionsSize([f]) == FunctionSize(f);
  }

  function Triangle(k: nat): byte {
    if k == 0 then 0 else Byte(Triangle(k - 1) + k)
  }

  // Below `sp` the store has no cell.
  ghost predicate FreeBelow(st: Memory, sp: int) {
    forall a | a in st.cells :: sp < a
  }

  // sum(k) returns the k-th triangular number modulo 256 and changes nothing.
  lemma {:induction false} SumRuns(k: byte, sp: int, st: Memory, fuel: nat)
    requires fuel >= k && sp >= 4 * k + 3 && FreeBelow(st, sp)
    ensures Activate(SumProgram(), 0, [k], sp, st, fuel) == Done(Triangle(k), st)
    decreases k
  {
    var p := SumProgram();
    var fp := sp - 3;
    var x := Setting(p, 1, fp, false);
    var entered := st.(cells := st.cells[fp := k]);
    var env := BindParameters(EntryEnv(p, 0), ["n"]);
    NameBound();
    ParameterCell(fp, k, st);
    if k > 0 {
      SumRuns(k - 1, sp - 4, entered, fuel - 1);
    }
    BodyRuns(x, env, k, entered, fuel);
    Restored(st, fp, k);
  }

  lemma NameBound()
    ensures BindParameters(EntryEnv(SumProgram(), 0), ["n"]) == map["n" := Known(Local(0))]
  {
    assert GlobalNames([]) == [];
    assert BindParameters(EntryEnv(SumProgram(), 0), ["n"][..0]) == map[];
  }

  lemma ParameterCell(fp: int, k: byte, st: Memory)
    ensures st.cells + ParameterCells(fp, [k]) == st.cells[fp := k]
  {
    assert [k][..0] == [];
    assert ParameterCells(fp, [k]) == map[fp := k];
  }

  lemma Restored(st: Memory, fp: int, k: byte)
    requires fp !in st.cells
    ensures Restrict(st.(cells := st.cells[fp := k]), st.cells.Keys) == st
  {
  }

  // The body for n == k, given what the recursive call returns.
  lemma BodyRuns(x: Setting, env: Env, k: byte, st: Memory, fuel: nat)
    requires x.p == SumProgram() && x.visible == 1 && !x.inMain && env == map["n" := Known(Local(0))]
    requires x.fp in st.cells && st.cells[x.fp] == k && x.fp >= 4 * k && fuel >= k
    requires k > 0 ==> Activate(x.p, 0, [k - 1], x.fp - 1, st, fuel - 1) == Done(Triangle(k - 1), st)
    ensures ExecBlock(x, SumFunction().body, env, 1, st, fuel) == Done(Back(Triangle(k)), st)
  {
    hide Activate;
    var thn := Stmts.Cons(Return(SumStep()), Nil);
    Unrestricted(st);
    assert Eval(x, Var("n"), env, x.fp - 1, st, fuel) == Done(k, st);
    if k > 0 {
      StepRuns(x, env, k, st, fuel);
      assert Exec(x, Return(SumStep()), env, 1, st, fuel) == Done(Back(Triangle(k)), st);
      assert ExecAll(x, thn, env, 1, st, fuel) == Done(Back(Triangle(k)), st);
      assert ExecBlock(x, thn, env, 1, st, fuel) == Done(Back(Triangle(k)), st);
    } else {
      assert Exec(x, Return(Num(0)), env, 1, st, fuel) == Done(Back(0), st);
      assert ExecAll(x, Stmts.Cons(Return(Num(0)), Nil), env, 1, st, fuel) == Done(Back(0), st);
    }
    hide Exec, Eval, ExecBlock;
    BodyFollows(x, env, k, st, fuel);
  }

  lemma Unrestricted(st: Memory)
    ensures Restrict(st, st.cells.Keys) == st
  {
    assert (map a | a in st.cells && a in st.cells.Keys :: st.cells[a]) == st.cells;
  }

  lemma StepRuns(x: Setting, env: Env, k: byte, st: Memory, fuel: nat)
    requires x.p == SumProgram() && x.visible == 1 && env == map["n" := Known(Local(0))]
    requires x.fp in st.cells && st.cells[x.fp] == k && x.fp >= 4 * k && fuel >= k > 0
    requires Activate(x.p, 0, [k - 1], x.fp - 1, st, fuel - 1) == Done(Triangle(k - 1), st)
    ensures Eval(x, SumStep(), env, x.fp - 1, st, fuel) == Done(Triangle(k), st)
  {
    hide Activate, SumProgram, Triangle;
    SumIsFound();
    CallRuns(x, env, k, st, fuel);
    NextTriangle(k);
    PlusRuns(x, env, k, st, fuel, Triangle(k - 1));
  }

  lemma NextTriangle(k: nat)
    requires k > 0
    ensures Triangle(k) == Byte(Triangle(k - 1) + k)
  {
  }

  lemma PlusRuns(x: Setting, env: Env, k: byte, st: Memory, fuel: nat, v: byte)
    requires x.visible <= |x.p.functions| && env == map["n" := Known(Local(0))]
    requires x.fp in st.cells && st.cells[x.fp] == k
    requires Eval(x, SumStep().left, env, x.fp - 1, st, fuel) == Done(v, st)
    ensures Eval(x, SumStep(), env, x.fp - 1, st, fuel) == Done(Byte(v + k), st)
  {
    hide Activate, EvalArgs;
    assert Eval(x, Var("n"), env, x.fp - 2, st, fuel) == Done(k, st);
  }

  lemma CallRuns(x: Setting, env: Env, k: byte, st: Memory, fuel: nat)
    requires x.p == SumProgram() && x.visible == 1 && env == map["n" := Known(Local(0))]
    requires x.fp in st.cells && st.cells[x.fp] == k && x.fp >= 4 * k && fuel >= k > 0
    requires Activate(x.p, 0, [k - 1], x.fp - 1, st, fuel - 1) == Done(Triangle(k - 1), st)
    ensures Eval(x, SumStep().left, env, x.fp - 1, st, fuel) == Done(Triangle(k - 1), st)
  {
    hide Activate, GlobalCount, SumProgram, EvalArgs, Triangle;
    SumIsFound();
    ArgumentRuns(x, env, k, st, fuel);
  }

  lemma SumIsFound()
    ensures var p := SumProgram();
      && GlobalCount(p) == 0 && |p.functions| == 1 && |p.functions[0].parameters| == 1
      && Source.FindFunction(p.functions, 1, "sum") == Some(0)
  {
    assert GlobalNames([]) == [];
  }

  lemma ArgumentRuns(x: Setting, env: Env, k: byte, st: Memory, fuel: nat)
    requires x.visible <= |x.p.functions| && env == map["n" := Known(Local(0))]
    requires x.fp in st.cells && st.cells[x.fp] == k && k > 0
    ensures EvalArgs(x, SumStep().left.args, env, x.fp - 1, st, fuel) == Done([k - 1], st)
  {
    var sp := x.fp - 1;
    var vs: seq<byte> := [k - 1];
    assert vs + [] == vs;
    assert Eval(x, Var("n"), env, sp, st, fuel) == Done(k, st);
    assert Eval(x, Num(1), env, sp - 1, st, fuel) == Done(1, st);
    assert Eval(x, SumStep().left.args.first, env, sp, st, fuel) == Done(k - 1, st);
    assert EvalArgs(x, NoArgs, env, sp - 1, st, fuel) == Done([], st);
  }

  lemma BodyFollows(x: Setting, env: Env, k: byte, st: Memory, fuel: nat)
    requires x.visible <= |x.p.functions| && Restrict(st, st.cells.Keys) == st
    requires Eval(x, Var("n"), env, x.fp - 1, st, fuel) == Done(k, st)
    requires k > 0 ==> ExecBlock(x, Stmts.Cons(Return(SumStep()), Nil), env, 1, st, fuel) == Done(Back(Triangle(k)), st)
    requires k == 0 ==> ExecAll(x, Stmts.Cons(Return(Num(0)), Nil), env, 1, st, fuel) == Done(Back(0), st)
    ensures ExecBlock(x, SumFunction().body, env, 1, st, fuel) == Done(Back(Triangle(k)), st)
  {
    hide Eval, SumStep;
    var body := SumFunction().body;
    if k > 0 {
      assert Exec(x, body.head, env, 1, st, fuel) == Done(Back(Triangle(k)), st);
    } else {
      assert Exec(x, body.head, env, 1, st, fuel) == Done(Next(env, 1), st);
    }
    assert ExecAll(x, body, env, 1, st, fuel) == Done(Back(Triangle(k)), st);
  }

  lemma SumReturns(k: byte, sp: int, st: Memory, fuel: nat)
    requires fuel >= k && sp >= 4 * k + 3 && FreeBelow(st, sp)
    ensures Activate(SumProgram(), 0, [k], sp, st, fuel) == Done(Byte(k * (k + 1) / 2), st)
  {
    hide Activate, SumProgram, Triangle, Byte;
    SumRuns(k, sp, st, fuel);
    TriangleIs(k);
  }

  lemma SumPrints()
    ensures RunProgram(SumProgram(), 21) == Done((), Memory(map[], [210]))
  {
    hide Activate, EntryEnv, SumProgram, ExecBlock;
    SumReturns(20, 255, Memory(map[], []), 20);
    SumParts();
    MainRuns(Setting(SumProgram(), 1, STACK_TOP, true), EntryEnv(SumProgram(), 1));
  }

  lemma SumParts()
    ensures |SumProgram().functions| == 1
    ensures InitGlobals(SumProgram(), SumProgram().globals, 21) == Done((), Memory(map[], []))
  {
  }

  lemma Expand(k: nat)
    ensures k * (k + 1) == (k - 1) * k + 2 * k
  {
  }

  lemma Halves(k: nat)
    ensures k * (k + 1) / 2 == (k - 1) * k / 2 + k
  {
    Expand(k);
    HalfOfSum((k - 1) * k, k);
  }

  lemma HalfOfSum(a: int, k: int)
    ensures (a + 2 * k) / 2 == a / 2 + k
  {
  }

  lemma {:induction false} TriangleIs(k: nat)
    ensures Triangle(k) == Byte(k * (k + 1) / 2)
    decreases k
  {
    if k > 0 {
      TriangleIs(k - 1);
      Halves(k);
      ByteAdd((k - 1) * k / 2, k);
    }
  }

  lemma MainRuns(x: Setting, env: Env)
    requires x == Setting(SumProgram(), 1, STACK_TOP, true)
    requires Activate(SumProgram(), 0, [20], 255, Memory(map[], []), 20) == Done(210, Memory(map[], []))
    ensures ExecBlock(x, SumProgram().main, env, 0, Memory(map[], []), 21) == Done(Next(env, 0), Memory(map[], [210]))
  {
    hide Activate;
    var st := Memory(map[], []);
    var args := Arg(Num(20), NoArgs);
    assert EvalArgs(x, NoArgs, env, 254, st, 21) == Done([], st);
    var vs: seq<byte> := [20];
    assert vs + [] == vs;
    assert EvalArgs(x, args, env, 255, st, 21) == Done(vs, st);
    SumIsFound();
    assert Eval(x, Call("sum", args), env, 255, st, 21) == Done(210, st);
    assert Exec(x, SumProgram().main.head, env, 0, st, 21) == Done(Next(env, 0), Memory(map[], [210]));
    assert ExecAll(x, SumProgram().main, env, 0, st, 21) == Done(Next(env, 0), Memory(map[], [210]));
    Unrestricted(Memory(map[], [210]));
  }

  // The compiled recursive program halts having printed 210.
  lemma SumWorks(caching: bool)
    ensures Compilable(SumProgram(), caching) && Outputs(Output(SumProgram(), caching), [210])
  {
    hide Admissible, CompileProgram, SoundProgram, NoCapture, Output, RunProgram, SumProgram, Run, Step;
    SumIsAdmissible();
    AdmissibleCompiles(SumProgram(), caching);
    SumPrints();
    var t := ProgramPreserved(SumProgram(), caching, 21);
    assert Halted(Output(SumProgram(), caching), Run(Output(SumProgram(), caching), RESET, t));
  }
}
