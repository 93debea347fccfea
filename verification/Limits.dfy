// Three programs on which the compiled code does not do what the source means.
// The conditions under which it does are proved in Jumps, Naming and Correctness.
module Limits {
  import opened Wrappers
  import opened Machine
  import opened Instructions
  import opened RegisterTable
  import opened Syntax
  import opened Codegen
  import opened Shape
  import opened Source
  import opened StatementSim
  import opened Correctness
  import opened Symbols
  import opened Naming
  import opened Compilability
  import opened Sizes
  import ProgramSim

  // print(n);
  function PrintOf(n: int): Stmts {
    Stmts.Cons(Print(Num(n)), Nil)
  }

  // if (1) { print(1); } else if (0) { print(2); }
  function ElseIf(): IfStmt {
    IfElseIf(Num(1), PrintOf(1), IfThen(Num(0), PrintOf(2)))
  }

  // main { if (1) { print(1); } else if (0) { print(2); } }
  function Misprinting(): Program {
    Program([], [], Stmts.Cons(If(ElseIf()), Nil))
  }

  // Between statements outside any function call, with no locals.
  predicate Fresh(c: Compiler) {
    c.regs == INITIAL && c.nextLocal == 0 && c.inside
  }

  // With no register in use a constant goes to r1.
  lemma FirstConstant(c: Compiler, n: int)
    requires c.regs == INITIAL
    ensures Expression(Num(n), c).Success? && Expression(Num(n), c).value.1 == 1
    ensures var d := Expression(Num(n), c).value.0; d == c.(regs := d.regs, code := c.code + [Plain(AFC, 1, n, 0)])
  {
    assert FirstFree(c.regs, 1) == 1;
  }

  lemma PrintStatements(n: int, c: Compiler)
    requires c.regs == INITIAL
    ensures Statements(PrintOf(n), c).Success?
    ensures var d := Statements(PrintOf(n), c).value;
      d == c.(regs := d.regs, code := c.code + [Plain(AFC, 1, n, 0)] + [Plain(PRI, 0, 1, 0)])
  {
    hide Expression;
    FirstConstant(c, n);
    var c1 := Expression(Num(n), c).value.0;
    assert Statement(Print(Num(n)), c) == Success(PrintStatement(c1, 1));
    assert Statements(Nil, PrintStatement(c1, 1)) == Success(PrintStatement(c1, 1));
  }

  // Leaving a block without locals emits nothing.
  lemma EmptyExit(c: Compiler, d: Compiler, more: seq<Raw>)
    requires c.nextLocal == 0 && d == BeginBlock(c).(regs := d.regs, code := c.code + more)
    ensures EndBlock(d) == (c.(regs := INITIAL, code := c.code + more), |more|)
  {
    assert StackPops(d, 0) == d;
    assert Symbols.Restore(d.symbols, |c.symbols|) == c.symbols;
    assert d.outer[..|d.outer| - 1] == c.outer;
  }

  lemma PrintBlock(n: int, c: Compiler)
    requires Fresh(c)
    ensures BlockOf(PrintOf(n), c) == Success((c.(code := c.code + [Plain(AFC, 1, n, 0), Plain(PRI, 0, 1, 0)]), 2))
  {
    hide Statements, EndBlock;
    PrintStatements(n, BeginBlock(c));
    var d := Statements(PrintOf(n), BeginBlock(c)).value;
    assert d.code == c.code + [Plain(AFC, 1, n, 0), Plain(PRI, 0, 1, 0)];
    EmptyExit(c, d, [Plain(AFC, 1, n, 0), Plain(PRI, 0, 1, 0)]);
  }

  function Guarded(condition: int, shown: int, extra: int): seq<Raw> {
    [Plain(AFC, 1, condition, 0), Plain(JF, 0, 1, 2 + extra).(relative := true), Plain(AFC, 1, shown, 0),
      Plain(PRI, 0, 1, 0)]
  }

  lemma GuardedPrint(condition: int, shown: int, c: Compiler, extra: int)
    requires Fresh(c)
    ensures Conditional(Num(condition), PrintOf(shown), c, extra)
      == Success((c.(code := c.code + Guarded(condition, shown, extra)), 2))
  {
    hide Expression, BlockOf, PrintOf;
    FirstConstant(c, condition);
    var c1 := Expression(Num(condition), c).value.0;
    var cj := ConditionalJump(c1, 1);
    PrintBlock(shown, cj);
    var c2 := BlockOf(PrintOf(shown), cj).value.0;
    assert PatchConditional(c2, |c1.code|, 2 + extra).code == c.code + Guarded(condition, shown, extra);
  }

  // The jump over the inner statement misses its condition: it goes 4 ahead
  // where 5 instructions follow it up to the end.
  function ElseIfCode(): seq<Raw> {
    Guarded(1, 1, 2) + [Plain(J, 0, 4, 0).(relative := true)] + Guarded(0, 2, 1)
  }

  lemma ElseIfCompiles(c: Compiler)
    requires Fresh(c)
    ensures IfStatement(ElseIf(), c).Success?
    ensures IfStatement(ElseIf(), c).value.0 == c.(code := c.code + ElseIfCode())
  {
    hide Conditional, PrintOf, Guarded;
    GuardedPrint(1, 1, c, 2);
    var c1 := c.(code := c.code + Guarded(1, 1, 2));
    var cu := UnconditionalJump(c1);
    GuardedPrint(0, 2, cu, 1);
    var rest := IfThen(Num(0), PrintOf(2));
    var c2 := cu.(code := cu.code + Guarded(0, 2, 1));
    assert IfStatement(rest, cu) == Success((c2, 3));
    assert PatchUnconditional(c2, |c1.code|, 4).code == c.code + ElseIfCode();
  }

  lemma MainCompiles(c: Compiler)
    requires Fresh(c)
    ensures BlockOf(Misprinting().main, c).Success?
    ensures BlockOf(Misprinting().main, c).value.0 == c.(code := c.code + ElseIfCode())
  {
    hide IfStatement, EndBlock, ElseIf, ElseIfCode;
    var b := BeginBlock(c);
    ElseIfCompiles(b);
    var d := IfStatement(ElseIf(), b).value.0;
    assert Statement(If(ElseIf()), b) == Success(d);
    assert Statements(Nil, d) == Success(d);
    assert Statements(Misprinting().main, b) == Success(d);
    EmptyExit(c, d, ElseIfCode());
  }

  function Opening(): seq<Raw> {
    [Raw(J, Value(0), Ref(1), Value(0), false, ""), Plain(NOP, 0, 0, 0).(comment := "main"), Plain(AFC, REG_SP, 255, 0),
     Plain(COP, REG_FP, REG_SP, 0)]
  }

  lemma ProgramCompiles()
    ensures CompileProgram(Misprinting(), true).Success?
    ensures CompileProgram(Misprinting(), true).value.code == Opening() + ElseIfCode()
  {
    hide BlockOf, ElseIf, ElseIfCode;
    var c1 := ProgramStart(Start(true));
    var c2 := BeginMain(c1, 0);
    MainCompiles(c2);
    assert c2.code == Opening();
  }

  function OpeningImage(): Image {
    [Instr(J, 1, 0, 0), Instr(NOP, 0, 0, 0), Instr(AFC, 13, 255, 0), Instr(COP, 14, 13, 0)]
  }

  function ElseIfImage(): Image {
    OpeningImage() + [Instr(AFC, 1, 1, 0), Instr(JF, 1, 9, 0), Instr(AFC, 1, 1, 0), Instr(PRI, 1, 0, 0),
      Instr(J, 12, 0, 0),
                      Instr(AFC, 1, 0, 0), Instr(JF, 1, 13, 0), Instr(AFC, 1, 2, 0), Instr(PRI, 1, 0, 0)]
  }

  // The image of code that follows the opening.
  lemma ImageAfterOpening(code: seq<Raw>)
    ensures AssembleAll(Opening() + code)
      == OpeningImage() + seq(|code|, k requires 0 <= k < |code| => Assemble(code[k], k + 4))
  {
    var all := Opening() + code;
    assert forall k | 0 <= k < 4 :: AssembleAll(all)[k] == Assemble(Opening()[k], k) == OpeningImage()[k];
  }

  lemma ElseIfListed()
    ensures ElseIfCode() == [Plain(AFC, 1, 1, 0), Plain(JF, 0, 1, 4).(relative := true), Plain(AFC, 1, 1, 0),
      Plain(PRI, 0, 1, 0),
      Plain(J, 0, 4, 0).(relative := true),
      Plain(AFC, 1, 0, 0), Plain(JF, 0, 1, 3).(relative := true), Plain(AFC, 1, 2, 0), Plain(PRI, 0, 1, 0)]
  {
  }

  lemma ImageOfProgram()
    ensures AssembleAll(Opening() + ElseIfCode()) == ElseIfImage()
  {
    hide Opening, OpeningImage, AssembleAll, ElseIfCode, Assemble;
    var code := ElseIfCode();
    ElseIfListed();
    ImageAfterOpening(code);
    FirstHalf();
    SecondHalf();
    assert seq(|code|, k requires 0 <= k < |code| => Assemble(code[k], k + 4))
      == [Assemble(code[0], 4), Assemble(code[1], 5),
      Assemble(code[2], 6), Assemble(code[3], 7), Assemble(code[4], 8), Assemble(code[5], 9), Assemble(code[6], 10),
      Assemble(code[7], 11), Assemble(code[8], 12)];
  }

  lemma FirstHalf()
    ensures var code := ElseIfCode();
      && Assemble(code[0], 4) == Instr(AFC, 1, 1, 0) && Assemble(code[1], 5) == Instr(JF, 1, 9, 0)
      && Assemble(code[2], 6) == Instr(AFC, 1, 1, 0) && Assemble(code[3], 7) == Instr(PRI, 1, 0, 0)
  {
    hide ElseIfCode;
    ElseIfListed();
  }

  lemma SecondHalf()
    ensures var code := ElseIfCode();
      && Assemble(code[4], 8) == Instr(J, 12, 0, 0) && Assemble(code[5], 9) == Instr(AFC, 1, 0, 0)
      && Assemble(code[6], 10) == Instr(JF, 1, 13, 0) && Assemble(code[7], 11) == Instr(AFC, 1, 2, 0)
      && Assemble(code[8], 12) == Instr(PRI, 1, 0, 0)
  {
    hide ElseIfCode;
    ElseIfListed();
  }

  // One more instruction of a run.
  lemma Advance(p: Image, m: State, t: nat, n: State, i: Instr, r: State)
    requires Run(p, m, t) == n && n.pc < |p| && p[n.pc] == i && Executable(i) && r == Effect(i, n)
    ensures Run(p, m, t + 1) == r
  {
    hide Effect, Executable;
    RunAdd(p, m, t, 1);
    Run1(p, n);
  }

  // The first four instructions set up the stack.
  lemma AfterOpening(p: Image, m: State) returns (n: State)
    requires |p| > 4 && p[..4] == OpeningImage() && m.pc == 0
    ensures n == m.(regs := m.regs[13 := 255][14 := 255], pc := 4) && Run(p, m, 4) == n
  {
    hide Step;
    assert p[0] == p[..4][0] && p[1] == p[..4][1] && p[2] == p[..4][2] && p[3] == p[..4][3];
    var m1 := m.(pc := 1);
    Advance(p, m, 0, m, Instr(J, 1, 0, 0), m1);
    hide Run;
    var m2 := m.(pc := 2);
    Advance(p, m, 1, m1, Instr(NOP, 0, 0, 0), m2);
    var m3 := m.(regs := m.regs[13 := 255], pc := 3);
    Advance(p, m, 2, m2, Instr(AFC, 13, 255, 0), m3);
    n := m.(regs := m.regs[13 := 255][14 := 255], pc := 4);
    Advance(p, m, 3, m3, Instr(COP, 14, 13, 0), n);
  }

  // The machine prints 1 twice: the jump at 8 leads to the last instruction.
  lemma MachineRun()
    ensures Outputs(ElseIfImage(), [1, 1])
  {
    hide Step, Run;
    var p := ElseIfImage();
    var m4 := AfterOpening(p, RESET);
    var m5 := m4.(regs := m4.regs[1 := 1], pc := 5);
    Advance(p, RESET, 4, m4, Instr(AFC, 1, 1, 0), m5);
    var m6 := m5.(pc := 6);
    Advance(p, RESET, 5, m5, Instr(JF, 1, 9, 0), m6);
    var m7 := m5.(pc := 7);
    Advance(p, RESET, 6, m6, Instr(AFC, 1, 1, 0), m7);
    var m8 := m5.(pc := 8, output := [1]);
    Advance(p, RESET, 7, m7, Instr(PRI, 1, 0, 0), m8);
    var m9 := m5.(pc := 12, output := [1]);
    Advance(p, RESET, 8, m8, Instr(J, 12, 0, 0), m9);
    var end := m5.(pc := 13, output := [1, 1]);
    Advance(p, RESET, 9, m9, Instr(PRI, 1, 0, 0), end);
    assert Halted(p, Run(p, RESET, 10)) && Run(p, RESET, 10).output == [1, 1];
  }

  // The source prints 1 once.
  lemma SourceRun()
    ensures Prints(Misprinting(), [1])
  {
    var p := Misprinting();
    var st := Memory(map[], []);
    assert InitGlobals(p, p.globals, 0) == Done((), st);
    var x := Setting(p, 0, STACK_TOP, true);
    var env := EntryEnv(p, 0);
    var printed := Memory(map[], [1]);
    assert Restrict(printed, {}) == printed;
    assert Exec(x, Print(Num(1)), env, 0, st, 0) == Done(Next(env, 0), printed);
    assert ExecAll(x, PrintOf(1), env, 0, st, 0) == Done(Next(env, 0), printed);
    assert ExecIf(x, ElseIf(), env, 0, st, 0) == Done(Next(env, 0), printed);
    assert Exec(x, If(ElseIf()), env, 0, st, 0) == Done(Next(env, 0), printed);
    assert ExecAll(x, p.main, env, 0, st, 0) == Done(Next(env, 0), printed);
    assert RunProgram(p, 0).Done? && RunProgram(p, 0).store.output == [1];
  }

  // "else if" breaks preservation: the source prints 1, the machine 1 and 1.
  lemma ElseIfMisprints()
    ensures CompileProgram(Misprinting(), true).Success?
    ensures Prints(Misprinting(), [1]) && Outputs(Output(Misprinting(), true), [1, 1])
  {
    hide CompileProgram, Prints, Outputs, ElseIfImage, Opening, ElseIfCode, AssembleAll, Misprinting;
    ProgramCompiles();
    ImageOfProgram();
    MachineRun();
    SourceRun();
  }

  // ---------- a loop at the start of a block ----------

  // while (1) { print(1); }
  function Loop(): Stmt {
    While(Num(1), PrintOf(1))
  }

  // main { print(7); { while (1) { print(1); } } }
  function Restarting(): Program {
    Program([], [], Stmts.Cons(Print(Num(7)), Stmts.Cons(Block(Stmts.Cons(Loop(), Nil)), Nil)))
  }

  function LoopCode(): seq<Raw> {
    Guarded(1, 1, 2) + [Raw(J, Value(0), Ref(NO_TARGET), Value(0), false, "")]
  }

  lemma LoopCompiles(c: Compiler)
    requires c.nextLocal == 0 && c.inside
    ensures BlockOf(Stmts.Cons(Loop(), Nil), c) == Success((c.(regs := INITIAL, code := c.code + LoopCode()), 5))
  {
    hide Statement, EndBlock, LoopCode, Loop;
    var b := BeginBlock(c);
    var d := b.(regs := INITIAL, code := c.code + LoopCode());
    LoopStatement(b);
    assert Statements(Nil, d) == Success(d);
    assert Statements(Stmts.Cons(Loop(), Nil), b) == Success(d);
    LoopLength();
    EmptyExit(c, d, LoopCode());
  }

  lemma LoopLength()
    ensures |LoopCode()| == 5
  {
  }

  lemma LoopStatement(b: Compiler)
    requires b.nextLocal == 0 && b.inside && ScopeCount(b) == 0
    ensures Statement(Loop(), b) == Success(b.(regs := INITIAL, code := b.code + LoopCode()))
  {
    hide Conditional, PrintOf, Guarded;
    GuardedPrint(1, 1, Reset(b), 2);
    var d := Reset(b).(code := b.code + Guarded(1, 1, 2));
    assert LoopBack(d, NO_TARGET).code == b.code + LoopCode();
  }

  function RestartCode(): seq<Raw> {
    [Plain(AFC, 1, 7, 0), Plain(PRI, 0, 1, 0)] + LoopCode()
  }

  lemma RestartStatements(b: Compiler)
    requires Fresh(b)
    ensures Statements(Restarting().main, b) == Success(b.(regs := INITIAL, code := b.code + RestartCode()))
  {
    hide Expression, LoopCode, Loop, BlockOf;
    FirstConstant(b, 7);
    var c1 := PrintStatement(Expression(Num(7), b).value.0, 1);
    LoopCompiles(c1);
    var d := b.(regs := INITIAL, code := b.code + RestartCode());
    var tail := Stmts.Cons(Block(Stmts.Cons(Loop(), Nil)), Nil);
    assert c1.code + LoopCode() == d.code;
    assert Statement(Print(Num(7)), b) == Success(c1);
    assert Statement(tail.head, c1) == Success(d);
    assert Statements(Nil, d) == Success(d);
    assert Statements(tail, c1) == Success(d);
  }

  lemma RestartCompiles(c: Compiler)
    requires Fresh(c)
    ensures BlockOf(Restarting().main, c).Success?
    ensures BlockOf(Restarting().main, c).value.0 == c.(code := c.code + RestartCode())
  {
    hide Statements, EndBlock, RestartCode;
    RestartStatements(BeginBlock(c));
    EmptyExit(c, Statements(Restarting().main, BeginBlock(c)).value, RestartCode());
  }

  lemma RestartProgramCompiles()
    ensures CompileProgram(Restarting(), true).Success?
    ensures CompileProgram(Restarting(), true).value.code == Opening() + RestartCode()
  {
    hide BlockOf, RestartCode, Loop;
    var c2 := BeginMain(ProgramStart(Start(true)), 0);
    RestartCompiles(c2);
    assert c2.code == Opening();
  }

  function RestartImage(): Image {
    OpeningImage() + [Instr(AFC, 1, 7, 0), Instr(PRI, 1, 0, 0), Instr(AFC, 1, 1, 0), Instr(JF, 1, 11, 0),
      Instr(AFC, 1, 1, 0),
                      Instr(PRI, 1, 0, 0), Instr(J, 0, 0, 0)]
  }

  lemma RestartListed()
    ensures RestartCode() == [Plain(AFC, 1, 7, 0), Plain(PRI, 0, 1, 0), Plain(AFC, 1, 1, 0),
      Plain(JF, 0, 1, 4).(relative := true),
      Plain(AFC, 1, 1, 0), Plain(PRI, 0, 1, 0), Raw(J, Value(0), Ref(NO_TARGET), Value(0), false, "")]
  {
  }

  lemma RestartAssembled()
    ensures var code := RestartCode();
      && Assemble(code[0], 4) == Instr(AFC, 1, 7, 0) && Assemble(code[1], 5) == Instr(PRI, 1, 0, 0)
      && Assemble(code[2], 6) == Instr(AFC, 1, 1, 0) && Assemble(code[3], 7) == Instr(JF, 1, 11, 0)
      && Assemble(code[4], 8) == Instr(AFC, 1, 1, 0) && Assemble(code[5], 9) == Instr(PRI, 1, 0, 0)
      && Assemble(code[6], 10) == Instr(J, 0, 0, 0)
  {
    hide RestartCode;
    RestartListed();
  }

  lemma ImageOfRestart()
    ensures AssembleAll(Opening() + RestartCode()) == RestartImage()
  {
    hide Opening, OpeningImage, AssembleAll, RestartCode, Assemble;
    var code := RestartCode();
    RestartListed();
    RestartAssembled();
    ImageAfterOpening(code);
    assert seq(|code|, k requires 0 <= k < |code| => Assemble(code[k], k + 4))
      == [Assemble(code[0], 4), Assemble(code[1], 5),
      Assemble(code[2], 6), Assemble(code[3], 7), Assemble(code[4], 8), Assemble(code[5], 9), Assemble(code[6], 10)];
  }

  // Once round the program from its first instruction: it prints 7 and 1 and
  // jumps back to its first instruction.
  lemma OneRound(m: State)
    requires m.pc == 0
    ensures Run(RestartImage(), m, 11).pc == 0 && Run(RestartImage(), m, 11).output == m.output + [7] + [1]
    ensures Run(RestartImage(), m, 6).output == m.output + [7]
  {
    hide Step, Run;
    var p := RestartImage();
    var m4 := AfterOpening(p, m);
    var m5 := m4.(regs := m4.regs[1 := 7], pc := 5);
    Advance(p, m, 4, m4, Instr(AFC, 1, 7, 0), m5);
    var m6 := m5.(pc := 6, output := m.output + [7]);
    Advance(p, m, 5, m5, Instr(PRI, 1, 0, 0), m6);
    var m7 := m6.(regs := m4.regs[1 := 1], pc := 7);
    Advance(p, m, 6, m6, Instr(AFC, 1, 1, 0), m7);
    var m8 := m7.(pc := 8);
    Advance(p, m, 7, m7, Instr(JF, 1, 11, 0), m8);
    var m9 := m7.(pc := 9);
    Advance(p, m, 8, m8, Instr(AFC, 1, 1, 0), m9);
    var m10 := m7.(pc := 10, output := m.output + [7] + [1]);
    Advance(p, m, 9, m9, Instr(PRI, 1, 0, 0), m10);
    Advance(p, m, 10, m10, Instr(J, 0, 0, 0), m10.(pc := 0));
  }

  lemma RestartRun()
    ensures Run(RestartImage(), RESET, 17).output == [7, 1, 7]
  {
    var p := RestartImage();
    hide Step, Run, RestartImage;
    OneRound(RESET);
    OneRound(Run(p, RESET, 11));
    RunAdd(p, RESET, 11, 6);
  }

  lemma PrintsOne(x: Setting, env: Env, output: seq<byte>, n: byte, fuel: nat)
    requires x.visible <= |x.p.functions|
    ensures Exec(x, Print(Num(n)), env, 0, Memory(map[], output), fuel)
      == Done(Next(env, 0), Memory(map[], output + [n]))
  {
  }

  lemma BlockPrints(x: Setting, env: Env, output: seq<byte>, fuel: nat)
    requires x.visible <= |x.p.functions|
    ensures ExecBlock(x, PrintOf(1), env, 0, Memory(map[], output), fuel)
      == Done(Next(env, 0), Memory(map[], output + [1]))
  {
    PrintsOne(x, env, output, 1, fuel);
    var printed := Memory(map[], output + [1]);
    assert ExecAll(x, PrintOf(1), env, 0, Memory(map[], output), fuel) == Done(Next(env, 0), printed);
    assert Restrict(printed, {}) == printed;
  }

  // A round of the loop prints 1 and uses up one unit of fuel.
  lemma LoopRound(x: Setting, env: Env, output: seq<byte>, fuel: nat)
    requires x.visible <= |x.p.functions| && fuel > 0
    ensures Exec(x, Loop(), env, 0, Memory(map[], output), fuel)
      == Exec(x, Loop(), env, 0, Memory(map[], output + [1]), fuel - 1)
  {
    hide ExecBlock, PrintOf;
    BlockPrints(x, env, output, fuel);
    assert Eval(x, Num(1), env, x.fp, Memory(map[], output), fuel) == Done(1, Memory(map[], output));
  }

  lemma LoopRun()
    ensures RunProgram(Restarting(), 2) == Timeout([7, 1, 1])
  {
    var p := Restarting();
    var x := Setting(p, 0, STACK_TOP, true);
    var env := EntryEnv(p, 0);
    hide ExecBlock, EntryEnv;
    MainRuns(x, env);
    assert InitGlobals(p, p.globals, 2) == Done((), Memory(map[], []));
  }

  lemma MainRuns(x: Setting, env: Env)
    requires x.visible <= |x.p.functions|
    ensures ExecBlock(x, Restarting().main, env, 0, Memory(map[], []), 2) == Timeout([7, 1, 1])
  {
    var body := Stmts.Cons(Loop(), Nil);
    var tail := Stmts.Cons(Block(body), Nil);
    var st7 := Memory(map[], [] + [7]);
    LoopInBlock(x, env);
    PrintsOne(x, env, [], 7, 2);
    assert Exec(x, Block(body), env, 0, st7, 2) == ExecBlock(x, body, env, 0, st7, 2);
    assert ExecAll(x, tail, env, 0, st7, 2) == Timeout([7, 1, 1]);
    assert ExecAll(x, Restarting().main, env, 0, Memory(map[], []), 2) == Timeout([7, 1, 1]);
  }

  // Two rounds, then the fuel is used up.
  lemma LoopInBlock(x: Setting, env: Env)
    requires x.visible <= |x.p.functions|
    ensures ExecBlock(x, Stmts.Cons(Loop(), Nil), env, 0, Memory(map[], [] + [7]), 2) == Timeout([7, 1, 1])
  {
    var st7 := Memory(map[], [] + [7]);
    LoopRound(x, env, [] + [7], 2);
    LoopRound(x, env, [] + [7] + [1], 1);
    assert Exec(x, Loop(), env, 0, Memory(map[], [] + [7] + [1] + [1]), 0) == Timeout([7, 1, 1]);
    assert ExecAll(x, Stmts.Cons(Loop(), Nil), env, 0, st7, 2) == Timeout([7, 1, 1]);
  }

  // A loop at the start of its block breaks preservation: the source goes on
  // printing 1, the machine starts over and prints 7 again.
  lemma FirstLoopRestarts()
    ensures CompileProgram(Restarting(), true).Success?
    ensures RunProgram(Restarting(), 2) == Timeout([7, 1, 1])
    ensures Run(Output(Restarting(), true), RESET, 17).output == [7, 1, 7]
  {
    hide CompileProgram, RestartImage, Run, Opening, RestartCode, AssembleAll, Restarting;
    RestartProgramCompiles();
    ImageOfRestart();
    RestartRun();
    LoopRun();
  }

  // ---------- a parameter that outlives its function ----------

  // let x = 5; function f(x) { } main { print(x); }
  function Capturing(): Program {
    Program([Let("x", Num(5))], [Function("f", ["x"], Nil)], Stmts.Cons(Print(Var("x")), Nil))
  }

  lemma CapturingCompiles()
    ensures CompileProgram(Capturing(), true).Success? && |CompileProgram(Capturing(), true).value.code| <= 255
  {
    hide CompileProgram;
    CapturingFits();
    ProgramDemand(Capturing(), true);
    CapturingIsShort();
    ProgramLength(Capturing(), true);
  }

  lemma CapturingFits()
    ensures ProgramFits(Capturing())
  {
    var f := Function("f", ["x"], Nil);
    assert Heads([f][..0]) == [];
    assert FunctionFits(f, []);
  }

  lemma CapturingIsShort()
    ensures ProgramSize(Capturing()) <= 255
  {
    var ds := Capturing().globals;
    var fs := Capturing().functions;
    assert ds[..0] == [] && fs[..0] == [];
    assert GlobalsSize(ds) == GlobalsSize(ds[..0]) + GlobalSize(ds[0]);
    assert FunctionsSize(fs) == FunctionsSize(fs[..0]) + FunctionSize(fs[0]);
  }

  function StoreFive(): seq<Raw> {
    [Plain(AFC, 1, 5, 0), Plain(STR, 0, 1, 0)]
  }

  lemma CapturingGlobals(c: Compiler)
    requires Globals(Capturing().globals, Start(true)) == Success(c)
    ensures c.code == StoreFive() && c.symbols == [Symbol("x", Global(0))]
  {
    hide Expression;
    var ds := Capturing().globals;
    var start := Start(true);
    assert ds[..0] == [] && Globals(ds[..0], start) == Success(start);
    FirstConstant(start, 5);
    var c1 := Expression(Num(5), start).value.0;
    ProgramSim.StoreGlobalShape(c1.(nextGlobal := 1, symbols := [Symbol("x", Global(0))]), 0, 1);
    hide StoreGlobal;
    assert c == DeclareGlobal(c1, "x", 1);
  }

  // After the function the name means its parameter.
  lemma CapturingSymbols(c0: Compiler)
    requires c0.symbols == [Symbol("x", Global(0))] && Functions(Capturing().functions, c0).Success?
    ensures Lookup(Functions(Capturing().functions, c0).value.symbols, "x") == Some(Local(0))
  {
    hide Functions;
    var p := Capturing();
    assert p.functions[..1] == p.functions;
    StageSymbols(p, c0, 1);
    assert Leaked(p, 1) == [] + ParameterSymbols(["x"]);
    assert ParameterSymbols(["x"]) == [Symbol("x", Local(0))];
  }

  function LoadLocal(): seq<Raw> {
    [Plain(AFC, REG_TMP, 0, 0), Plain(SOU, REG_TMP, REG_FP, REG_TMP), Plain(LDI, 1, REG_TMP, 0), Plain(PRI, 0, 1, 0)]
  }

  lemma CapturingMain(c: Compiler)
    requires Fresh(c) && Lookup(c.symbols, "x") == Some(Local(0)) && BlockOf(Capturing().main, c).Success?
    ensures BlockOf(Capturing().main, c).value.0.code == c.code + LoadLocal()
  {
    hide Statements, EndBlock, LoadLocal;
    var b := BeginBlock(c);
    var d := LoadedStatements(b);
    EmptyExit(c, d, LoadLocal());
  }

  lemma LoadedStatements(b: Compiler) returns (d: Compiler)
    requires b.regs == INITIAL && Lookup(b.symbols, "x") == Some(Local(0))
    ensures Statements(Capturing().main, b) == Success(d) && d == b.(regs := d.regs, code := b.code + LoadLocal())
  {
    hide LocalLoad, PrintStatement, Lookup, LoadLocal;
    FirstLocal(b);
    var c1 := LocalLoad(b, 0).value.0;
    d := PrintStatement(c1, 1);
    PrintsLoaded(b, c1, d);
    assert Expression(Var("x"), b) == Success((c1, 1));
    assert Statement(Print(Var("x")), b) == Success(d);
    assert Statements(Nil, d) == Success(d);
  }

  lemma FirstLocal(b: Compiler)
    requires b.regs == INITIAL
    ensures LocalLoad(b, 0).Success? && LocalLoad(b, 0).value.1 == 1 && FirstFree(b.regs, 1) == 1
  {
    assert FirstFree(b.regs, 1) == 1;
  }

  lemma PrintsLoaded(b: Compiler, c1: Compiler, d: Compiler)
    requires FirstFree(b.regs, 1) == 1 && LocalLoad(b, 0).Success?
    requires c1 == LocalLoad(b, 0).value.0 && d == PrintStatement(c1, 1)
    ensures d == b.(regs := d.regs, code := b.code + LoadLocal())
  {
  }

  // The image of the program: the initialiser, the jump to main and main itself.
  ghost predicate CapturingImage(image: Image, n: nat) {
    && 3 <= n && |image| == n + 7 && n < 256
    && image[0] == Instr(AFC, 1, 5, 0) && image[1] == Instr(STR, 0, 1, 0) && image[2] == Instr(J, n, 0, 0)
    && image[n] == Instr(NOP, 0, 0, 0) && image[n + 1] == Instr(AFC, 13, 255, 0)
      && image[n + 2] == Instr(COP, 14, 13, 0)
    && image[n + 3] == Instr(AFC, 12, 0, 0) && image[n + 4] == Instr(SOU, 12, 14, 12)
    && image[n + 5] == Instr(LDI, 1, 12, 0) && image[n + 6] == Instr(PRI, 1, 0, 0)
  }

  lemma ImageOfCapturing() returns (n: nat)
    ensures CompileProgram(Capturing(), true).Success? && CapturingImage(Output(Capturing(), true), n)
  {
    hide CompileProgram, Compiled, Globals, Functions, BlockOf, BeginMain, LoadLocal, StoreFive, Placed, CapturingImage,
      Capturing;
    var p := Capturing();
    CapturingCompiles();
    CompiledParts(p, true);
    var parts := Compiled(p, true).value;
    Placement(p, true);
    PartsAre(p, parts);
    CapturingGlobals(parts.globals);
    CapturingSymbols(parts.first);
    MainKeeps(parts.last, |parts.globals.code|);
    CapturingMain(parts.main);
    n := |parts.last.code|;
    PlacedImage(p, parts, Output(p, true), n);
  }

  lemma PartsAre(p: Program, parts: Parts)
    requires Compiled(p, true) == Success(parts)
    ensures Globals(p.globals, Start(true)) == Success(parts.globals)
    ensures parts.first == ProgramStart(parts.globals) && parts.first.symbols == parts.globals.symbols
    ensures Functions(p.functions, parts.first) == Success(parts.last)
    ensures |parts.globals.code| < |parts.last.code|
    ensures parts.main == BeginMain(parts.last, |parts.globals.code|)
    ensures BlockOf(p.main, parts.main).Success? && BlockOf(p.main, parts.main).value.0 == parts.end
  {
    hide Globals, Functions, BlockOf, BeginMain;
    LastExtends(p, parts.first);
  }

  lemma PlacedImage(p: Program, parts: Parts, image: Image, n: nat)
    requires Correctness.Placed(p, parts, image) && |image| <= 255 && n == |parts.last.code|
    requires parts.globals.code == StoreFive() && parts.end.code == parts.main.code + LoadLocal()
    ensures CapturingImage(image, n)
  {
    hide Functions, ProgramStart;
    var at := |parts.main.code|;
    assert parts.end.code[at] == LoadLocal()[0] && parts.end.code[at + 1] == LoadLocal()[1];
    assert parts.end.code[at + 2] == LoadLocal()[2] && parts.end.code[at + 3] == LoadLocal()[3];
  }

  lemma CapturingRun(image: Image, n: nat)
    requires CapturingImage(image, n)
    ensures Outputs(image, [0])
  {
    hide Step, Run, Effect;
    var m6 := CapturingSetup(image, n);
    var m7 := m6.(regs := m6.regs[12 := 0], pc := n + 4);
    assert Effect(Instr(AFC, 12, 0, 0), m6) == m7 by { ConstantEffect(12, 0, m6); }
    Advance(image, RESET, 6, m6, Instr(AFC, 12, 0, 0), m7);
    CapturingEnd(image, n, m7);
  }

  lemma ConstantEffect(r: int, v: byte, m: State)
    requires IsRegister(r)
    ensures Effect(Instr(AFC, r, v, 0), m) == m.(regs := m.regs[r := v], pc := m.pc + 1)
  {
  }

  // Up to main's body: the global holds 5, the frame is at the top.
  lemma CapturingSetup(image: Image, n: nat) returns (m6: State)
    requires CapturingImage(image, n)
    ensures m6 == State(RESET.regs[1 := 5][13 := 255][14 := 255], RESET.mem[0 := 5], n + 3, [])
    ensures Run(image, RESET, 6) == m6
  {
    hide Step, Run;
    RunStart(image);
    var m1 := RESET.(regs := RESET.regs[1 := 5], pc := 1);
    Advance(image, RESET, 0, RESET, Instr(AFC, 1, 5, 0), m1);
    var m2 := m1.(mem := RESET.mem[0 := 5], pc := 2);
    Advance(image, RESET, 1, m1, Instr(STR, 0, 1, 0), m2);
    var m3 := m2.(pc := n);
    Advance(image, RESET, 2, m2, Instr(J, n, 0, 0), m3);
    var m4 := m2.(pc := n + 1);
    Advance(image, RESET, 3, m3, Instr(NOP, 0, 0, 0), m4);
    var m5 := m2.(regs := m2.regs[13 := 255], pc := n + 2);
    Advance(image, RESET, 4, m4, Instr(AFC, 13, 255, 0), m5);
    m6 := m5.(regs := m5.regs[14 := 255], pc := n + 3);
    Advance(image, RESET, 5, m5, Instr(COP, 14, 13, 0), m6);
  }

  lemma CapturingEnd(image: Image, n: nat, m7: State)
    requires CapturingImage(image, n) && Run(image, RESET, 7) == m7
    requires m7 == State(RESET.regs[1 := 5][13 := 255][14 := 255][12 := 0], RESET.mem[0 := 5], n + 4, [])
    ensures Outputs(image, [0])
  {
    hide Step, Run;
    var m8 := m7.(regs := m7.regs[12 := 255], pc := n + 5);
    Advance(image, RESET, 7, m7, Instr(SOU, 12, 14, 12), m8);
    var m9 := m8.(regs := m8.regs[1 := 0], pc := n + 6);
    Advance(image, RESET, 8, m8, Instr(LDI, 1, 12, 0), m9);
    var end := m9.(output := [0], pc := n + 7);
    Advance(image, RESET, 9, m9, Instr(PRI, 1, 0, 0), end);
    assert Halted(image, Run(image, RESET, 10)) && Run(image, RESET, 10).output == [0];
  }

  lemma RunStart(image: Image)
    ensures Run(image, RESET, 0) == RESET
  {
  }

  lemma CapturingSource()
    ensures Prints(Capturing(), [5])
  {
    hide EntryEnv, ExecBlock, InitGlobals;
    var p := Capturing();
    CapturingInit();
    CapturingEnv();
    CapturingBody(Setting(p, 1, STACK_TOP, true), EntryEnv(p, 1));
    assert RunProgram(p, 0).Done? && RunProgram(p, 0).store.output == [5];
  }

  lemma CapturingBody(x: Setting, env: Env)
    requires x.visible <= |x.p.functions| && "x" in env && env["x"] == Known(Global(0))
    ensures ExecBlock(x, Capturing().main, env, 0, Memory(map[0 := 5], []), 0)
      == Done(Next(env, 0), Memory(map[0 := 5], [5]))
  {
    var st := Memory(map[0 := 5], []);
    var printed := Memory(map[0 := 5], [] + [5]);
    assert Eval(x, Var("x"), env, x.fp, st, 0) == Done(5, st);
    assert Exec(x, Print(Var("x")), env, 0, st, 0) == Done(Next(env, 0), printed);
    assert ExecAll(x, Capturing().main, env, 0, st, 0) == Done(Next(env, 0), printed);
    assert Restrict(printed, st.cells.Keys) == printed;
  }

  lemma CapturingInit()
    ensures InitGlobals(Capturing(), Capturing().globals, 0) == Done((), Memory(map[0 := 5], []))
  {
    var p := Capturing();
    assert p.globals[..0] == [] && InitGlobals(p, [], 0) == Done((), Memory(map[], []));
    assert GlobalNames([]) == [];
  }

  lemma CapturingEnv()
    ensures "x" in EntryEnv(Capturing(), 1) && EntryEnv(Capturing(), 1)["x"] == Known(Global(0))
  {
    var p := Capturing();
    assert p.globals[..0] == [] && GlobalNames([]) == [];
    assert GlobalNames(p.globals) == [] + ["x"];
    assert (([] + ["x"])[..0]) == [];
    assert GlobalEnv([] + ["x"]) == map["x" := Known(Global(0))];
  }

  // A parameter of an earlier function captures a global of its name: the
  // source prints the global, the machine a cell of main's frame.
  lemma CapturedGlobalMisread()
    ensures CompileProgram(Capturing(), true).Success?
    ensures Prints(Capturing(), [5]) && Outputs(Output(Capturing(), true), [0])
    ensures !NoCapture(Capturing())
  {
    hide CompileProgram, Prints, Outputs, CapturingImage, Output;
    var n := ImageOfCapturing();
    CapturingRun(Output(Capturing(), true), n);
    CapturingSource();
    CapturingEnv();
    assert "x" in Capturing().functions[0].parameters;
  }
}
