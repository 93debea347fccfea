// The compiler is correct: a compiled program prints what its source prints,
// ends when the source ends and leaves the same globals.
module Correctness {
  import opened Wrappers
  import opened Machine
  import opened Instructions
  import opened RegisterTable
  import opened Symbols
  import opened Syntax
  import opened Codegen
  import opened Shape
  import opened Execution
  import opened FrameSim
  import opened Source
  import opened Relation
  import opened StatementSim
  import opened ControlSim
  import opened Linking
  import opened Naming
  import opened Preservation
  import opened ProgramSim

  // ---------- the parts of a compiled program ----------

  // The compiler after the globals, at the first function, after the last
  // function, at main's body and at its end.
  datatype Parts = Parts(globals: Compiler, first: Compiler, last: Compiler, main: Compiler, end: Compiler)

  function Compiled(p: Program, caching: bool): Result<Parts, Error> {
    var c1 :- Globals(p.globals, Start(caching));
    var c2 :- Functions(p.functions, ProgramStart(c1));
    var bm := BeginMain(c2, |c1.code|);
    var (c3, _) :- BlockOf(p.main, bm);
    Success(Parts(c1, ProgramStart(c1), c2, bm, c3))
  }

  lemma CompiledParts(p: Program, caching: bool)
    ensures CompileProgram(p, caching).Success? <==> Compiled(p, caching).Success?
    ensures Compiled(p, caching).Success?
      ==> CompileProgram(p, caching).value.code == Compiled(p, caching).value.end.code
  {
    hide Globals, Functions, BlockOf, BeginMain;
  }

  // The machine program the compiler's output denotes.
  function Output(p: Program, caching: bool): Image
    requires CompileProgram(p, caching).Success?
  {
    AssembleAll(CompileProgram(p, caching).value.code)
  }

  // Every loop of the program jumps back to its condition, and no jump over an
  // "else if" that can be reached falls short.
  predicate SoundProgram(p: Program, caching: bool) {
    match Compiled(p, caching)
    case Failure(_) => true
    case Success(parts) =>
      && SoundBody(p.main, BeginBlock(parts.main))
      && forall j | 0 <= j < |p.functions| :: SoundFunction(p, parts.first, j)
  }

  predicate SoundFunction(p: Program, c0: Compiler, j: nat)
    requires j < |p.functions|
  {
    match BodyStart(p, c0, j)
    case Failure(_) => true
    case Success(c) => SoundBody(p.functions[j].body, BeginBlock(c))
  }

  // ---------- linking ----------

  lemma {:induction false} StagesExtend(p: Program, c0: Compiler, j: nat, k: nat)
    requires j <= k <= |p.functions| && Functions(p.functions, c0).Success?
    ensures Stage(p, c0, j).Success? && Stage(p, c0, k).Success?
    ensures Extends(Stage(p, c0, j).value, Stage(p, c0, k).value)
    decreases k
  {
    hide Stage, FunctionDefinition, Functions;
    StagesSucceed(p, c0, j);
    StagesSucceed(p, c0, k);
    if j < k {
      StagesExtend(p, c0, j, k - 1);
      StageNext(p, c0, k - 1);
      FunctionDefinitionShape(p.functions[k - 1], Stage(p, c0, k - 1).value);
    }
  }

  // The code of main leaves the code before it as it was, but for the first jump.
  lemma MainKeeps(c: Compiler, start: nat)
    requires start < |c.code|
    ensures var d := BeginMain(c, start);
      && d == c.(regs := INITIAL, code := d.code, inside := true, nextLocal := 0)
      && |d.code| == |c.code| + 3
      && (forall i | 0 <= i < |c.code| && i != start :: d.code[i] == c.code[i])
      && d.code[start] == c.code[start].(y := Ref(|c.code|))
      && d.code[|c.code|] == Plain(NOP, 0, 0, 0).(comment := "main")
      && d.code[|c.code| + 1] == Plain(AFC, REG_SP, 255, 0)
      && d.code[|c.code| + 2] == Plain(COP, REG_FP, REG_SP, 0)
  {
  }

  // Where everything is in the final image.
  ghost predicate Placed(p: Program, parts: Parts, image: Image) {
    var start := |parts.globals.code|;
    && parts.first == ProgramStart(parts.globals)
    && Functions(p.functions, parts.first) == Success(parts.last)
    && Emitted(image, Start(parts.globals.caching), parts.globals)
    && start < |parts.last.code| && |parts.last.code| + 3 == |parts.main.code| <= |parts.end.code| == |image|
    && (forall i | start < i < |parts.last.code| :: image[i] == Assemble(parts.last.code[i], i))
    && image[start] == Instr(J, Byte(|parts.last.code|), 0, 0)
    && image[|parts.last.code|] == Instr(NOP, 0, 0, 0)
    && image[|parts.last.code| + 1] == Instr(AFC, REG_SP, 255, 0)
    && image[|parts.last.code| + 2] == Instr(COP, REG_FP, REG_SP, 0)
    && Emitted(image, parts.main, parts.end)
  }

  lemma Placement(p: Program, caching: bool)
    requires Compiled(p, caching).Success?
    ensures Placed(p, Compiled(p, caching).value, AssembleAll(Compiled(p, caching).value.end.code))
  {
    hide Globals, Functions, BlockOf, BeginMain, GlobalPoint;
    var parts := Compiled(p, caching).value;
    GlobalsShape(p.globals, caching);
    LastExtends(p, parts.first);
    var start := |parts.globals.code|;
    MainKeeps(parts.last, start);
    InitialUnbound();
    BlockShape(p.main, parts.main);
    CodeSurvives(parts, AssembleAll(parts.end.code));
  }

  lemma LastExtends(p: Program, c0: Compiler)
    requires Functions(p.functions, c0).Success?
    ensures Extends(c0, Functions(p.functions, c0).value)
  {
    StagesExtend(p, c0, 0, |p.functions|);
    assert p.functions[..|p.functions|] == p.functions;
    assert p.functions[..0] == [];
  }

  lemma FixedInstructions(start: nat, n: nat)
    ensures Assemble(Raw(J, Value(0), Ref(n), Value(0), false, ""), start) == Instr(J, Byte(n), 0, 0)
    ensures Assemble(Plain(NOP, 0, 0, 0).(comment := "main"), n) == Instr(NOP, 0, 0, 0)
    ensures Assemble(Plain(AFC, REG_SP, 255, 0), n + 1) == Instr(AFC, REG_SP, 255, 0)
    ensures Assemble(Plain(COP, REG_FP, REG_SP, 0), n + 2) == Instr(COP, REG_FP, REG_SP, 0)
  {
  }

  lemma CodeSurvives(parts: Parts, image: Image)
    requires parts.first == ProgramStart(parts.globals) && Extends(parts.first, parts.last)
      && Extends(parts.main, parts.end)
    requires image == AssembleAll(parts.end.code)
    requires var start := |parts.globals.code|; var c := parts.last; var d := parts.main;
      && start < |c.code| && |d.code| == |c.code| + 3
      && (forall i | 0 <= i < |c.code| && i != start :: d.code[i] == c.code[i])
      && d.code[start] == c.code[start].(y := Ref(|c.code|))
      && d.code[|c.code|] == Plain(NOP, 0, 0, 0).(comment := "main")
      && d.code[|c.code| + 1] == Plain(AFC, REG_SP, 255, 0)
      && d.code[|c.code| + 2] == Plain(COP, REG_FP, REG_SP, 0)
    ensures var start := |parts.globals.code|; var n := |parts.last.code|;
      && Loaded(image, parts.globals.code, 0, start)
      && |image| == |parts.end.code| >= n + 3
      && (forall i | start < i < n :: image[i] == Assemble(parts.last.code[i], i))
      && image[start] == Instr(J, Byte(n), 0, 0)
      && image[n] == Instr(NOP, 0, 0, 0)
      && image[n + 1] == Instr(AFC, REG_SP, 255, 0)
      && image[n + 2] == Instr(COP, REG_FP, REG_SP, 0)
      && Emitted(image, parts.main, parts.end)
  {
    hide Assemble;
    var start := |parts.globals.code|;
    FixedInstructions(start, |parts.last.code|);
    assert parts.first.code[start] == Raw(J, Value(0), Ref(NO_TARGET), Value(0), false, "");
    forall i | 0 <= i < start
      ensures image[i] == Assemble(parts.globals.code[i], i)
    {
      assert parts.first.code[i] == parts.globals.code[i];
      assert parts.end.code[i] == parts.main.code[i];
    }
  }

  lemma ProgramLinked(p: Program, caching: bool, image: Image)
    requires Compiled(p, caching).Success? && Placed(p, Compiled(p, caching).value, image)
    requires |image| <= 255 && NoCapture(p) && SoundProgram(p, caching)
    ensures Linked(p, Compiled(p, caching).value.first, image)
    ensures var parts := Compiled(p, caching).value;
      && parts.main.functions == Entries(p, parts.first, |p.functions|)
      && parts.main.nextGlobal == GlobalCount(p) && parts.main.regs == INITIAL
      && parts.main.inside && parts.main.nextLocal == 0
      && Visible(parts.main, EntryEnv(p, |p.functions|))
  {
    hide Globals, Functions, BlockOf, BeginMain, SoundBody, EntryEnv, GlobalEnv, GlobalNames, FreeInStmts,
      SoundProgram, NoCapture,
      FunctionLinked, BodyStart;
    var parts := Compiled(p, caching).value;
    var c0 := parts.first;
    GlobalsShape(p.globals, caching);
    GlobalEnvIsGlobal(GlobalNames(p.globals));
    assert p.functions[..|p.functions|] == p.functions;
    forall j | 0 <= j < |p.functions|
      ensures FunctionLinked(p, c0, image, j)
    {
      FunctionPlaced(p, caching, parts, image, j);
    }
    StageShape(p, c0, |p.functions|);
    StageVisible(p, c0, |p.functions|);
    MainKeeps(parts.last, |parts.globals.code|);
  }

  lemma FunctionPlaced(p: Program, caching: bool, parts: Parts, image: Image, j: nat)
    requires Compiled(p, caching) == Success(parts) && Placed(p, parts, image)
    requires NoCapture(p) && SoundProgram(p, caching) && j < |p.functions|
    requires Visible(parts.first, GlobalEnv(GlobalNames(p.globals))) && AllGlobal(GlobalEnv(GlobalNames(p.globals)))
    requires parts.first.functions == []
    ensures FunctionLinked(p, parts.first, image, j)
  {
    hide Globals, Functions, BlockOf, BeginMain, SoundBody, EntryEnv, GlobalEnv, GlobalNames, Compiled,
      BeginFunction, Visible, NoCapture;
    var c0 := parts.first;
    assert p.functions[..|p.functions|] == p.functions;
    StagesExtend(p, c0, j, j + 1);
    StagesExtend(p, c0, j + 1, |p.functions|);
    StageShape(p, c0, j);
    StageNext(p, c0, j);
    StageVisible(p, c0, j);
    BodyStartSucceeds(p, c0, j);
    assert SoundFunction(p, c0, j);
    assert Emitted(image, Stage(p, c0, j).value, Stage(p, c0, j + 1).value);
  }

  lemma BodyStartSucceeds(p: Program, c0: Compiler, j: nat)
    requires j < |p.functions| && Stage(p, c0, j).Success?
    requires FunctionDefinition(p.functions[j], Stage(p, c0, j).value).Success?
    ensures BodyStart(p, c0, j).Success?
  {
    hide Stage, BlockOf, BeginFunction;
  }

  // ---------- the run ----------

  // From the first jump to main's body: the stack is empty at the top of memory.
  lemma MainEntry(p: Program, parts: Parts, image: Image, m: State, st: Memory) returns (t: nat)
    requires Placed(p, parts, image) && |image| <= 255
    requires Initialising(parts.globals, m, st)
    requires parts.main.regs == INITIAL && parts.main.nextLocal == 0
      && parts.main.nextGlobal == parts.globals.nextGlobal
    ensures Matches(parts.main, STACK_TOP, Run(image, m, t), st)
  {
    hide Step, Functions, ProgramStart;
    var n := |parts.last.code|;
    var t1 := RunJump(image, n, m);
    var m1 := Run(image, m, t1);
    var t2 := FunctionSim.RunLabel(image, m1);
    var m2 := Run(image, m1, t2);
    var t3 := MainSetup(image, m2);
    t := Compose(image, m, t1, t2);
    t := Compose(image, m, t, t3);
    InitialUnbound();
  }

  lemma MainSetup(image: Image, m: State) returns (t: nat)
    requires m.pc + 1 < |image| && image[m.pc] == Instr(AFC, REG_SP, 255, 0)
      && image[m.pc + 1] == Instr(COP, REG_FP, REG_SP, 0)
    ensures Run(image, m, t) == m.(regs := m.regs[REG_SP := 255][REG_FP := 255], pc := m.pc + 2)
  {
    Run2(image, m);
    t := 2;
  }

  // What the machine owes the source after its own steps.
  ghost predicate Agrees(image: Image, t: nat, fuel: nat, outcome: Outcome<()>) {
    var n := Run(image, RESET, t);
    match outcome
    case Done(_, st) =>
      && Halted(image, n) && n.output == st.output
      && forall a | a in st.cells :: 0 <= a < 256 && n.mem[a] == st.cells[a]
    case Timeout(output) => Running(image, RESET, t, fuel, output)
    case Fault => true
  }

  // Semantic preservation for whole programs.
  lemma ProgramPreserved(p: Program, caching: bool, fuel: nat) returns (t: nat)
    requires CompileProgram(p, caching).Success? && |Output(p, caching)| <= 255
    requires SoundProgram(p, caching) && NoCapture(p)
    ensures Agrees(Output(p, caching), t, fuel, RunProgram(p, fuel))
  {
    CompiledParts(p, caching);
    hide Step, Linked, Compiled, CompileProgram, SoundProgram, NoCapture, Placed, AssembleAll, Globals, Eval, ExecBlock,
      Initialising,
      EntryEnv, GlobalNames, Continued, Entries, InitGlobals;
    var parts := Compiled(p, caching).value;
    var image := Output(p, caching);
    Placement(p, caching);
    ProgramLinked(p, caching, image);
    PlacedParts(p, caching, image);
    t := GlobalsRun(p, parts.first, image, p.globals, caching, fuel);
    match InitGlobals(p, p.globals, fuel)
    case Done(_, st) =>
      var m := Run(image, RESET, t);
      var u := MainEntry(p, parts, image, m, st);
      t := Compose(image, RESET, t, u);
      var main := |p.functions|;
      var x := Setting(p, main, STACK_TOP, true);
      var env := EntryEnv(p, main);
      var o := Blocks(p, parts.first, image, x, p.main, env, parts.main, Run(image, m, u), st, fuel);
      var w := Compose(image, RESET, t, o);
      t := w;
      match ExecBlock(x, p.main, env, 0, st, fuel) {
        case Done(Next(_, _), st1) => AtEnd(p, caching, image, x, parts, Run(image, m, u), Run(image, RESET, w), st,
          st1);
        case _ =>
      }
    case _ =>
  }

  lemma PlacedParts(p: Program, caching: bool, image: Image)
    requires Compiled(p, caching).Success? && Placed(p, Compiled(p, caching).value, image)
    requires SoundProgram(p, caching)
    ensures var parts := Compiled(p, caching).value;
      && Globals(p.globals, Start(caching)) == Success(parts.globals)
      && Emitted(image, Start(caching), parts.globals)
      && BlockOf(p.main, parts.main).Success? && BlockOf(p.main, parts.main).value.0 == parts.end
      && Emitted(image, parts.main, parts.end) && |parts.end.code| == |image|
      && SoundBody(p.main, BeginBlock(parts.main))
      && parts.main.nextGlobal == parts.globals.nextGlobal
  {
    hide Globals, Functions, BlockOf, BeginMain, SoundBody, BodyStart, GlobalNames;
    GlobalsShape(p.globals, caching);
    var parts := Compiled(p, caching).value;
    assert p.functions[..|p.functions|] == p.functions;
    StageShape(p, parts.first, |p.functions|);
    MainKeeps(parts.last, |parts.globals.code|);
  }

  lemma AtEnd(p: Program, caching: bool, image: Image, x: Setting, parts: Parts, m: State, n: State, st: Memory,
              st1: Memory)
    requires |parts.end.code| == |image|
    requires exists env: Env, locals: nat :: Continued(parts.main, parts.end, x.fp, m, n, st, st1, env, locals)
    ensures Halted(image, n) && n.output == st1.output
    ensures forall a | a in st1.cells :: 0 <= a < 256 && n.mem[a] == st1.cells[a]
  {
  }

  // ---------- consequences over all runs ----------

  ghost predicate NeverFaults(p: Program) {
    forall fuel: nat :: !RunProgram(p, fuel).Fault?
  }

  // The source run ends, having printed `output`.
  ghost predicate Prints(p: Program, output: seq<byte>) {
    exists fuel: nat :: RunProgram(p, fuel).Done? && RunProgram(p, fuel).store.output == output
  }

  // The machine run ends, having printed `output`.
  ghost predicate Outputs(image: Image, output: seq<byte>) {
    exists t: nat :: Halted(image, Run(image, RESET, t)) && Run(image, RESET, t).output == output
  }

  // A machine halts in one state only.
  lemma HaltsOnce(image: Image, m: State, t: nat, u: nat)
    requires Halted(image, Run(image, m, t)) && Halted(image, Run(image, m, u))
    ensures Run(image, m, t) == Run(image, m, u)
  {
    hide Step;
    if t <= u {
      RunAdd(image, m, t, u - t);
      HaltedStays(image, Run(image, m, t), u - t);
    } else {
      RunAdd(image, m, u, t - u);
      HaltedStays(image, Run(image, m, u), t - u);
    }
  }

  ghost predicate Compilable(p: Program, caching: bool) {
    && CompileProgram(p, caching).Success? && |Output(p, caching)| <= 255
    && SoundProgram(p, caching) && NoCapture(p)
  }

  // The compiled program halts exactly when the source run ends, with the same output.
  lemma TerminationAgrees(p: Program, caching: bool, output: seq<byte>)
    requires Compilable(p, caching) && NeverFaults(p)
    ensures Prints(p, output) <==> Outputs(Output(p, caching), output)
  {
    hide Step, Run, RunProgram, CompileProgram, SoundProgram, NoCapture, Output;
    var image := Output(p, caching);
    if Prints(p, output) {
      var fuel: nat :| RunProgram(p, fuel).Done? && RunProgram(p, fuel).store.output == output;
      var t := ProgramPreserved(p, caching, fuel);
      assert Halted(image, Run(image, RESET, t));
    }
    if Outputs(image, output) {
      var t: nat :| Halted(image, Run(image, RESET, t)) && Run(image, RESET, t).output == output;
      var u := ProgramPreserved(p, caching, t + 1);
      assert !RunProgram(p, t + 1).Fault?;
      match RunProgram(p, t + 1)
      case Done(_, st) => HaltsOnce(image, RESET, t, u);
      case Timeout(_) => RunningBefore(image, RESET, u, t);
    }
  }

  // A source run that never ends is matched by a machine that never halts and
  // prints, sooner or later, all that the source prints.
  lemma DivergenceAgrees(p: Program, caching: bool, fuel: nat)
    requires Compilable(p, caching)
    requires forall f: nat :: RunProgram(p, f).Timeout?
    ensures forall t: nat :: !Halted(Output(p, caching), Run(Output(p, caching), RESET, t))
    ensures exists t: nat :: t >= fuel && Run(Output(p, caching), RESET, t).output == RunProgram(p, fuel).output
  {
    hide Step, Run, RunProgram, CompileProgram, SoundProgram, NoCapture, Output;
    var image := Output(p, caching);
    forall t: nat
      ensures !Halted(image, Run(image, RESET, t))
    {
      var u := ProgramPreserved(p, caching, t);
      assert RunProgram(p, t).Timeout?;
      RunningBefore(image, RESET, u, t);
    }
    var u := ProgramPreserved(p, caching, fuel);
    assert RunProgram(p, fuel).Timeout?;
  }

  // The register cache changes nothing a run can show: with it and without it
  // the compiled programs halt alike and print alike.
  lemma CacheIsInvisible(p: Program, output: seq<byte>)
    requires Compilable(p, true) && Compilable(p, false) && NeverFaults(p)
    ensures Outputs(Output(p, true), output) <==> Outputs(Output(p, false), output)
  {
    hide Run, RunProgram, CompileProgram, SoundProgram, NoCapture, Output;
    TerminationAgrees(p, true, output);
    TerminationAgrees(p, false, output);
  }

  lemma {:induction false} ZeroCells(names: seq<string>, declared: nat, st: Memory)
    ensures var n := InitZeros(names, declared, st);
      forall a | a in st.cells || declared <= a < declared + |names| :: a in n.cells
    decreases |names|
  {
    if names != [] {
      var st1 := st.(cells := st.cells[declared := 0]);
      var rest := names[..|names| - 1];
      ZeroCells(rest, declared + 1, st1);
      forall a | a in st.cells || declared <= a < declared + |names|
        ensures a in InitZeros(names, declared, st).cells
      {
        assert a in st1.cells || declared + 1 <= a < declared + 1 + |rest|;
        assert a in InitZeros(rest, declared + 1, st1).cells;
      }
    }
  }

  lemma {:induction false} BackwardsLength(names: seq<string>)
    ensures |Backwards(names)| == |names|
    decreases |names|
  {
    if names != [] {
      BackwardsLength(names[..|names| - 1]);
    }
  }

  ghost predicate HasCells(st: Memory, n: nat) {
    forall a | 0 <= a < n :: a in st.cells
  }

  // Every global has a cell once the initialisers have run.
  lemma {:induction false} GlobalCells(p: Program, ds: seq<Decl>, fuel: nat)
    requires InitGlobals(p, ds, fuel).Done?
    ensures HasCells(InitGlobals(p, ds, fuel).store, |GlobalNames(ds)|)
    decreases |ds|
  {
    hide Eval, GlobalEnv;
    if ds != [] {
      var before := ds[..|ds| - 1];
      GlobalCells(p, before, fuel);
      var names := GlobalNames(before);
      var st := InitGlobals(p, before, fuel).store;
      match ds[|ds| - 1] {
        case Let(_, _) =>
        case LetZero(zeros) =>
          ZeroCells(zeros, |names|, st);
          BackwardsLength(zeros);
          assert GlobalNames(ds) == names + Backwards(zeros);
          assert InitGlobals(p, ds, fuel).store == InitZeros(zeros, |names|, st);
      }
    }
  }

  lemma AllGlobalsEnd(p: Program, fuel: nat)
    requires RunProgram(p, fuel).Done?
    ensures HasCells(RunProgram(p, fuel).store, GlobalCount(p))
  {
    hide ExecBlock, GlobalNames, InitGlobals;
    GlobalCells(p, p.globals, fuel);
  }

  ghost predicate SameGlobals(m: State, n: State, globals: nat) {
    forall a | 0 <= a < globals :: a < 256 && m.mem[a] == n.mem[a]
  }

  // When the source run ends, the compiled programs with and without the cache
  // halt with the same output and the same value in every global.
  lemma CacheKeepsMemory(p: Program, fuel: nat) returns (t: nat, u: nat)
    requires Compilable(p, true) && Compilable(p, false)
    requires RunProgram(p, fuel).Done?
    ensures var m := Run(Output(p, true), RESET, t); var n := Run(Output(p, false), RESET, u);
      && Halted(Output(p, true), m) && Halted(Output(p, false), n) && m.output == n.output
      && SameGlobals(m, n, GlobalCount(p))
  {
    hide Step, Run, CompileProgram, SoundProgram, NoCapture, Output, RunProgram, GlobalCount;
    AllGlobalsEnd(p, fuel);
    t := ProgramPreserved(p, true, fuel);
    u := ProgramPreserved(p, false, fuel);
    SameCells(Run(Output(p, true), RESET, t), Run(Output(p, false), RESET, u), RunProgram(p, fuel).store,
      GlobalCount(p));
  }

  lemma SameCells(m: State, n: State, st: Memory, globals: nat)
    requires HasCells(st, globals)
    requires forall a | a in st.cells :: 0 <= a < 256 && m.mem[a] == st.cells[a] && n.mem[a] == st.cells[a]
    ensures SameGlobals(m, n, globals)
  {
  }

  // And while the source run goes on, both machines run and have printed what
  // it has printed, at any length of the source run.
  lemma CacheKeepsRunning(p: Program, fuel: nat) returns (t: nat, u: nat)
    requires Compilable(p, true) && Compilable(p, false)
    requires RunProgram(p, fuel).Timeout?
    ensures t >= fuel && u >= fuel
    ensures var m := Run(Output(p, true), RESET, t); var n := Run(Output(p, false), RESET, u);
      && !Halted(Output(p, true), m) && !Halted(Output(p, false), n)
      && m.output == n.output == RunProgram(p, fuel).output
  {
    hide Step, Run, CompileProgram, SoundProgram, NoCapture, Output, RunProgram;
    t := ProgramPreserved(p, true, fuel);
    u := ProgramPreserved(p, false, fuel);
  }
}
