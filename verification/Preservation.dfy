// The simulation: running compiled code does what the source interpreter does,
// for expressions, statements, blocks and function activations at once, by
// induction on the fuel and the syntax. When the interpreter runs out of fuel
// the machine has run at least as many steps without halting and has printed
// the same.
module Preservation {
  import opened Wrappers
  import opened Machine
  import opened Instructions
  import opened RegisterTable
  import opened Symbols
  import opened Syntax
  import opened Codegen
  import opened Shape
  import opened Execution
  import opened FrameSim
  import opened Source
  import opened Relation
  import opened ExpressionSim
  import opened CallSim
  import opened FunctionSim
  import opened StatementSim
  import opened ControlSim
  import opened Jumps
  import opened Linking

  // ---------- statements of the simulation ----------

  // The compiler at c works for the activation x of program p.
  ghost predicate Within(p: Program, c0: Compiler, image: Image, x: Setting, c: Compiler) {
    && Linked(p, c0, image)
    && x.p == p && x.visible <= |p.functions|
    && c.functions == Entries(p, c0, x.visible)
    && (x.visible > 0 ==> c.nextGlobal == GlobalCount(p))
  }

  // The cell under the locals and the operands the compiler holds in registers.
  function Below(x: Setting, c: Compiler): int {
    x.fp - c.nextLocal - |InUse(c.regs)|
  }

  predicate CallFree(e: Expr) {
    match e
    case Binary(_, left, right) => CallFree(left) && CallFree(right)
    case Not(operand) => CallFree(operand)
    case Deref(operand) => CallFree(operand)
    case Call(_, _) => false
    case _ => true
  }

  ghost predicate Evaluated(image: Image, c: Compiler, d: Compiler, r: int, fp: int, m: State, t: nat,
                            st: Memory, fuel: nat, outcome: Outcome<byte>) {
    match outcome
    case Done(v, st1) => Computed(c, d, r, fp, m, Run(image, m, t), st, st1, v)
    case Timeout(output) => Running(image, m, t, fuel, output)
    case Fault => true
  }

  // The same with what statements need to know of their operand.
  ghost predicate Obtained(image: Image, c: Compiler, d: Compiler, r: int, fp: int, m: State, t: nat,
                           st: Memory, fuel: nat, outcome: Outcome<byte>) {
    match outcome
    case Done(v, st1) => OperandReady(c, d, r, fp, m, Run(image, m, t), st, st1, v)
    case Timeout(output) => Running(image, m, t, fuel, output)
    case Fault => true
  }

  // The same for code that runs from m1, where the arguments are computed.
  ghost predicate CalledFrom(image: Image, c: Compiler, d: Compiler, r: int, fp: int, m: State, m1: State, t: nat,
                             st: Memory, fuel: nat, outcome: Outcome<byte>) {
    match outcome
    case Done(v, st1) => Computed(c, d, r, fp, m, Run(image, m1, t), st, st1, v)
    case Timeout(output) => Running(image, m1, t, fuel, output)
    case Fault => true
  }

  ghost predicate EvaluatedAll(image: Image, c: Compiler, d: Compiler, rs: seq<int>, fp: int, m: State, t: nat,
                               st: Memory, fuel: nat, outcome: Outcome<seq<byte>>) {
    match outcome
    case Done(vs, st1) => Gathered(c, d, rs, fp, m, Run(image, m, t), st, st1, vs)
    case Timeout(output) => Running(image, m, t, fuel, output)
    case Fault => true
  }

  ghost predicate Activated(p: Program, image: Image, m: State, t: nat, sp: int, st: Memory, fuel: nat,
                            outcome: Outcome<byte>) {
    match outcome
    case Done(v, st1) => CallDone(p, m, Run(image, m, t), sp, st, st1, v)
    case Timeout(output) => Running(image, m, t, fuel, output)
    case Fault => true
  }

  ghost predicate Executed(image: Image, c: Compiler, d: Compiler, x: Setting, m: State, t: nat,
                           st: Memory, fuel: nat, outcome: Outcome<Control>) {
    match outcome
    case Done(Next(env, locals), st1) => Continued(c, d, x.fp, m, Run(image, m, t), st, st1, env, locals)
    case Done(Back(v), st1) => !x.inMain && Returned(c, x.fp, m, Run(image, m, t), st, st1, v)
    case Timeout(output) => Running(image, m, t, fuel, output)
    case Fault => true
  }

  // A statement is about to run in the body of a function or of main.
  ghost predicate StatementReady(p: Program, c0: Compiler, image: Image, x: Setting, env: Env, c: Compiler, m: State,
                                 st: Memory) {
    && Within(p, c0, image, x, c) && c.inside && c.nextGlobal == GlobalCount(p)
    && Idle(c.regs) && Visible(c, env) && Matches(c, x.fp, m, st)
    && FrameIntact(x.fp, x.inMain, st)
  }

  // ---------- small facts ----------

  lemma InUseTakes(t: Table, u: Table, r: int)
    requires Takes(t, u, r)
    ensures |InUse(u)| == |InUse(t)| + 1
  {
    assert InUse(u) == InUse(t) + {r};
  }

  lemma IdleCount(t: Table)
    requires Idle(t)
    ensures |InUse(t)| == 0
  {
    assert InUse(t) == {};
  }

  lemma StaysWithin(p: Program, c0: Compiler, image: Image, x: Setting, c: Compiler, d: Compiler, r: int, env: Env)
    requires Within(p, c0, image, x, c) && Visible(c, env) && Delivers(c, d, r)
    ensures Within(p, c0, image, x, d) && Visible(d, env)
    ensures Below(x, d) == Below(x, c) - 1
  {
    hide Linked;
    InUseTakes(c.regs, d.regs, r);
  }

  lemma UnaryParts(image: Image, e: Expr, c: Compiler) returns (c1: Compiler, r: int)
    requires (e.Not? || e.Deref?) && Expression(e, c).Success? && Emitted(image, c, Expression(e, c).value.0)
    ensures Expression(e.operand, c) == Success((c1, r)) && Delivers(c, c1, r) && Emitted(image, c, c1)
    ensures var d := UnaryExpression(c1, if e.Not? then NOT else LDI, r);
      Expression(e, c) == Success((d, r)) && Emitted(image, c1, d)
  {
    ExpressionShape(e.operand, c);
    c1, r := Expression(e.operand, c).value.0, Expression(e.operand, c).value.1;
    EmittedSplit(image, c, c1, UnaryExpression(c1, if e.Not? then NOT else LDI, r));
  }

  lemma BinaryParts(image: Image, e: Expr, c: Compiler) returns (c1: Compiler, l: int, c2: Compiler, r: int)
    requires e.Binary? && Expression(e, c).Success? && Emitted(image, c, Expression(e, c).value.0)
    ensures Expression(e.left, c) == Success((c1, l)) && Delivers(c, c1, l) && Emitted(image, c, c1)
    ensures Expression(e.right, c1) == Success((c2, r)) && Delivers(c1, c2, r) && Emitted(image, c1, c2)
    ensures Expression(e, c) == Success((BinaryExpression(c2, e.op, l, r), l))
    ensures Emitted(image, c2, BinaryExpression(c2, e.op, l, r))
  {
    ExpressionShape(e.left, c);
    c1, l := Expression(e.left, c).value.0, Expression(e.left, c).value.1;
    ExpressionShape(e.right, c1);
    c2, r := Expression(e.right, c1).value.0, Expression(e.right, c1).value.1;
    var d := BinaryExpression(c2, e.op, l, r);
    EmittedSplit(image, c, c1, d);
    EmittedSplit(image, c1, c2, d);
  }

  // ---------- expressions ----------

  lemma {:induction false} Expressions(p: Program, c0: Compiler, image: Image, x: Setting, e: Expr, env: Env,
                                       c: Compiler, m: State, st: Memory, fuel: nat) returns (t: nat)
    requires Within(p, c0, image, x, c) && Expression(e, c).Success?
    requires Emitted(image, c, Expression(e, c).value.0)
    requires Visible(c, env) && Matches(c, x.fp, m, st)
    ensures var (d, r) := Expression(e, c).value;
      Evaluated(image, c, d, r, x.fp, m, t, st, fuel, Eval(x, e, env, Below(x, c), st, fuel))
    ensures CallFree(e) && Eval(x, e, env, Below(x, c), st, fuel).Done? ==> Quiet(m, Run(image, m, t))
    decreases fuel, 0, e, 2
  {
    hide Step, Linked;
    t := 0;
    match e
    case Num(n) => t := ConstantSim(image, c, n, x.fp, m, st);
    case Var(name) =>
      if name !in env {
        t := UndeclaredSim(image, c, name, x.fp, m, st);
      } else if Live(name, env, x.fp, st) {
        t := VariableSim(image, c, name, env, x.fp, m, st);
      }
    case AddressOf(name) =>
      if name in env && env[name].Known? {
        t := AddressSim(image, c, name, env, x.fp, m, st);
      }
    case Not(operand) => t := NotCase(p, c0, image, x, e, env, c, m, st, fuel);
    case Deref(operand) => t := DerefCase(p, c0, image, x, e, env, c, m, st, fuel);
    case Binary(_, _, _) => t := BinaryCase(p, c0, image, x, e, env, c, m, st, fuel);
    case Call(_, _) => t := CallCase(p, c0, image, x, e, env, c, m, st, fuel);
  }

  lemma {:induction false} NotCase(p: Program, c0: Compiler, image: Image, x: Setting, e: Expr, env: Env,
                                   c: Compiler, m: State, st: Memory, fuel: nat) returns (t: nat)
    requires e.Not?
    requires Within(p, c0, image, x, c) && Expression(e, c).Success?
    requires Emitted(image, c, Expression(e, c).value.0)
    requires Visible(c, env) && Matches(c, x.fp, m, st)
    ensures var (d, r) := Expression(e, c).value;
      Evaluated(image, c, d, r, x.fp, m, t, st, fuel, Eval(x, e, env, Below(x, c), st, fuel))
    ensures CallFree(e) && Eval(x, e, env, Below(x, c), st, fuel).Done? ==> Quiet(m, Run(image, m, t))
    decreases fuel, 0, e, 0
  {
    hide Step, Linked, Entries, Visible, Expression, Emitted, Delivers, Matches, Coherent, Untouched, UnaryExpression;
    var c1, r := UnaryParts(image, e, c);
    t := Expressions(p, c0, image, x, e.operand, env, c, m, st, fuel);
    match Eval(x, e.operand, env, Below(x, c), st, fuel)
    case Done(v, st1) =>
      var u := NotSim(image, c, c1, r, x.fp, m, Run(image, m, t), st, st1, v);
      t := Compose(image, m, t, u);
    case _ =>
  }

  lemma {:induction false} DerefCase(p: Program, c0: Compiler, image: Image, x: Setting, e: Expr, env: Env,
                                     c: Compiler, m: State, st: Memory, fuel: nat) returns (t: nat)
    requires e.Deref?
    requires Within(p, c0, image, x, c) && Expression(e, c).Success?
    requires Emitted(image, c, Expression(e, c).value.0)
    requires Visible(c, env) && Matches(c, x.fp, m, st)
    ensures var (d, r) := Expression(e, c).value;
      Evaluated(image, c, d, r, x.fp, m, t, st, fuel, Eval(x, e, env, Below(x, c), st, fuel))
    ensures CallFree(e) && Eval(x, e, env, Below(x, c), st, fuel).Done? ==> Quiet(m, Run(image, m, t))
    decreases fuel, 0, e, 0
  {
    hide Step, Linked, Entries, Visible, Expression, Emitted, Delivers, Matches, Coherent, Untouched, UnaryExpression;
    var c1, r := UnaryParts(image, e, c);
    t := Expressions(p, c0, image, x, e.operand, env, c, m, st, fuel);
    match Eval(x, e.operand, env, Below(x, c), st, fuel)
    case Done(a, st1) =>
      if a in st1.cells {
        var u := DerefSim(image, c, c1, r, x.fp, m, Run(image, m, t), st, st1, a);
        t := Compose(image, m, t, u);
      }
    case _ =>
  }

  lemma {:induction false} BinaryCase(p: Program, c0: Compiler, image: Image, x: Setting, e: Expr, env: Env,
                                      c: Compiler, m: State, st: Memory, fuel: nat) returns (t: nat)
    requires e.Binary?
    requires Within(p, c0, image, x, c) && Expression(e, c).Success?
    requires Emitted(image, c, Expression(e, c).value.0)
    requires Visible(c, env) && Matches(c, x.fp, m, st)
    ensures var (d, r) := Expression(e, c).value;
      Evaluated(image, c, d, r, x.fp, m, t, st, fuel, Eval(x, e, env, Below(x, c), st, fuel))
    ensures CallFree(e) && Eval(x, e, env, Below(x, c), st, fuel).Done? ==> Quiet(m, Run(image, m, t))
    decreases fuel, 0, e, 0
  {
    hide Step, Linked, Entries, Visible, Expression, Emitted, Delivers, Matches, Coherent, Untouched, BinaryExpression,
      Below, Apply;
    var c1, l, c2, r := BinaryParts(image, e, c);
    StaysWithin(p, c0, image, x, c, c1, l, env);
    t := Expressions(p, c0, image, x, e.left, env, c, m, st, fuel);
    match Eval(x, e.left, env, Below(x, c), st, fuel)
    case Done(v, st1) =>
      var m1 := Run(image, m, t);
      var u := Expressions(p, c0, image, x, e.right, env, c1, m1, st1, fuel);
      t := Compose(image, m, t, u);
      match Eval(x, e.right, env, Below(x, c1), st1, fuel) {
        case Done(w, st2) =>
          var o := BinarySim(image, c, c1, l, c2, r, e.op, x.fp, m, m1, Run(image, m, t), st, st1, st2, v, w);
          t := Compose(image, m, t, o);
        case _ =>
      }
    case _ =>
  }

  lemma {:induction false} CallCase(p: Program, c0: Compiler, image: Image, x: Setting, e: Expr, env: Env,
                                    c: Compiler, m: State, st: Memory, fuel: nat) returns (t: nat)
    requires e.Call?
    requires Within(p, c0, image, x, c) && Expression(e, c).Success?
    requires Emitted(image, c, Expression(e, c).value.0)
    requires Visible(c, env) && Matches(c, x.fp, m, st)
    ensures var (d, r) := Expression(e, c).value;
      Evaluated(image, c, d, r, x.fp, m, t, st, fuel, Eval(x, e, env, Below(x, c), st, fuel))
    decreases fuel, 0, e, 1
  {
    hide Step, FunctionLinked, Expression, Emitted, Collects, Visible, Matches, FrameFits, Prepared, FunctionCall,
      CallSequence, CallCode, Gathered, Computed, Activate, ArgumentList, Stage;
    var c1, c2 := CallParts(image, e, c);
    PendingIrrelevant(p, c0, image, x, env, c, c1, m, st);
    var rs;
    t, rs := ArgumentValues(p, c0, image, x, e.args, env, c1, m, st, fuel);
    match EvalArgs(x, e.args, env, Below(x, c), st, fuel)
    case Done(vs, st1) =>
      var m1 := Run(image, m, t);
      GatheredBefore(c, c1, c2, rs, x.fp, m, m1, st, st1, vs);
      FindAgrees(p, c0, x.visible, e.name);
      match Source.FindFunction(p.functions, x.visible, e.name) {
        case None =>
        case Some(j) =>
          if |vs| == |p.functions[j].parameters| && FrameFits(p, Below(x, c), |vs|) {
            if fuel == 0 {
              AtCall(image, c, c2, rs, e.name, x.fp, m, m1, st, st1, vs);
            } else {
              var u := CallRun(p, c0, image, x, e, c, c2, rs, vs, j, m, m1, st, st1, fuel);
              t := Compose(image, m, t, u);
            }
          }
      }
    case _ =>
  }

  lemma CallParts(image: Image, e: Expr, c: Compiler) returns (c1: Compiler, c2: Compiler)
    requires e.Call? && Expression(e, c).Success? && Emitted(image, c, Expression(e, c).value.0)
    ensures c1 == c.(pending := c.pending + [[]])
    ensures ArgumentList(e.args, c1) == Success(c2) && Emitted(image, c1, c2)
    ensures Expression(e, c) == FunctionCall(c2, e.name)
    ensures Emitted(image, c2, FunctionCall(c2, e.name).value.0)
  {
    c1 := BeginArguments(c).value;
    var rs := ArgumentListShape(e.args, c1);
    c2 := ArgumentList(e.args, c1).value;
    FunctionCallShape(c2, e.name);
    hide FunctionCall, ArgumentList;
    EmittedSplit(image, c1, c2, FunctionCall(c2, e.name).value.0);
  }

  lemma PendingIrrelevant(p: Program, c0: Compiler, image: Image, x: Setting, env: Env, c: Compiler, c1: Compiler,
                          m: State, st: Memory)
    requires c1 == c.(pending := c.pending + [[]])
    requires Within(p, c0, image, x, c) && Visible(c, env) && Matches(c, x.fp, m, st)
    ensures Within(p, c0, image, x, c1) && Visible(c1, env) && Matches(c1, x.fp, m, st)
    ensures Below(x, c1) == Below(x, c)
  {
    hide Linked, Entries;
  }

  lemma GatheredBefore(c: Compiler, c1: Compiler, c2: Compiler, rs: seq<int>, fp: int, m: State, m1: State,
                       st: Memory, st1: Memory, vs: seq<byte>)
    requires c1 == c.(pending := c.pending + [[]]) && Collects(c1, c2, rs)
    requires Gathered(c1, c2, rs, fp, m, m1, st, st1, vs)
    ensures Prepared(c, c2, rs) && c2.functions == c.functions
    ensures Gathered(c, c2, rs, fp, m, m1, st, st1, vs)
  {
    PreparedFacts(c, c2, rs);
  }

  // With the arguments computed and no fuel left the machine is still running.
  lemma AtCall(image: Image, c: Compiler, c2: Compiler, rs: seq<int>, name: string, fp: int, m: State, m1: State,
               st: Memory, st1: Memory, vs: seq<byte>)
    requires Gathered(c, c2, rs, fp, m, m1, st, st1, vs)
    requires FunctionCall(c2, name).Success? && Emitted(image, c2, FunctionCall(c2, name).value.0)
    ensures !Halted(image, m1) && m1.output == st1.output
  {
    var e := Codegen.FindFunction(c2.functions, name).value.address;
    CallCodeShape(c2, e);
    hide CallCode;
  }

  lemma EntryInImage(p: Program, c0: Compiler, image: Image, j: nat)
    requires Linked(p, c0, image) && j < |p.functions|
    ensures Stage(p, c0, j).Success? && |Stage(p, c0, j).value.code| < |image| <= 255
  {
    assert FunctionLinked(p, c0, image, j);
    StageNext(p, c0, j);
    FunctionDefinitionShape(p.functions[j], Stage(p, c0, j).value);
  }

  // Reaching the callee takes a step.
  lemma RunningLater(image: Image, m: State, t: nat, u: nat, fuel: nat, output: seq<byte>)
    requires t >= 1 && Running(image, Run(image, m, t), u, fuel, output)
    ensures Running(image, m, t + u, fuel + 1, output)
  {
    hide Step, Run;
    RunAdd(image, m, t, u);
  }

  // From the computed arguments through the callee to the result register.
  lemma {:induction false} CallRun(p: Program, c0: Compiler, image: Image, x: Setting, e: Expr, c: Compiler,
                                   c2: Compiler,
                                   rs: seq<int>, vs: seq<byte>, j: nat, m: State, m1: State, st: Memory, st1: Memory,
                                     fuel: nat)
    returns (t: nat)
    requires e.Call? && fuel > 0 && j < x.visible
    requires Within(p, c0, image, x, c) && Prepared(c, c2, rs) && c2.functions == c.functions
    requires Codegen.FindFunction(c.functions, e.name) == Some(Entries(p, c0, x.visible)[j])
    requires FunctionCall(c2, e.name).Success? && Emitted(image, c2, FunctionCall(c2, e.name).value.0)
    requires Gathered(c, c2, rs, x.fp, m, m1, st, st1, vs) && st1.cells.Keys == st.cells.Keys
    requires |vs| == |p.functions[j].parameters| && FrameFits(p, Below(x, c), |vs|)
    ensures var (d, r) := FunctionCall(c2, e.name).value;
      CalledFrom(image, c, d, r, x.fp, m, m1, t, st, fuel, Activate(p, j, vs, Below(x, c), st1, fuel - 1))
    decreases fuel, 0, e, 0
  {
    hide Step, FunctionLinked, Emitted, Matches, Prepared, FunctionCall, CallSequence, CallCode, Computed, Activate,
      FrameFits,
      Gathered, CallReady, CallDone, GlobalCount, InUse, Stage, AtEntry, Running, Codegen.FindFunction;
    var entry := Entries(p, c0, x.visible)[j].address;
    EntryInImage(p, c0, image, j);
    CallEmitted(image, c2, e.name);
    var t1 := EnterCall(p, image, c, c2, rs, vs, entry, x.fp, m, m1, st, st1);
    var n := Run(image, m1, t1);
    var t2 := Activations(p, c0, image, j, vs, Below(x, c), n, st1, fuel - 1);
    t := Compose(image, m1, t1, t2);
    match Activate(p, j, vs, Below(x, c), st1, fuel - 1)
    case Done(v, st2) =>
      var n2 := Run(image, n, t2);
      var t3 := FinishCall(p, image, c, c2, rs, vs, e.name, x.fp, m, m1, n, n2, st, st1, st2, v);
      t := Compose(image, m1, t, t3);
    case Timeout(output) => RunningLater(image, m1, t1, t2, fuel - 1, output);
    case Fault =>
  }

  lemma {:induction false} ArgumentValues(p: Program, c0: Compiler, image: Image, x: Setting, args: Args, env: Env,
                                          c: Compiler, m: State, st: Memory, fuel: nat) returns (t: nat, rs: seq<int>)
    requires Within(p, c0, image, x, c) && c.pending != [] && ArgumentList(args, c).Success?
    requires Emitted(image, c, ArgumentList(args, c).value)
    requires Visible(c, env) && Matches(c, x.fp, m, st)
    ensures var d := ArgumentList(args, c).value;
      && Collects(c, d, rs)
      && EvaluatedAll(image, c, d, rs, x.fp, m, t, st, fuel, EvalArgs(x, args, env, Below(x, c), st, fuel))
    decreases fuel, 0, args
  {
    hide Step, Linked, Entries, Visible, Expression, Emitted, Matches, Computed, Gathered, Collects, Delivers;
    match args
    case NoArgs =>
      rs := ArgumentListShape(args, c);
      t := 0;
      NothingGathered(c, x.fp, m, st);
    case Arg(first, rest) =>
      var c1, r, c2 := ArgParts(image, args, c);
      StaysWithin(p, c0, image, x, c, c1, r, env);
      t := Expressions(p, c0, image, x, first, env, c, m, st, fuel);
      match Eval(x, first, env, Below(x, c), st, fuel) {
        case Done(v, st1) =>
          var m1 := Run(image, m, t);
          AddedIrrelevant(p, c0, image, x, env, c, c1, r, c2, m, m1, st, st1, v);
          var u, more := ArgumentValues(p, c0, image, x, rest, env, c2, m1, st1, fuel);
          t := Compose(image, m, t, u);
          var d := ArgumentList(rest, c2).value;
          CollectsOneMore(c, c1, r, d, more);
          rs := [r] + more;
          match EvalArgs(x, rest, env, Below(x, c2), st1, fuel) {
            case Done(vs, st2) => GatheredOneMore(c, c1, r, c2, d, more, x.fp, m, m1, Run(image, m, t), st, st1, st2, v,
              vs);
            case _ =>
          }
        case _ =>
          rs := ArgumentListShape(args, c);
      }
  }

  lemma NothingGathered(c: Compiler, fp: int, m: State, st: Memory)
    requires Matches(c, fp, m, st)
    ensures Gathered(c, c, [], fp, m, m, st, st, [])
  {
  }

  lemma ArgParts(image: Image, args: Args, c: Compiler) returns (c1: Compiler, r: int, c2: Compiler)
    requires args.Arg? && c.pending != [] && ArgumentList(args, c).Success?
      && Emitted(image, c, ArgumentList(args, c).value)
    ensures Expression(args.first, c) == Success((c1, r)) && Delivers(c, c1, r) && Emitted(image, c, c1)
    ensures AddArgument(c1, r) == Success(c2) && c2.pending != [] && c2.code == c1.code
    ensures ArgumentList(args.rest, c2) == ArgumentList(args, c)
    ensures Emitted(image, c2, ArgumentList(args.rest, c2).value)
  {
    ExpressionShape(args.first, c);
    c1, r := Expression(args.first, c).value.0, Expression(args.first, c).value.1;
    c2 := AddArgument(c1, r).value;
    var more := ArgumentListShape(args.rest, c2);
    EmittedSplit(image, c, c1, ArgumentList(args.rest, c2).value);
  }

  lemma AddedIrrelevant(p: Program, c0: Compiler, image: Image, x: Setting, env: Env, c: Compiler, c1: Compiler, r: int,
                        c2: Compiler,
                        m: State, m1: State, st: Memory, st1: Memory, v: byte)
    requires Computed(c, c1, r, x.fp, m, m1, st, st1, v) && AddArgument(c1, r) == Success(c2)
    requires Within(p, c0, image, x, c1) && Visible(c1, env)
    ensures Within(p, c0, image, x, c2) && Visible(c2, env) && Matches(c2, x.fp, m1, st1)
    ensures Below(x, c2) == Below(x, c1)
  {
    hide Linked, Entries;
  }

  lemma GatheredOneMore(c: Compiler, c1: Compiler, r: int, c2: Compiler, d: Compiler, more: seq<int>, fp: int,
                        m: State, m1: State, m2: State, st: Memory, st1: Memory, st2: Memory, v: byte, vs: seq<byte>)
    requires Computed(c, c1, r, fp, m, m1, st, st1, v) && Delivers(c, c1, r)
    requires AddArgument(c1, r) == Success(c2) && Gathered(c2, d, more, fp, m1, m2, st1, st2, vs)
    requires st1.cells.Keys == st.cells.Keys
    ensures Gathered(c, d, [r] + more, fp, m, m2, st, st2, [v] + vs)
  {
    UntouchedTrans(m, m1, m2, st, st1, fp - c.nextLocal);
  }

  lemma {:induction false} Activations(p: Program, c0: Compiler, image: Image, j: nat, vs: seq<byte>, sp: int,
                                       m: State, st: Memory, fuel: nat) returns (t: nat)
    requires Linked(p, c0, image) && j < |p.functions| && |vs| == |p.functions[j].parameters|
    requires Stage(p, c0, j).Success? && m.pc == |Stage(p, c0, j).value.code| && CallReady(p, m, vs, sp, st)
    ensures Activated(p, image, m, t, sp, st, fuel, Activate(p, j, vs, sp, st, fuel))
    decreases fuel, 2
  {
    hide Step, FunctionLinked, Emitted, Matches, CallReady, CallDone, Entered, Returned, Stage, BeginFunction, BlockOf,
      EndFunction, SoundBody, Visible, EntryEnv, BindParameters, ParameterCells, GlobalCount, Entries;
    var c, c1, c2 := FunctionParts(p, c0, image, j);
    var f := p.functions[j];
    var fp := FrameBase(sp, |vs|);
    var x := Setting(p, j + 1, fp, false);
    var env := BindParameters(EntryEnv(p, j), f.parameters);
    var entered := st.(cells := st.cells + ParameterCells(fp, vs));
    var t1 := EntrySim(p, image, c, f.name, f.parameters, vs, sp, m, st);
    var n := Run(image, m, t1);
    EnteredMatches(p, c1, fp, m, n, st, vs, sp);
    var t2 := Blocks(p, c0, image, x, f.body, env, c1, n, entered, fuel);
    t := Compose(image, m, t1, t2);
    match ExecBlock(x, f.body, env, |vs|, entered, fuel)
    case Done(Next(_, _), st1) =>
      var e := Run(image, n, t2);
      var t3 := BodyFallsThrough(image, c1, c2, fp, n, e, entered, st1);
      t := Compose(image, m, t, t3);
      BackAtCaller(p, c1, fp, m, n, Run(image, m, t), st, st1, vs, sp, 0);
    case Done(Back(v), st1) =>
      BackAtCaller(p, c1, fp, m, n, Run(image, m, t), st, st1, vs, sp, v);
    case _ =>
  }

  lemma BodyFallsThrough(image: Image, c1: Compiler, c2: Compiler, fp: int, n: State, e: State,
                         entered: Memory, st1: Memory) returns (t: nat)
    requires Matches(c2, fp, e, st1) && Untouched(n, e, entered, fp - c1.nextLocal)
    requires FrameIntact(fp, false, entered) && st1.cells.Keys == entered.cells.Keys
    requires Emitted(image, c2, EndFunction(c2))
    ensures Returned(c1, fp, n, Run(image, e, t), entered, st1, 0)
  {
    hide Step, EndFunction, Emitted;
    t := FallThrough(image, c2, e, fp);
    assert e.mem[fp + 1] == n.mem[fp + 1] && e.mem[fp + 2] == n.mem[fp + 2];
  }

  // The three parts of function j's code and what the compiler knows at its body.
  lemma FunctionParts(p: Program, c0: Compiler, image: Image, j: nat) returns (c: Compiler, c1: Compiler, c2: Compiler)
    requires Linked(p, c0, image) && j < |p.functions|
    ensures Stage(p, c0, j) == Success(c)
    ensures var f := p.functions[j];
      && BeginFunction(c, f.name, f.parameters) == Success(c1) && Emitted(image, c, c1)
      && BlockOf(f.body, c1).Success? && BlockOf(f.body, c1).value.0 == c2 && Emitted(image, c1, c2)
      && Emitted(image, c2, EndFunction(c2))
      && c1.regs == INITIAL && c1.inside && c1.nextLocal == |f.parameters| && c1.nextGlobal == GlobalCount(p)
      && c1.functions == Entries(p, c0, j + 1)
      && Visible(c1, BindParameters(EntryEnv(p, j), f.parameters))
      && SoundBody(f.body, BeginBlock(c1))
  {
    assert FunctionLinked(p, c0, image, j);
    var f := p.functions[j];
    c := Stage(p, c0, j).value;
    StageShape(p, c0, j);
    StageNext(p, c0, j);
    EntriesNext(p, c0, j);
    c1 := BeginFunction(c, f.name, f.parameters).value;
    BeginFunctionShape(c, f.name, f.parameters);
    c2 := BlockOf(f.body, c1).value.0;
    FunctionSplit(image, f, c, c1, c2);
    BodyVisible(c, f, EntryEnv(p, j));
    hide BeginFunction, BlockOf, EndFunction, Emitted, Visible, EntryEnv, BindParameters, Stage, GlobalCount;
  }

  lemma FunctionSplit(image: Image, f: Function, c: Compiler, c1: Compiler, c2: Compiler)
    requires FunctionDefinition(f, c).Success? && Emitted(image, c, FunctionDefinition(f, c).value)
    requires BeginFunction(c, f.name, f.parameters) == Success(c1)
    requires BlockOf(f.body, c1).Success? && BlockOf(f.body, c1).value.0 == c2
    ensures Emitted(image, c, c1) && Emitted(image, c1, c2) && Emitted(image, c2, EndFunction(c2))
  {
    BeginFunctionShape(c, f.name, f.parameters);
    InitialUnbound();
    BlockShape(f.body, c1);
    EndFunctionShape(c2);
    assert FunctionDefinition(f, c).value == EndFunction(c2);
    hide FunctionDefinition, BeginFunction, BlockOf, EndFunction;
    EmittedSplit(image, c, c1, EndFunction(c2));
    EmittedSplit(image, c1, c2, EndFunction(c2));
  }

  lemma BodyVisible(c: Compiler, f: Function, env: Env)
    requires BeginFunction(c, f.name, f.parameters).Success? && Visible(c, env)
    ensures Visible(BeginFunction(c, f.name, f.parameters).value, BindParameters(env, f.parameters))
  {
    hide FunctionPrefix, ParameterLocals;
    BeginUnfolds(c, f.name, f.parameters);
    var c1 := EnterFunction(c, f.name, |f.parameters|);
    PrefixShape(c1);
    var c2 := FunctionPrefix(c1);
    assert Visible(c2, env);
    assert f.parameters[..0] == [];
    ParametersVisible(c2, f.parameters, 0, env);
  }

  // ---------- statements ----------

  lemma {:induction false} Blocks(p: Program, c0: Compiler, image: Image, x: Setting, body: Stmts, env: Env,
                                  c: Compiler, m: State, st: Memory, fuel: nat) returns (t: nat)
    requires StatementReady(p, c0, image, x, env, c, m, st)
    requires BlockOf(body, c).Success? && SoundBody(body, BeginBlock(c))
    requires Emitted(image, c, BlockOf(body, c).value.0)
    ensures Executed(image, c, BlockOf(body, c).value.0, x, m, t, st, fuel,
      ExecBlock(x, body, env, c.nextLocal, st, fuel))
    decreases fuel, 1, body, 1
  {
    hide Step, Linked, Entries, Matches, Coherent, Untouched, Visible, Emitted, Statements, EndBlock, BlockOf,
      SoundBody, Continues;
    var b := BeginBlock(c);
    var d1 := BlockParts(image, body, c);
    BlockReady(p, c0, image, x, env, c, m, st);
    t := Bodies(p, c0, image, x, body, env, b, m, st, fuel);
    match ExecAll(x, body, env, c.nextLocal, st, fuel)
    case Done(Next(env1, locals1), st1) =>
      var m1 := Run(image, m, t);
      var u := BlockDone(image, c, d1, x.fp, m, m1, st, st1, env, env1, locals1);
      t := Compose(image, m, t, u);
    case Done(Back(v), st1) => ReturnFromBlock(c, x.fp, m, Run(image, m, t), st, st1, v);
    case _ =>
  }

  lemma BlockParts(image: Image, body: Stmts, c: Compiler) returns (d1: Compiler)
    requires c.inside && Idle(c.regs)
    requires BlockOf(body, c).Success? && Emitted(image, c, BlockOf(body, c).value.0)
    ensures Statements(body, BeginBlock(c)) == Success(d1) && Continues(BeginBlock(c), d1)
    ensures BlockOf(body, c).value.0 == EndBlock(d1).0
    ensures Emitted(image, BeginBlock(c), d1) && Emitted(image, d1, EndBlock(d1).0)
  {
    var b := BeginBlock(c);
    d1 := Statements(body, b).value;
    StatementsShape(body, b);
    StackPopsShape(d1, d1.nextLocal - d1.scope.offsetBase);
    assert Extends(d1, EndBlock(d1).0);
    hide Statements, EndBlock;
    EmittedSplit(image, b, d1, EndBlock(d1).0);
  }

  lemma BlockReady(p: Program, c0: Compiler, image: Image, x: Setting, env: Env, c: Compiler, m: State, st: Memory)
    requires StatementReady(p, c0, image, x, env, c, m, st)
    ensures StatementReady(p, c0, image, x, env, BeginBlock(c), m, st)
  {
    hide Linked, Entries;
  }

  lemma BlockDone(image: Image, c: Compiler, d1: Compiler, fp: int, m: State, m1: State, st: Memory, st1: Memory,
                  env: Env, env1: Env, locals1: nat) returns (t: nat)
    requires Continues(BeginBlock(c), d1) && Emitted(image, d1, EndBlock(d1).0)
    requires Continued(BeginBlock(c), d1, fp, m, m1, st, st1, env1, locals1)
    requires Matches(c, fp, m, st) && Visible(c, env) && st.cells.Keys <= st1.cells.Keys
    ensures Continued(c, EndBlock(d1).0, fp, m, Run(image, m1, t), st, Restrict(st1, st.cells.Keys), env, c.nextLocal)
  {
    hide Step, EndBlock, Emitted, Continues;
    t := BlockExit(image, c, d1, fp, m, m1, st, st1, env);
  }

  lemma ReturnFromBlock(c: Compiler, fp: int, m: State, n: State, st: Memory, st1: Memory, v: byte)
    requires Returned(BeginBlock(c), fp, m, n, st, st1, v)
    ensures Returned(c, fp, m, n, st, Restrict(st1, st.cells.Keys), v)
  {
  }

  lemma {:induction false} Bodies(p: Program, c0: Compiler, image: Image, x: Setting, ss: Stmts, env: Env,
                                  c: Compiler, m: State, st: Memory, fuel: nat) returns (t: nat)
    requires StatementReady(p, c0, image, x, env, c, m, st)
    requires Statements(ss, c).Success? && SoundBody(ss, c)
    requires Emitted(image, c, Statements(ss, c).value)
    ensures Executed(image, c, Statements(ss, c).value, x, m, t, st, fuel, ExecAll(x, ss, env, c.nextLocal, st, fuel))
    decreases fuel, 1, ss, 0
  {
    hide Step, Linked, Entries, Matches, Coherent, Untouched, Visible, Emitted, Statement, SoundJumps, Continues,
      Returned, FrameIntact, Extended, Idle;
    match ss
    case Nil =>
      t := 0;
      NothingDone(p, c0, image, x, env, c, m, st);
    case Cons(head, tail) =>
      var c1 := SequenceParts(image, head, tail, c);
      t := OneStatement(p, c0, image, x, head, env, c, m, st, fuel);
      match Exec(x, head, env, c.nextLocal, st, fuel) {
        case Done(Next(env1, locals1), st1) =>
          var m1 := Run(image, m, t);
          ReadyAfter(p, c0, image, x, env, c, c1, m, m1, st, st1, env1, locals1);
          var u := Bodies(p, c0, image, x, tail, env1, c1, m1, st1, fuel);
          t := Compose(image, m, t, u);
          var d := Statements(tail, c1).value;
          match ExecAll(x, tail, env1, locals1, st1, fuel) {
            case Done(Next(env2, locals2), st2) =>
              ContinuedTwice(x, c, c1, d, m, m1, Run(image, m, t), st, st1, st2, env1, locals1, env2, locals2);
            case Done(Back(v), st2) =>
              ContinuedReturned(x, c, c1, m, m1, Run(image, m, t), st, st1, st2, env1, locals1, v);
            case _ =>
          }
        case _ =>
      }
  }

  lemma NothingDone(p: Program, c0: Compiler, image: Image, x: Setting, env: Env, c: Compiler, m: State, st: Memory)
    requires StatementReady(p, c0, image, x, env, c, m, st)
    ensures Continued(c, c, x.fp, m, m, st, st, env, c.nextLocal)
  {
    hide Linked, Entries;
  }

  lemma SequenceParts(image: Image, head: Stmt, tail: Stmts, c: Compiler) returns (c1: Compiler)
    requires c.inside && Idle(c.regs)
    requires Statements(Cons(head, tail), c).Success? && Emitted(image, c, Statements(Cons(head, tail), c).value)
    ensures Statement(head, c) == Success(c1) && Continues(c, c1) && Emitted(image, c, c1)
    ensures Statements(tail, c1) == Statements(Cons(head, tail), c)
    ensures Emitted(image, c1, Statements(tail, c1).value)
  {
    hide Statement;
    c1 := Statement(head, c).value;
    StatementShape(head, c);
    StatementsShape(tail, c1);
    EmittedSplit(image, c, c1, Statements(tail, c1).value);
  }

  lemma ReadyAfter(p: Program, c0: Compiler, image: Image, x: Setting, env: Env, c: Compiler, c1: Compiler,
                   m: State, m1: State, st: Memory, st1: Memory, env1: Env, locals1: nat)
    requires StatementReady(p, c0, image, x, env, c, m, st) && Continues(c, c1)
    requires Continued(c, c1, x.fp, m, m1, st, st1, env1, locals1)
    requires Extended(x, c.nextLocal, st, Next(env1, locals1), st1)
    ensures StatementReady(p, c0, image, x, env1, c1, m1, st1)
  {
    hide Linked, Entries;
  }

  lemma ContinuedTwice(x: Setting, c: Compiler, c1: Compiler, d: Compiler, m: State, m1: State, n: State,
                       st: Memory, st1: Memory, st2: Memory, env1: Env, locals1: nat, env2: Env, locals2: nat)
    requires Continued(c, c1, x.fp, m, m1, st, st1, env1, locals1)
    requires Continued(c1, d, x.fp, m1, n, st1, st2, env2, locals2)
    requires Extended(x, c.nextLocal, st, Next(env1, locals1), st1)
    ensures Continued(c, d, x.fp, m, n, st, st2, env2, locals2)
  {
  }

  lemma ContinuedReturned(x: Setting, c: Compiler, c1: Compiler, m: State, m1: State, n: State,
                          st: Memory, st1: Memory, st2: Memory, env1: Env, locals1: nat, v: byte)
    requires Continued(c, c1, x.fp, m, m1, st, st1, env1, locals1)
    requires Returned(c1, x.fp, m1, n, st1, st2, v)
    requires Extended(x, c.nextLocal, st, Next(env1, locals1), st1)
    requires FrameIntact(x.fp, x.inMain, st) && !x.inMain && Matches(c, x.fp, m, st)
    ensures Returned(c, x.fp, m, n, st, st2, v)
  {
  }

  lemma {:induction false} OneStatement(p: Program, c0: Compiler, image: Image, x: Setting, s: Stmt, env: Env,
                                        c: Compiler, m: State, st: Memory, fuel: nat) returns (t: nat)
    requires StatementReady(p, c0, image, x, env, c, m, st)
    requires Statement(s, c).Success? && SoundJumps(s, c)
    requires Emitted(image, c, Statement(s, c).value)
    ensures Executed(image, c, Statement(s, c).value, x, m, t, st, fuel, Exec(x, s, env, c.nextLocal, st, fuel))
    decreases fuel, 1, s, 1
  {
    hide Step, Linked, Entries, Matches, Coherent, Untouched, Visible, Emitted, Returned, Extended, Continued, BlockOf,
      IfStatement,
      Conditional, Expression;
    match s
    case Block(body) => t := Blocks(p, c0, image, x, body, env, c, m, st, fuel);
    case Declare(Let(name, init)) => t := LetCase(p, c0, image, x, name, init, env, c, m, st, fuel);
    case Declare(LetZero(names)) => t := ZerosCase(p, c0, image, x, names, env, c, m, st, fuel);
    case If(branch) => t := Ifs(p, c0, image, x, branch, env, c, m, st, fuel);
    case While(cond, body) =>
      Uncached(p, c0, image, x, env, c, m, st);
      t := Whiles(p, c0, image, x, s, env, c, m, st, fuel);
    case Store(_, _) => t := StoreCase(p, c0, image, x, s, env, c, m, st, fuel);
    case _ => t := UseCase(p, c0, image, x, s, env, c, m, st, fuel);
  }

  // ---------- simple statements ----------

  // A statement's expression: the value is in r and only r is in use.
  lemma {:induction false} OperandOf(p: Program, c0: Compiler, image: Image, x: Setting, e: Expr, env: Env,
                                     c: Compiler, m: State, st: Memory, fuel: nat) returns (t: nat)
    requires Within(p, c0, image, x, c) && Visible(c, env) && Matches(c, x.fp, m, st)
    requires Expression(e, c).Success? && Emitted(image, c, Expression(e, c).value.0)
    ensures var (d, r) := Expression(e, c).value;
      Obtained(image, c, d, r, x.fp, m, t, st, fuel, Eval(x, e, env, Below(x, c), st, fuel))
    decreases fuel, 0, e, 3
  {
    hide Step, Linked, Entries, Visible, Matches, Computed, Emitted, Delivers, Expression;
    ExpressionShape(e, c);
    t := Expressions(p, c0, image, x, e, env, c, m, st, fuel);
  }

  lemma IdleBelow(x: Setting, c: Compiler)
    requires Idle(c.regs)
    ensures Below(x, c) == x.fp - c.nextLocal
  {
    IdleCount(c.regs);
  }

  lemma {:induction false} LetCase(p: Program, c0: Compiler, image: Image, x: Setting, name: string, init: Expr,
                                   env: Env,
                                   c: Compiler, m: State, st: Memory, fuel: nat) returns (t: nat)
    requires StatementReady(p, c0, image, x, env, c, m, st)
    requires Declaration(Let(name, init), c).Success? && Emitted(image, c, Declaration(Let(name, init), c).value)
    ensures Executed(image, c, Declaration(Let(name, init), c).value, x, m, t, st, fuel,
      Exec(x, Declare(Let(name, init)), env, c.nextLocal, st, fuel))
    decreases fuel, 1, init
  {
    hide Step, Linked, Entries, Visible, Matches, OperandReady, Emitted, Expression, Continued, Codegen.DeclareLocal,
      GlobalCount;
    var c1, r := LetParts(image, name, init, c);
    IdleBelow(x, c);
    t := OperandOf(p, c0, image, x, init, env, c, m, st, fuel);
    match Eval(x, init, env, x.fp - c.nextLocal, st, fuel)
    case Done(v, st1) =>
      if x.fp - c.nextLocal >= GlobalCount(p) {
        var u := DeclareSim(image, c, c1, name, r, x.fp, m, Run(image, m, t), st, st1, v, env);
        t := Compose(image, m, t, u);
      }
    case _ =>
  }

  lemma LetParts(image: Image, name: string, init: Expr, c: Compiler) returns (c1: Compiler, r: int)
    requires c.inside && Declaration(Let(name, init), c).Success?
    requires Emitted(image, c, Declaration(Let(name, init), c).value)
    ensures Expression(init, c) == Success((c1, r)) && Emitted(image, c, c1)
    ensures Declaration(Let(name, init), c) == Success(Codegen.DeclareLocal(c1, name, r))
    ensures Emitted(image, c1, Codegen.DeclareLocal(c1, name, r))
  {
    ExpressionShape(init, c);
    c1, r := Expression(init, c).value.0, Expression(init, c).value.1;
    DeclareExtends(c1, name, r);
    hide Expression, Codegen.DeclareLocal;
    EmittedSplit(image, c, c1, Codegen.DeclareLocal(c1, name, r));
  }

  lemma DeclareExtends(c: Compiler, name: string, r: int)
    ensures Extends(c, Codegen.DeclareLocal(c, name, r))
  {
  }

  lemma {:induction false} ZerosCase(p: Program, c0: Compiler, image: Image, x: Setting, names: seq<string>, env: Env,
                                     c: Compiler, m: State, st: Memory, fuel: nat) returns (t: nat)
    requires StatementReady(p, c0, image, x, env, c, m, st)
    requires LetZeros(names, c).Success? && Emitted(image, c, LetZeros(names, c).value)
    ensures Executed(image, c, LetZeros(names, c).value, x, m, t, st, fuel,
      DeclareZeros(x, names, env, c.nextLocal, st))
    decreases |names|
  {
    hide Step, Linked, Entries, Visible, Matches, Emitted, ConstantLoad, Codegen.DeclareLocal, GlobalCount, Extended,
      Continues, FrameIntact,
      Idle, Untouched;
    if names == [] {
      t := 0;
      NothingDone(p, c0, image, x, env, c, m, st);
    } else {
      var name := names[|names| - 1];
      var rest := names[..|names| - 1];
      var c1 := ZeroParts(image, names, c);
      if x.fp - c.nextLocal >= GlobalCount(p) {
        var t1 := ZeroDeclared(image, x, name, env, c, c1, m, st);
        var m1 := Run(image, m, t1);
        var next := Source.DeclareLocal(x, name, 0, env, c.nextLocal, st);
        var env1, locals1, st1 := next.value.env, next.value.locals, next.store;
        ReadyAfter(p, c0, image, x, env, c, c1, m, m1, st, st1, env1, locals1);
        var t2 := ZerosCase(p, c0, image, x, rest, env1, c1, m1, st1, fuel);
        t := Compose(image, m, t1, t2);
        match DeclareZeros(x, rest, env1, locals1, st1)
        case Done(Next(env2, locals2), st2) =>
          ContinuedTwice(x, c, c1, LetZeros(rest, c1).value, m, m1, Run(image, m, t), st, st1, st2, env1, locals1, env2,
            locals2);
        case _ =>
      } else {
        t := 0;
      }
    }
  }

  lemma ZeroParts(image: Image, names: seq<string>, c: Compiler) returns (c1: Compiler)
    requires names != [] && c.inside && Idle(c.regs)
    requires LetZeros(names, c).Success? && Emitted(image, c, LetZeros(names, c).value)
    ensures EmptyDeclaration(c, names[|names| - 1]) == Success(c1) && Continues(c, c1) && Emitted(image, c, c1)
    ensures LetZeros(names[..|names| - 1], c1) == LetZeros(names, c)
    ensures Emitted(image, c1, LetZeros(names[..|names| - 1], c1).value)
  {
    var name := names[|names| - 1];
    var (b, r) := ConstantLoad(c, 0).value;
    FreedIsIdle(c, b, r);
    DeclarationEffect(b, name, r);
    c1 := VariableDeclaration(b, name, r);
    LetZerosShape(names[..|names| - 1], c1);
    assert Continues(c, c1);
    hide ConstantLoad, VariableDeclaration;
    EmittedSplit(image, c, c1, LetZeros(names, c).value);
  }

  lemma ZeroDeclared(image: Image, x: Setting, name: string, env: Env, c: Compiler, c1: Compiler, m: State, st: Memory)
    returns (t: nat)
    requires c.inside && EmptyDeclaration(c, name) == Success(c1) && Emitted(image, c, c1)
    requires Visible(c, env) && Matches(c, x.fp, m, st) && x.fp - c.nextLocal >= c.nextGlobal
    ensures Continued(c, c1, x.fp, m, Run(image, m, t), st, st.(cells := st.cells[x.fp - c.nextLocal := 0]),
      env[name := Known(Local(c.nextLocal))], c.nextLocal + 1)
  {
    hide Step, ConstantLoad, Codegen.DeclareLocal, Visible, Continued, Matches, Emitted, Extends, Delivers, Run;
    var (b, r) := ConstantLoad(c, 0).value;
    ConstantLoadShape(c, 0);
    ZeroSplits(image, c, name);
    var t1 := ConstantSim(image, c, 0, x.fp, m, st);
    var m1 := Run(image, m, t1);
    var t2 := DeclareSim(image, c, b, name, r, x.fp, m, m1, st, st, 0, env);
    t := Compose(image, m, t1, t2);
  }

  lemma ZeroSplits(image: Image, c: Compiler, name: string)
    requires c.inside && EmptyDeclaration(c, name).Success? && Emitted(image, c, EmptyDeclaration(c, name).value)
    ensures ConstantLoad(c, 0).Success?
    ensures var (b, r) := ConstantLoad(c, 0).value;
      && EmptyDeclaration(c, name).value == Codegen.DeclareLocal(b, name, r)
      && b.nextLocal == c.nextLocal && b.nextGlobal == c.nextGlobal
      && Emitted(image, c, b) && Emitted(image, b, EmptyDeclaration(c, name).value)
  {
    hide ConstantLoad, Codegen.DeclareLocal;
    var (b, r) := ConstantLoad(c, 0).value;
    ConstantLoadShape(c, 0);
    DeclareExtends(b, name, r);
    EmittedSplit(image, c, b, EmptyDeclaration(c, name).value);
  }

  lemma {:induction false} StoreCase(p: Program, c0: Compiler, image: Image, x: Setting, s: Stmt, env: Env,
                                     c: Compiler, m: State, st: Memory, fuel: nat) returns (t: nat)
    requires s.Store?
    requires StatementReady(p, c0, image, x, env, c, m, st)
    requires Statement(s, c).Success? && Emitted(image, c, Statement(s, c).value)
    ensures Executed(image, c, Statement(s, c).value, x, m, t, st, fuel, Exec(x, s, env, c.nextLocal, st, fuel))
    decreases fuel, 1, s, 0
  {
    hide Step, Linked, Entries, Visible, Matches, Computed, Delivers, Emitted, Statement, Continued, PointerStore, Exec,
      Eval, OperandReady, Below, Untouched, Run;
    ExecStore(x, s, env, c.nextLocal, st, fuel);
    var c1, a, c2, r := StoreParts(image, s, c);
    IdleBelow(x, c);
    StaysWithin(p, c0, image, x, c, c1, a, env);
    t := OperandOf(p, c0, image, x, s.target, env, c, m, st, fuel);
    match Eval(x, s.target, env, x.fp - c.nextLocal, st, fuel)
    case Done(address, st1) =>
      var m1 := Run(image, m, t);
      OperandMatches(c, c1, a, x.fp, m, m1, st, st1, address);
      var u := OperandOf(p, c0, image, x, s.value, env, c1, m1, st1, fuel);
      t := Compose(image, m, t, u);
      match Eval(x, s.value, env, x.fp - c.nextLocal - 1, st1, fuel) {
        case Done(v, st2) =>
          if address in st2.cells {
            var o := PointerStoreSim(image, c, c1, a, c2, r, x.fp, m, m1, Run(image, m, t), st, st1, st2, address, v,
              env);
            t := Compose(image, m, t, o);
          }
        case _ =>
      }
    case _ =>
  }

  lemma ExecStore(x: Setting, s: Stmt, env: Env, locals: nat, st: Memory, fuel: nat)
    requires s.Store? && x.visible <= |x.p.functions|
    ensures Exec(x, s, env, locals, st, fuel) ==
      match Eval(x, s.target, env, x.fp - locals, st, fuel)
      case Timeout(output) => Timeout(output)
      case Fault => Fault
      case Done(a, st1) =>
        match Eval(x, s.value, env, x.fp - locals - 1, st1, fuel)
        case Timeout(output) => Timeout(output)
        case Fault => Fault
        case Done(v, st2) =>
          if a in st2.cells then Done(Next(env, locals), st2.(cells := st2.cells[a := v])) else Fault
  {
  }

  lemma OperandMatches(c: Compiler, d: Compiler, r: int, fp: int, m: State, n: State, st: Memory, st1: Memory, v: byte)
    requires OperandReady(c, d, r, fp, m, n, st, st1, v)
    ensures Matches(d, fp, n, st1)
  {
  }

  lemma StoreParts(image: Image, s: Stmt, c: Compiler) returns (c1: Compiler, a: int, c2: Compiler, r: int)
    requires s.Store? && Statement(s, c).Success? && Emitted(image, c, Statement(s, c).value)
    ensures Expression(s.target, c) == Success((c1, a)) && Delivers(c, c1, a) && Emitted(image, c, c1)
    ensures Expression(s.value, c1) == Success((c2, r)) && Delivers(c1, c2, r) && Emitted(image, c1, c2)
    ensures Statement(s, c) == Success(PointerStore(c2, a, r)) && Emitted(image, c2, PointerStore(c2, a, r))
  {
    ExpressionShape(s.target, c);
    c1, a := Expression(s.target, c).value.0, Expression(s.target, c).value.1;
    ExpressionShape(s.value, c1);
    c2, r := Expression(s.value, c1).value.0, Expression(s.value, c1).value.1;
    hide Expression;
    EmittedSplit(image, c, c1, PointerStore(c2, a, r));
    EmittedSplit(image, c1, c2, PointerStore(c2, a, r));
  }

  // Assignment, return, print and a bare expression.
  lemma {:induction false} UseCase(p: Program, c0: Compiler, image: Image, x: Setting, s: Stmt, env: Env,
                                   c: Compiler, m: State, st: Memory, fuel: nat) returns (t: nat)
    requires !Compound(s) && !s.Store?
    requires StatementReady(p, c0, image, x, env, c, m, st)
    requires Statement(s, c).Success? && Emitted(image, c, Statement(s, c).value)
    ensures Executed(image, c, Statement(s, c).value, x, m, t, st, fuel, Exec(x, s, env, c.nextLocal, st, fuel))
    decreases fuel, 1, s, 0
  {
    hide Step, Linked, Entries, Visible, Matches, OperandReady, Emitted, Statement, Continued, Returned, Exec, Eval,
      UseCode, UseResult, Below;
    ExecUse(x, s, env, c.nextLocal, st, fuel);
    var c1, r := UseParts(image, s, c);
    IdleBelow(x, c);
    t := OperandOf(p, c0, image, x, s.value, env, c, m, st, fuel);
    match Eval(x, s.value, env, x.fp - c.nextLocal, st, fuel)
    case Done(v, st1) =>
      var u := UseSim(image, x, s, env, c, c1, r, m, Run(image, m, t), st, st1, v, Statement(s, c).value);
      t := Compose(image, m, t, u);
    case _ =>
  }

  // What a statement does with the value of its expression, in both languages.
  function UseResult(x: Setting, s: Stmt, env: Env, locals: nat, st1: Memory, v: byte): (r: Outcome<Control>)
    requires !Compound(s) && !s.Store?
    ensures !r.Timeout?
  {
    match s
    case Assign(name, _) =>
      if name !in env then Done(Next(env, locals), st1)
      else if Live(name, env, x.fp, st1)
      then Done(Next(env, locals), st1.(cells := st1.cells[Cell(env[name].location, x.fp) := v]))
      else Fault
    case Return(_) => if x.inMain then Fault else Done(Back(v), st1)
    case Print(_) => Done(Next(env, locals), st1.(output := st1.output + [v]))
    case Discard(_) => Done(Next(env, locals), st1)
  }

  lemma ExecUse(x: Setting, s: Stmt, env: Env, locals: nat, st: Memory, fuel: nat)
    requires !Compound(s) && !s.Store? && x.visible <= |x.p.functions|
    ensures Exec(x, s, env, locals, st, fuel) ==
      match Eval(x, s.value, env, x.fp - locals, st, fuel)
      case Timeout(output) => Timeout(output)
      case Fault => Fault
      case Done(v, st1) => UseResult(x, s, env, locals, st1, v)
  {
  }

  function UseCode(s: Stmt, c1: Compiler, r: int): Compiler
    requires !Compound(s) && !s.Store?
  {
    match s
    case Assign(name, _) => VariableAssignment(c1, name, r)
    case Return(_) => ReturnStatement(c1, r)
    case Print(_) => PrintStatement(c1, r)
    case Discard(_) => DiscardExpression(c1, r)
  }

  lemma UseParts(image: Image, s: Stmt, c: Compiler) returns (c1: Compiler, r: int)
    requires !Compound(s) && !s.Store? && Idle(c.regs)
    requires Statement(s, c).Success? && Emitted(image, c, Statement(s, c).value)
    ensures Expression(s.value, c) == Success((c1, r)) && Delivers(c, c1, r) && Emitted(image, c, c1)
    ensures Statement(s, c) == Success(UseCode(s, c1, r)) && Emitted(image, c1, UseCode(s, c1, r))
  {
    ExpressionShape(s.value, c);
    c1, r := Expression(s.value, c).value.0, Expression(s.value, c).value.1;
    UseExtends(s, c1, r);
    hide Expression, VariableAssignment, ReturnStatement;
    EmittedSplit(image, c, c1, UseCode(s, c1, r));
  }

  lemma UseExtends(s: Stmt, c1: Compiler, r: int)
    requires !Compound(s) && !s.Store?
    ensures Extends(c1, UseCode(s, c1, r))
  {
    hide Extends, VariableAssignment, ReturnStatement, PrintStatement, DiscardExpression;
    match s
    case Assign(name, _) => AssignmentExtends(c1, name, r);
    case Return(_) => ReturnExtends(c1, r);
    case Print(_) => PrintExtends(c1, r);
    case Discard(_) => PrintExtends(c1, r);
  }

  lemma AssignmentExtends(c1: Compiler, name: string, r: int)
    ensures Extends(c1, VariableAssignment(c1, name, r))
  {
    hide ForgetMemory, BindMemory, Free;
  }

  lemma ReturnExtends(c1: Compiler, r: int)
    ensures Extends(c1, ReturnStatement(c1, r))
  {
    hide FunctionSuffix;
    SuffixShape(FreeRegister(Emit2(c1, COP, REG_RETURN, r), r));
  }

  lemma PrintExtends(c1: Compiler, r: int)
    ensures Extends(c1, PrintStatement(c1, r)) && Extends(c1, DiscardExpression(c1, r))
  {
  }

  lemma UseSim(image: Image, x: Setting, s: Stmt, env: Env, c: Compiler, c1: Compiler, r: int, m: State, m1: State,
               st: Memory, st1: Memory, v: byte, d: Compiler) returns (t: nat)
    requires !Compound(s) && !s.Store? && d == UseCode(s, c1, r) && Emitted(image, c1, d)
    requires OperandReady(c, c1, r, x.fp, m, m1, st, st1, v) && Visible(c, env) && FrameIntact(x.fp, x.inMain, st)
    ensures match UseResult(x, s, env, c.nextLocal, st1, v)
      case Done(Next(env1, locals1), st2) => Continued(c, d, x.fp, m, Run(image, m1, t), st, st2, env1, locals1)
      case Done(Back(w), st2) => !x.inMain && Returned(c, x.fp, m, Run(image, m1, t), st, st2, w)
      case _ => true
  {
    hide Step, OperandReady, Visible, Continued, Returned, Emitted, ReturnStatement, PrintStatement;
    t := 0;
    match s
    case Print(_) => t := PrintSim(image, c, c1, r, x.fp, m, m1, st, st1, v, env);
    case Return(_) =>
      if !x.inMain {
        t := ReturnSim(image, c, c1, r, x.fp, m, m1, st, st1, v);
      }
    case Discard(_) => DiscardSim(c, c1, r, x.fp, m, m1, st, st1, v, env);
    case Assign(name, _) =>
      if name !in env {
        UnassignedSim(c, c1, name, r, x.fp, m, m1, st, st1, v, env);
      } else if Live(name, env, x.fp, st1) {
        t := AssignSim(image, x, name, env, c, c1, r, m, m1, st, st1, v);
      }
  }

  lemma DiscardSim(c: Compiler, c1: Compiler, r: int, fp: int, m: State, m1: State, st: Memory, st1: Memory, v: byte,
                   env: Env)
    requires OperandReady(c, c1, r, fp, m, m1, st, st1, v) && Visible(c, env)
    ensures Continued(c, DiscardExpression(c1, r), fp, m, m1, st, st1, env, c.nextLocal)
  {
    InitialUnbound();
  }

  // An assignment to an undeclared name does nothing.
  lemma UnassignedSim(c: Compiler, c1: Compiler, name: string, r: int, fp: int, m: State, m1: State, st: Memory,
                      st1: Memory, v: byte, env: Env)
    requires OperandReady(c, c1, r, fp, m, m1, st, st1, v) && Visible(c, env) && name !in env
    ensures Continued(c, VariableAssignment(c1, name, r), fp, m, m1, st, st1, env, c.nextLocal)
  {
  }

  lemma AssignSim(image: Image, x: Setting, name: string, env: Env, c: Compiler, c1: Compiler, r: int, m: State,
                  m1: State,
                  st: Memory, st1: Memory, v: byte) returns (t: nat)
    requires OperandReady(c, c1, r, x.fp, m, m1, st, st1, v) && Visible(c, env)
    requires Live(name, env, x.fp, st1)
    requires Emitted(image, c1, VariableAssignment(c1, name, r))
    ensures Continued(c, VariableAssignment(c1, name, r), x.fp, m, Run(image, m1, t), st,
      st1.(cells := st1.cells[Cell(env[name].location, x.fp) := v]), env, c.nextLocal)
  {
    hide Step, Continued, Emitted, Computed;
    assert Lookup(c1.symbols, name) == Some(env[name].location);
    match env[name].location
    case Local(offset) => t := AssignLocalSim(image, c, c1, offset, r, x.fp, m, m1, st, st1, v, env);
    case Global(address) => t := StoreGlobalSim(image, c, c1, address, r, x.fp, m, m1, st, st1, v, env);
  }

  // ---------- control flow ----------

  // Forgetting the cache is always sound.
  lemma Uncached(p: Program, c0: Compiler, image: Image, x: Setting, env: Env, c: Compiler, m: State, st: Memory)
    requires StatementReady(p, c0, image, x, env, c, m, st)
    ensures StatementReady(p, c0, image, x, env, Reset(c), m, st)
  {
    hide Linked, Entries;
    InitialUnbound();
  }

  // What a condition and the block it guards do; `extra` - 1 is the distance
  // from the block's end to where a false condition leads.
  ghost predicate Guarded(image: Image, c: Compiler, d: Compiler, x: Setting, body: Stmts, env: Env, m: State, t: nat,
                          extra: int,
                          st: Memory, fuel: nat, condition: Outcome<byte>)
    requires x.visible <= |x.p.functions|
  {
    match condition
    case Done(v, st1) =>
      if v == 0 then
        t >= 1 && Arrived(|d.code| + extra - 1, c, x.fp, Run(image, m, t), st1)
          && Untouched(m, Run(image, m, t), st, x.fp - c.nextLocal)
      else
        t >= 1 && Executed(image, c, d, x, m, t, st, fuel, ExecBlock(x, body, env, c.nextLocal, st1, fuel))
    case Timeout(output) => Running(image, m, t, fuel, output)
    case Fault => true
  }

  lemma {:induction false} Guards(p: Program, c0: Compiler, image: Image, x: Setting, cond: Expr, body: Stmts,
                                  extra: int, env: Env,
                                  c: Compiler, m: State, st: Memory, fuel: nat) returns (t: nat)
    requires StatementReady(p, c0, image, x, env, c, m, st)
    requires Conditional(cond, body, c, extra).Success? && SoundGuarded(cond, body, c)
    requires Emitted(image, c, Conditional(cond, body, c, extra).value.0)
    requires extra >= 1 && |Conditional(cond, body, c, extra).value.0.code| + extra - 1 < 256
    ensures Guarded(image, c, Conditional(cond, body, c, extra).value.0, x, body, env, m, t, extra, st, fuel,
      Eval(x, cond, env, x.fp - c.nextLocal, st, fuel))
    decreases fuel, 1, body, 2
  {
    hide Step, Linked, Entries, Visible, Matches, OperandReady, Emitted, Continued, Returned, BlockOf, SoundBody,
      Expression, Conditional,
      Arrived, Encloses, Eval, ExecBlock, FrameIntact, Extends, Takes;
    var c1, r, c2, count := GuardParts(image, cond, body, c, extra);
    var cj := ConditionalJump(c1, r);
    var d := PatchConditional(c2, |c1.code|, count + extra);
    IdleBelow(x, c);
    t := OperandOf(p, c0, image, x, cond, env, c, m, st, fuel);
    match Eval(x, cond, env, x.fp - c.nextLocal, st, fuel)
    case Done(v, st1) =>
      var m1 := Run(image, m, t);
      var u := ConditionDecides(p, c0, image, x, env, c, c1, r, |d.code| + extra - 1, m, m1, st, st1, v);
      var w := Compose(image, m, t, u);
      t := w;
      if v != 0 {
        var m2 := Run(image, m1, u);
        var o := Blocks(p, c0, image, x, body, env, cj, m2, st1, fuel);
        t := Compose(image, m, w, o);
        BlockInGuard(image, c, c1, r, c2, count, count + extra, x, m, m2, w, o, st, st1, fuel,
          ExecBlock(x, body, env, c.nextLocal, st1, fuel));
      }
    case _ =>
  }

  lemma GuardParts(image: Image, cond: Expr, body: Stmts, c: Compiler, extra: int)
    returns (c1: Compiler, r: int, c2: Compiler, count: int)
    requires c.inside && Idle(c.regs)
    requires Conditional(cond, body, c, extra).Success? && SoundGuarded(cond, body, c)
    requires Emitted(image, c, Conditional(cond, body, c, extra).value.0)
    requires extra >= 1 && |Conditional(cond, body, c, extra).value.0.code| + extra - 1 < 256
    ensures Expression(cond, c) == Success((c1, r)) && Delivers(c, c1, r) && Emitted(image, c, c1)
    ensures var cj := ConditionalJump(c1, r);
      && BlockOf(body, cj) == Success((c2, count)) && Encloses(cj, c2, count) && Emitted(image, cj, c2)
      && SoundBody(body, BeginBlock(cj))
    ensures var d := PatchConditional(c2, |c1.code|, count + extra);
      && Conditional(cond, body, c, extra).value.0 == d && |d.code| == |c2.code|
      && |c1.code| < |image| && image[|c1.code|] == Instr(JF, r, |d.code| + extra - 1, 0)
  {
    hide Expression, BlockOf, SoundBody, SoundGuarded, Conditional;
    c1, r, c2, count := GuardUnfolds(cond, body, c, extra);
    ExpressionShape(cond, c);
    InitialUnbound();
    BlockShape(body, ConditionalJump(c1, r));
    GuardCode(image, c, c1, r, c2, count, extra);
  }

  lemma GuardUnfolds(cond: Expr, body: Stmts, c: Compiler, extra: int)
    returns (c1: Compiler, r: int, c2: Compiler, count: int)
    requires Conditional(cond, body, c, extra).Success? && SoundGuarded(cond, body, c)
    ensures Expression(cond, c) == Success((c1, r))
    ensures var cj := ConditionalJump(c1, r);
      BlockOf(body, cj) == Success((c2, count)) && SoundBody(body, BeginBlock(cj))
    ensures Conditional(cond, body, c, extra).value.0 == PatchConditional(c2, |c1.code|, count + extra)
  {
    hide Expression, BlockOf, SoundBody;
    c1, r := Expression(cond, c).value.0, Expression(cond, c).value.1;
    var cj := ConditionalJump(c1, r);
    c2, count := BlockOf(body, cj).value.0, BlockOf(body, cj).value.1;
  }

  lemma ConditionDecides(p: Program, c0: Compiler, image: Image, x: Setting, env: Env, c: Compiler, c1: Compiler,
                         r: int, target: int,
                         m: State, m1: State, st: Memory, st1: Memory, v: byte) returns (t: nat)
    requires StatementReady(p, c0, image, x, env, c, m, st)
    requires OperandReady(c, c1, r, x.fp, m, m1, st, st1, v)
    requires |c1.code| < |image| && image[|c1.code|] == Instr(JF, r, target, 0) && 0 <= target < 256
    ensures t == 1
    ensures var n := Run(image, m1, t);
      && Untouched(m, n, st, x.fp - c.nextLocal)
      && if v == 0 then Arrived(target, c, x.fp, n, st1)
         else StatementReady(p, c0, image, x, env, ConditionalJump(c1, r), n, st1)
  {
    hide Step, Linked, Entries;
    t := RunConditional(image, r, target, m1);
    InitialUnbound();
  }

  // The block's outcome, seen from before the condition.
  lemma BlockInGuard(image: Image, c: Compiler, c1: Compiler, r: int, c2: Compiler, count: int, offset: int, x: Setting,
                     m: State, m2: State, t: nat, o: nat, st: Memory, st1: Memory, fuel: nat, outcome: Outcome<Control>)
    requires Delivers(c, c1, r) && Encloses(ConditionalJump(c1, r), c2, count)
    requires m2 == Run(image, m, t) && Run(image, m, t + o) == Run(image, m2, o)
    requires Untouched(m, m2, st, x.fp - c.nextLocal) && st1.cells.Keys == st.cells.Keys
    requires FrameIntact(x.fp, x.inMain, st)
    requires Executed(image, ConditionalJump(c1, r), c2, x, m2, o, st1, fuel, outcome)
    ensures Executed(image, c, PatchConditional(c2, |c1.code|, offset), x, m, t + o, st, fuel, outcome)
  {
    hide Step;
  }

  lemma {:induction false} Ifs(p: Program, c0: Compiler, image: Image, x: Setting, i: IfStmt, env: Env,
                               c: Compiler, m: State, st: Memory, fuel: nat) returns (t: nat)
    requires StatementReady(p, c0, image, x, env, c, m, st)
    requires IfStatement(i, c).Success? && SoundIf(i, c)
    requires Emitted(image, c, IfStatement(i, c).value.0)
    ensures Executed(image, c, IfStatement(i, c).value.0, x, m, t, st, fuel, ExecIf(x, i, env, c.nextLocal, st, fuel))
    decreases fuel, 1, i
  {
    hide Step, Linked, Entries, Visible, Matches, Emitted, Continued, Returned, BlockOf, SoundBody, SoundGuarded,
      Expression, Conditional,
      Alternative, Arrived, Eval, ExecBlock, FrameIntact, Untouched, Idle;
    match i
    case IfThen(cond, thn) =>
      IfThenParts(p, c0, image, i, c);
      t := Guards(p, c0, image, x, cond, thn, 1, env, c, m, st, fuel);
      var d := Conditional(cond, thn, c, 1).value.0;
      match Eval(x, cond, env, x.fp - c.nextLocal, st, fuel) {
        case Done(v, st1) =>
          if v == 0 {
            SkippedTo(p, c0, image, x, env, c, d, m, Run(image, m, t), st, st1);
          }
        case _ =>
      }
    case IfElse(cond, thn, els) =>
      var c1, c2 := IfElseParts(p, c0, image, i, c);
      var d := IfStatement(i, c).value.0;
      t := Guards(p, c0, image, x, cond, thn, 2, env, c, m, st, fuel);
      match Eval(x, cond, env, x.fp - c.nextLocal, st, fuel) {
        case Done(v, st1) =>
          var m1 := Run(image, m, t);
          if v == 0 {
            ElseReached(p, c0, image, x, env, c, c1, m, m1, st, st1);
            var u := Blocks(p, c0, image, x, els, env, UnconditionalJump(c1), m1, st1, fuel);
            var w := t;
            t := Compose(image, m, t, u);
            ElseDone(image, x, c, c1, c2, d, m, m1, w, u, st, st1, fuel,
              ExecBlock(x, els, env, c.nextLocal, st1, fuel));
          } else {
            match ExecBlock(x, thn, env, c.nextLocal, st1, fuel) {
              case Done(Next(env1, locals1), st2) =>
                var u := ThenLeaves(image, x, env, c, c1, d, m, m1, st, st2);
                t := Compose(image, m, t, u);
              case _ =>
            }
          }
        case _ =>
      }
    case IfElseIf(cond, thn, rest) =>
      var c1, c2 := IfElseIfParts(p, c0, image, i, c);
      var d := IfStatement(i, c).value.0;
      t := Guards(p, c0, image, x, cond, thn, 2, env, c, m, st, fuel);
      match Eval(x, cond, env, x.fp - c.nextLocal, st, fuel) {
        case Done(v, st1) =>
          var m1 := Run(image, m, t);
          if v == 0 {
            ElseReached(p, c0, image, x, env, c, c1, m, m1, st, st1);
            var u := Ifs(p, c0, image, x, rest, env, UnconditionalJump(c1), m1, st1, fuel);
            var w := t;
            t := Compose(image, m, t, u);
            ElseDone(image, x, c, c1, c2, d, m, m1, w, u, st, st1, fuel,
              ExecIf(x, rest, env, c.nextLocal, st1, fuel));
          } else {
            if AlwaysReturns(thn) {
              ReturnsLeave(x, thn, env, c.nextLocal, st1, fuel);
            }
            match ExecBlock(x, thn, env, c.nextLocal, st1, fuel) {
              case Done(Next(env1, locals1), st2) =>
                var u := ThenLeaves(image, x, env, c, c1, d, m, m1, st, st2);
                t := Compose(image, m, t, u);
              case _ =>
            }
          }
        case _ =>
      }
  }

  // What an if statement leaves of the compiler's state.
  ghost predicate SameFrame(c: Compiler, d: Compiler) {
    && d.nextLocal == c.nextLocal && d.nextGlobal == c.nextGlobal && d.symbols == c.symbols && d.regs == INITIAL
    && d.inside == c.inside && d.functions == c.functions
  }

  lemma IfThenParts(p: Program, c0: Compiler, image: Image, i: IfStmt, c: Compiler)
    requires Linked(p, c0, image) && c.inside && Idle(c.regs)
    requires i.IfThen? && IfStatement(i, c).Success? && SoundIf(i, c) && Emitted(image, c, IfStatement(i, c).value.0)
    ensures Conditional(i.cond, i.thn, c, 1).Success? && SoundGuarded(i.cond, i.thn, c)
    ensures var d := Conditional(i.cond, i.thn, c, 1).value.0;
      d == IfStatement(i, c).value.0 && |d.code| < 256 && SameFrame(c, d)
  {
    hide FunctionLinked, Conditional, SoundGuarded;
    ConditionalShape(i.cond, i.thn, c, 1);
  }

  lemma IfElseParts(p: Program, c0: Compiler, image: Image, i: IfStmt, c: Compiler) returns (c1: Compiler, c2: Compiler)
    requires Linked(p, c0, image) && c.inside && Idle(c.regs)
    requires i.IfElse? && IfStatement(i, c).Success? && SoundIf(i, c) && Emitted(image, c, IfStatement(i, c).value.0)
    ensures Conditional(i.cond, i.thn, c, 2).Success? && Conditional(i.cond, i.thn, c, 2).value.0 == c1
    ensures SoundGuarded(i.cond, i.thn, c) && Emitted(image, c, c1) && |c1.code| + 1 < 256 && SameFrame(c, c1)
    ensures var cu := UnconditionalJump(c1);
      && BlockOf(i.els, cu).Success? && BlockOf(i.els, cu).value.0 == c2
      && SoundBody(i.els, BeginBlock(cu)) && Emitted(image, cu, c2)
    ensures var d := IfStatement(i, c).value.0;
      && SameFrame(c, d) && |d.code| == |c2.code| < 256 && SameFrame(c, c2)
      && |c1.code| < |image| && image[|c1.code|] == Instr(J, |d.code|, 0, 0)
  {
    hide FunctionLinked, Conditional, SoundGuarded, BlockOf, SoundBody, Alternative;
    c1 := Conditional(i.cond, i.thn, c, 2).value.0;
    ConditionalShape(i.cond, i.thn, c, 2);
    var d := IfStatement(i, c).value.0;
    c2 := AlternativeParts(i.els, c1);
    AlternativeShape(i.els, c1);
    EmittedSplit(image, c, c1, d);
    var count := BlockOf(i.els, UnconditionalJump(c1)).value.1;
    AlternativeCode(image, c1, c2, count);
  }

  lemma IfElseIfParts(p: Program, c0: Compiler, image: Image, i: IfStmt, c: Compiler)
    returns (c1: Compiler, c2: Compiler)
    requires Linked(p, c0, image) && c.inside && Idle(c.regs)
    requires i.IfElseIf? && IfStatement(i, c).Success? && SoundIf(i, c) && Emitted(image, c, IfStatement(i, c).value.0)
    ensures Conditional(i.cond, i.thn, c, 2).Success? && Conditional(i.cond, i.thn, c, 2).value.0 == c1
    ensures SoundGuarded(i.cond, i.thn, c) && Emitted(image, c, c1) && |c1.code| + 1 < 256 && SameFrame(c, c1)
    ensures var cu := UnconditionalJump(c1);
      && IfStatement(i.rest, cu).Success? && IfStatement(i.rest, cu).value.0 == c2
      && SoundIf(i.rest, cu) && Emitted(image, cu, c2)
    ensures var d := IfStatement(i, c).value.0;
      && SameFrame(c, d) && |d.code| == |c2.code| < 256 && SameFrame(c, c2)
      && (AlwaysReturns(i.thn) || (|c1.code| < |image| && image[|c1.code|] == Instr(J, |d.code|, 0, 0)))
  {
    hide FunctionLinked, Conditional, SoundGuarded, Codeless, AlwaysReturns, AlternativeIf;
    c1 := Conditional(i.cond, i.thn, c, 2).value.0;
    ConditionalShape(i.cond, i.thn, c, 2);
    AlternativeIfShape(i.rest, c1);
    EmittedSplit(image, c, c1, IfStatement(i, c).value.0);
    c2 := AlternativeIfParts(image, i.rest, c1);
  }

  lemma AlternativeIfParts(image: Image, rest: IfStmt, c1: Compiler) returns (c2: Compiler)
    requires c1.inside && AlternativeIf(rest, c1).Success? && |AlternativeIf(rest, c1).value.0.code| < 256
    requires Emitted(image, c1, AlternativeIf(rest, c1).value.0)
    ensures var cu := UnconditionalJump(c1);
      && IfStatement(rest, cu).Success? && IfStatement(rest, cu).value.0 == c2
      && Rejoins(cu, c2) && Emitted(image, cu, c2)
    ensures |AlternativeIf(rest, c1).value.0.code| == |c2.code|
    ensures Codeless(rest, c1.symbols) ==> |c1.code| < |image| && image[|c1.code|] == Instr(J, |c2.code|, 0, 0)
  {
    hide IfStatement, ConditionCode, Codeless;
    var cu := UnconditionalJump(c1);
    var count := IfStatement(rest, cu).value.1;
    c2 := IfStatement(rest, cu).value.0;
    InitialUnbound();
    IfShape(rest, cu);
    IfCount(rest, cu);
    ConditionCodeZero(rest, cu);
    AlternativeCode(image, c1, c2, count);
  }

  lemma AlternativeParts(els: Stmts, c1: Compiler) returns (c2: Compiler)
    requires c1.inside && Alternative(els, c1).Success?
    ensures var cu := UnconditionalJump(c1);
      && BlockOf(els, cu).Success? && BlockOf(els, cu).value.0 == c2
      && Encloses(cu, c2, BlockOf(els, cu).value.1)
      && Alternative(els, c1).value.0 == PatchUnconditional(c2, |c1.code|, BlockOf(els, cu).value.1 + 1)
  {
    hide BlockOf;
    var cu := UnconditionalJump(c1);
    InitialUnbound();
    BlockShape(els, cu);
    c2 := BlockOf(els, cu).value.0;
  }

  lemma SkippedTo(p: Program, c0: Compiler, image: Image, x: Setting, env: Env, c: Compiler, d: Compiler,
                  m: State, n: State, st: Memory, st1: Memory)
    requires StatementReady(p, c0, image, x, env, c, m, st) && SameFrame(c, d)
    requires Arrived(|d.code|, c, x.fp, n, st1) && Untouched(m, n, st, x.fp - c.nextLocal)
    ensures Continued(c, d, x.fp, m, n, st, st1, env, c.nextLocal)
  {
    hide Linked, Entries;
    ArrivedMatches(c, d, x.fp, n, st1);
  }

  lemma ElseReached(p: Program, c0: Compiler, image: Image, x: Setting, env: Env, c: Compiler, c1: Compiler,
                    m: State, n: State, st: Memory, st1: Memory)
    requires StatementReady(p, c0, image, x, env, c, m, st) && SameFrame(c, c1)
    requires Arrived(|c1.code| + 1, c, x.fp, n, st1) && st1.cells.Keys == st.cells.Keys
    ensures StatementReady(p, c0, image, x, env, UnconditionalJump(c1), n, st1)
  {
    hide Linked, Entries;
    InitialUnbound();
    ArrivedMatches(c, UnconditionalJump(c1), x.fp, n, st1);
  }

  lemma ElseDone(image: Image, x: Setting, c: Compiler, c1: Compiler, c2: Compiler, d: Compiler, m: State, m1: State,
                 t: nat, u: nat,
                 st: Memory, st1: Memory, fuel: nat, outcome: Outcome<Control>)
    requires SameFrame(c, c1) && SameFrame(c, d) && SameFrame(c, c2) && |d.code| == |c2.code|
    requires m1 == Run(image, m, t) && Run(image, m, t + u) == Run(image, m1, u)
    requires Untouched(m, m1, st, x.fp - c.nextLocal) && st1.cells.Keys == st.cells.Keys
    requires FrameIntact(x.fp, x.inMain, st)
    requires Executed(image, UnconditionalJump(c1), c2, x, m1, u, st1, fuel, outcome)
    ensures Executed(image, c, d, x, m, t + u, st, fuel, outcome)
  {
    hide Step;
  }

  lemma ThenLeaves(image: Image, x: Setting, env: Env, c: Compiler, c1: Compiler, d: Compiler, m: State, m1: State,
                   st: Memory, st1: Memory) returns (t: nat)
    requires SameFrame(c, d) && |d.code| < 256
    requires |c1.code| < |image| && image[|c1.code|] == Instr(J, |d.code|, 0, 0)
    requires Continued(c, c1, x.fp, m, m1, st, st1, env, c.nextLocal) && SameFrame(c, c1)
    ensures Continued(c, d, x.fp, m, Run(image, m1, t), st, st1, env, c.nextLocal)
  {
    hide Step;
    t := RunJump(image, |d.code|, m1);
    InitialUnbound();
  }

  lemma WhileParts(p: Program, c0: Compiler, image: Image, s: Stmt, c: Compiler) returns (c1: Compiler)
    requires Linked(p, c0, image) && c.inside
    requires s.While? && Statement(s, c).Success? && SoundJumps(s, c) && Emitted(image, c, Statement(s, c).value)
    ensures Conditional(s.cond, s.body, Reset(c), 2).Success? && Conditional(s.cond, s.body, Reset(c), 2).value.0 == c1
    ensures SoundGuarded(s.cond, s.body, Reset(c)) && Emitted(image, Reset(c), c1)
    ensures var d := Statement(s, c).value;
      && |d.code| == |c1.code| + 1 < 256 && SameFrame(Reset(c), c1) && SameFrame(Reset(c), d)
    ensures |c.code| <= |c1.code| < |image| && image[|c1.code|] == Instr(J, |c.code|, 0, 0)
  {
    hide FunctionLinked, Conditional, SoundGuarded;
    InitialUnbound();
    c1 := Conditional(s.cond, s.body, Reset(c), 2).value.0;
    ConditionalShape(s.cond, s.body, Reset(c), 2);
    EmittedSplit(image, Reset(c), c1, LoopBack(c1, |c.code|));
    LoopCode(image, c1, |c.code|);
  }

  lemma AtHead(p: Program, c0: Compiler, image: Image, x: Setting, env: Env, c: Compiler, m: State, st: Memory)
    requires StatementReady(p, c0, image, x, env, Reset(c), m, st) && |c.code| < |image|
    ensures Running(image, m, 0, 0, st.output)
  {
    hide Linked, Entries, Step;
  }

  lemma LoopsBack(p: Program, c0: Compiler, image: Image, x: Setting, env: Env, c: Compiler, c1: Compiler,
                  m: State, m1: State, st: Memory, st1: Memory) returns (t: nat)
    requires StatementReady(p, c0, image, x, env, Reset(c), m, st) && SameFrame(Reset(c), c1)
    requires Continued(Reset(c), c1, x.fp, m, m1, st, st1, env, c.nextLocal) && st1.cells.Keys == st.cells.Keys
    requires |c.code| <= |c1.code| < |image| <= 255 && image[|c1.code|] == Instr(J, |c.code|, 0, 0)
    ensures t == 1 && StatementReady(p, c0, image, x, env, Reset(c), Run(image, m1, t), st1)
    ensures Untouched(m, Run(image, m1, t), st, x.fp - c.nextLocal)
  {
    hide Step, Linked, Entries;
    t := RunJump(image, |c.code|, m1);
    InitialUnbound();
  }

  lemma IterationDone(image: Image, x: Setting, c: Compiler, d: Compiler, m: State, m1: State, t: nat, u: nat,
                      st: Memory, st1: Memory, fuel: nat, outcome: Outcome<Control>)
    requires fuel > 0 && t >= 1
    requires m1 == Run(image, m, t) && Run(image, m, t + u) == Run(image, m1, u)
    requires Untouched(m, m1, st, x.fp - c.nextLocal) && st1.cells.Keys == st.cells.Keys
    requires FrameIntact(x.fp, x.inMain, st)
    requires Executed(image, c, d, x, m1, u, st1, fuel - 1, outcome)
    ensures Executed(image, c, d, x, m, t + u, st, fuel, outcome)
  {
    hide Step;
  }

  // The loop from its head, where nothing is cached.
  lemma {:induction false} Whiles(p: Program, c0: Compiler, image: Image, x: Setting, s: Stmt, env: Env,
                                  c: Compiler, m: State, st: Memory, fuel: nat) returns (t: nat)
    requires s.While?
    requires StatementReady(p, c0, image, x, env, Reset(c), m, st)
    requires Statement(s, c).Success? && SoundJumps(s, c)
    requires Emitted(image, c, Statement(s, c).value)
    ensures Executed(image, c, Statement(s, c).value, x, m, t, st, fuel, Exec(x, s, env, c.nextLocal, st, fuel))
    decreases fuel, 1, s, 0
  {
    hide Step, FunctionLinked, Entries, Visible, Matches, Emitted, Statement, SoundGuarded, SoundJumps, Conditional,
      Arrived, Eval, ExecBlock, FrameIntact, Untouched, Idle;
    var c1 := WhileParts(p, c0, image, s, c);
    var d := Statement(s, c).value;
    t := 0;
    if fuel == 0 {
      AtHead(p, c0, image, x, env, c, m, st);
    } else {
      t := Guards(p, c0, image, x, s.cond, s.body, 2, env, Reset(c), m, st, fuel);
      match Eval(x, s.cond, env, x.fp - c.nextLocal, st, fuel) {
        case Done(v, st1) =>
          var m1 := Run(image, m, t);
          if v == 0 {
            SkippedTo(p, c0, image, x, env, Reset(c), d, m, m1, st, st1);
          } else {
            match ExecBlock(x, s.body, env, c.nextLocal, st1, fuel) {
              case Done(Next(_, _), st2) =>
                var u := LoopsBack(p, c0, image, x, env, c, c1, m, m1, st, st2);
                var w := Compose(image, m, t, u);
                var m2 := Run(image, m1, u);
                var o := Whiles(p, c0, image, x, s, env, c, m2, st2, fuel - 1);
                t := Compose(image, m, w, o);
                IterationDone(image, x, c, d, m, m2, w, o, st, st2, fuel, Exec(x, s, env, c.nextLocal, st2, fuel - 1));
              case _ =>
            }
          }
        case _ =>
      }
    }
  }
}
