// The semantic actions in the order the parser runs them (yacc.y), on a code
// generator that every action updates. Each method is proved to leave it as
// Codegen's function for the same nonterminal says.
module Actions {
  import opened Wrappers
  import opened Machine
  import opened Instructions
  import opened Listing
  import opened Syntax
  import opened ScopeChain
  import opened Generator
  import C = Codegen
  import Shape
  import Linking
  import ProgramSim
  import StatementSim
  import Jumps

  method Expression(g: Generator, e: Expr) returns (r: Result<int, C.Error>)
    requires g.Valid()
    modifies g.Repr
    ensures g.Yields(C.Expression(e, old(g.State())), r)
    decreases e
  {
    hide Generator.Valid, Generator.State, C.ConstantLoad, C.VariableLoad, C.VariableAddress, C.BinaryExpression,
      C.UnaryExpression, C.FunctionCall, C.BeginArguments;
    match e
    case Num(n) => r := g.ConstantLoad(n);
    case Var(name) => r := g.VariableLoad(name);
    case AddressOf(name) => r := g.VariableAddress(name);
    case Binary(op, left, right) =>
      var l :- Expression(g, left);
      var q :- Expression(g, right);
      g.BinaryExpression(op, l, q);
      return Success(l);
    case Not(operand) =>
      var q :- Expression(g, operand);
      g.UnaryExpression(NOT, q);
      return Success(q);
    case Deref(operand) =>
      var q :- Expression(g, operand);
      g.UnaryExpression(LDI, q);
      return Success(q);
    case Call(name, args) =>
      var _ :- g.BeginArguments();
      var _ :- ArgumentList(g, args);
      r := g.FunctionCall(name);
  }

  method ArgumentList(g: Generator, args: Args) returns (r: Result<(), C.Error>)
    requires g.Valid()
    modifies g.Repr
    ensures g.Ends(C.ArgumentList(args, old(g.State())), r)
    decreases args
  {
    hide Generator.Valid, Generator.State, C.Expression, C.AddArgument;
    match args
    case NoArgs => return Success(());
    case Arg(first, rest) =>
      var q :- Expression(g, first);
      var _ :- g.AddArgument(q);
      r := ArgumentList(g, rest);
  }

  // MultivariableDeclaration: the last name first.
  method LetZeros(g: Generator, names: seq<string>) returns (r: Result<(), C.Error>)
    requires g.Valid()
    modifies g.Repr
    ensures g.Ends(C.LetZeros(names, old(g.State())), r)
  {
    hide Generator.Valid, Generator.State, C.EmptyDeclaration;
    if names == [] {
      return Success(());
    }
    var _ :- g.EmptyDeclaration(names[|names| - 1]);
    r := LetZeros(g, names[..|names| - 1]);
  }

  method Declaration(g: Generator, d: Decl) returns (r: Result<(), C.Error>)
    requires g.Valid()
    modifies g.Repr
    ensures g.Ends(C.Declaration(d, old(g.State())), r)
  {
    hide Generator.Valid, Generator.State, C.Expression, C.VariableDeclaration, C.LetZeros;
    match d
    case Let(name, init) =>
      var q :- Expression(g, init);
      g.VariableDeclaration(name, q);
      return Success(());
    case LetZero(names) => r := LetZeros(g, names);
  }

  method Statement(g: Generator, s: Stmt) returns (r: Result<(), C.Error>)
    requires g.Valid() && g.inside
    modifies g.Repr
    ensures g.Ends(C.Statement(s, old(g.State())), r)
    decreases s
  {
    hide Generator.Valid, Generator.State, C.Expression, C.VariableAssignment, C.PointerStore, C.ReturnStatement,
      C.PrintStatement, C.DiscardExpression, C.Declaration, C.BlockOf, C.IfStatement, C.Conditional, C.LoopBack;
    match s
    case Block(body) =>
      var _ :- Block(g, body);
      return Success(());
    case Declare(d) => r := Declaration(g, d);
    case Assign(name, value) =>
      var q :- Expression(g, value);
      g.VariableAssignment(name, q);
      return Success(());
    case Store(target, value) =>
      var a :- Expression(g, target);
      var q :- Expression(g, value);
      g.PointerStore(a, q);
      return Success(());
    case Return(value) =>
      var q :- Expression(g, value);
      g.ReturnStatement(q);
      return Success(());
    case Print(value) =>
      var q :- Expression(g, value);
      g.PrintStatement(q);
      return Success(());
    case Discard(value) =>
      var q :- Expression(g, value);
      g.DiscardExpression(q);
      return Success(());
    case If(branch) =>
      var _ :- IfStatement(g, branch);
      return Success(());
    case While(cond, body) => r := While(g, cond, body);
  }

  // IfCondition and the block it guards.
  method Conditional(g: Generator, cond: Expr, body: Stmts, extra: int) returns (r: Result<int, C.Error>)
    requires g.Valid() && g.inside
    modifies g.Repr
    ensures g.Yields(C.Conditional(cond, body, old(g.State()), extra), r)
    decreases body, 2
  {
    hide Generator.Valid, Generator.State, C.Expression, C.BlockOf, C.ConditionalJump, C.PatchConditional;
    var q :- Expression(g, cond);
    ghost var at := |g.State().code|;
    var jump := g.ConditionalJump(q);
    var count :- Block(g, body);
    g.PatchConditional(jump, at, count + extra);
    return Success(count);
  }

  // A loop emits code and ends in the scope it began in.
  lemma LoopStart(c: C.Compiler, cond: Expr, body: Stmts)
    requires c.inside && C.Conditional(cond, body, C.Reset(c), 2).Success?
    ensures var d := C.Conditional(cond, body, C.Reset(c), 2).value.0;
      d.scope == c.scope && |d.code| > |c.code|
  {
    StatementSim.InitialUnbound();
    Shape.ConditionalShape(cond, body, C.Reset(c), 2);
    var at := Jumps.ConditionalTarget(cond, body, C.Reset(c), 2);
    hide C.Conditional;
  }

  // The loop goes back to the instruction after the one that was last in the
  // scope when the condition began, or to NULL if the scope was empty.
  method While(g: Generator, cond: Expr, body: Stmts) returns (r: Result<(), C.Error>)
    requires g.Valid() && g.inside
    modifies g.Repr
    ensures g.Ends(C.Statement(Stmt.While(cond, body), old(g.State())), r)
    decreases body, 3
  {
    hide Generator.Valid, Generator.State, C.Conditional, C.LoopBack;
    ghost var c := g.State();
    var last := g.Last();
    g.Reset();
    var _ :- Conditional(g, cond, body, 2);
    LoopStart(c, cond, body);
    if last != null {
      g.Successor(|c.code| - 1);
      g.PointsTo(|c.code|);
    }
    var target := if last == null then null else last.next;
    g.LoopBack(target, if C.ScopeCount(c) > 0 then |c.code| else NO_TARGET);
    return Success(());
  }

  // The block after "else" and the jump over it.
  method Alternative(g: Generator, els: Stmts) returns (r: Result<int, C.Error>)
    requires g.Valid() && g.inside
    modifies g.Repr
    ensures g.Yields(C.Alternative(els, old(g.State())), r)
    decreases els, 2
  {
    hide Generator.Valid, Generator.State, C.BlockOf, C.UnconditionalJump, C.PatchUnconditional;
    ghost var at := |g.State().code|;
    var jump := g.UnconditionalJump();
    var count :- Block(g, els);
    g.PatchUnconditional(jump, at, count + 1);
    return Success(count);
  }

  method AlternativeIf(g: Generator, rest: IfStmt) returns (r: Result<int, C.Error>)
    requires g.Valid() && g.inside
    modifies g.Repr
    ensures g.Yields(C.AlternativeIf(rest, old(g.State())), r)
    decreases rest, 1
  {
    hide Generator.Valid, Generator.State, C.IfStatement, C.UnconditionalJump, C.PatchUnconditional;
    ghost var at := |g.State().code|;
    var jump := g.UnconditionalJump();
    var count :- IfStatement(g, rest);
    g.PatchUnconditional(jump, at, count + 1);
    return Success(count);
  }

  // The result is the grammar's $$.
  method IfStatement(g: Generator, i: IfStmt) returns (r: Result<int, C.Error>)
    requires g.Valid() && g.inside
    modifies g.Repr
    ensures g.Yields(C.IfStatement(i, old(g.State())), r)
    decreases i, 0
  {
    hide Generator.Valid, Generator.State, C.Conditional, C.Alternative, C.AlternativeIf;
    match i
    case IfThen(cond, thn) =>
      var count :- Conditional(g, cond, thn, 1);
      return Success(count + 1);
    case IfElse(cond, thn, els) =>
      var taken :- Conditional(g, cond, thn, 2);
      var count :- Alternative(g, els);
      return Success(taken + 1 + count + 1);
    case IfElseIf(cond, thn, rest) =>
      var taken :- Conditional(g, cond, thn, 2);
      var count :- AlternativeIf(g, rest);
      return Success(taken + 1 + count + 1);
  }

  method Block(g: Generator, body: Stmts) returns (r: Result<int, C.Error>)
    requires g.Valid() && g.inside
    modifies g.Repr
    ensures g.Yields(C.BlockOf(body, old(g.State())), r)
    decreases body, 1
  {
    hide Generator.Valid, Generator.State, C.Statements, C.BeginBlock, C.EndBlock;
    g.BeginBlock();
    var _ :- Statements(g, body);
    var count := g.EndBlock();
    return Success(count);
  }

  method Statements(g: Generator, ss: Stmts) returns (r: Result<(), C.Error>)
    requires g.Valid() && g.inside
    modifies g.Repr
    ensures g.Ends(C.Statements(ss, old(g.State())), r)
    decreases ss, 0
  {
    hide Generator.Valid, Generator.State, C.Statement;
    match ss
    case Nil => return Success(());
    case Cons(head, tail) =>
      var _ :- Statement(g, head);
      r := Statements(g, tail);
  }

  // GlobalDeclarationList, left recursive.
  method Globals(g: Generator, ds: seq<Decl>) returns (r: Result<(), C.Error>)
    requires g.Valid()
    modifies g.Repr
    ensures g.Ends(C.Globals(ds, old(g.State())), r)
  {
    hide Generator.Valid, Generator.State, C.Declaration;
    if ds == [] {
      return Success(());
    }
    var _ :- Globals(g, ds[..|ds| - 1]);
    r := Declaration(g, ds[|ds| - 1]);
  }

  // ParameterList
  method ParameterList(g: Generator, names: seq<string>) returns (r: Result<(), C.Error>)
    requires g.Valid()
    modifies g.Repr
    ensures r == if |names| > C.MAX_FUNCTION_PARAMETERS then Failure(C.TooManyParameters) else Success(())
    ensures r.Success? ==> g.Valid() && g.State() == old(g.State()) && g.parameters == names && g.Later()
  {
    hide Generator.Valid, Generator.State;
    g.ClearParameters();
    for i := 0 to |names|
      invariant g.Valid() && g.State() == old(g.State()) && g.parameters == names[..i] && g.Later()
      invariant i <= C.MAX_FUNCTION_PARAMETERS
    {
      var ok := g.AddParameter(names[i]);
      if !ok {
        return Failure(C.TooManyParameters);
      }
    }
    return Success(());
  }

  method FunctionDefinition(g: Generator, f: Function) returns (r: Result<(), C.Error>)
    requires g.Valid()
    modifies g.Repr
    ensures g.Reaches(C.FunctionDefinition(f, old(g.State())), r)
  {
    hide Generator.Valid, Generator.State, C.ParameterLocals, C.EnterFunction, C.FunctionPrefix, C.BlockOf,
      C.EndFunction;
    var _ :- ParameterList(g, f.parameters);
    BodyInside(f, g.State());
    var _ :- g.BeginFunction(f.name);
    var _ :- Block(g, f.body);
    g.EndFunction();
    return Success(());
  }

  lemma BodyInside(f: Function, c: C.Compiler)
    ensures C.BeginFunction(c, f.name, f.parameters).Success? ==> C.BeginFunction(c, f.name, f.parameters).value.inside
  {
    hide C.BeginFunction;
    if C.BeginFunction(c, f.name, f.parameters).Success? {
      Linking.BeginFunctionShape(c, f.name, f.parameters);
    }
  }

  // FunctionList, left recursive.
  method Functions(g: Generator, fs: seq<Function>) returns (r: Result<(), C.Error>)
    requires g.Valid()
    modifies g.Repr
    ensures g.Reaches(C.Functions(fs, old(g.State())), r)
  {
    hide Generator.Valid, Generator.State, C.FunctionDefinition;
    if fs == [] {
      return Success(());
    }
    var _ :- Functions(g, fs[..|fs| - 1]);
    r := FunctionDefinition(g, fs[|fs| - 1]);
  }

  // MainMethod; `start` is the position of the first jump.
  method MainMethod(g: Generator, body: Stmts, ghost start: nat) returns (r: Result<(), C.Error>)
    requires g.Valid() && g.mainJump != null && start < |g.chain.nodes| && g.chain.nodes[start] == g.mainJump
    modifies g.Repr
    ensures match C.BlockOf(body, C.BeginMain(old(g.State()), start))
      case Failure(e) => r == Failure(e)
      case Success((c, _)) => r.Success? && g.Valid() && g.State() == C.EndMain(c) && g.Later()
  {
    hide Generator.Valid, Generator.State, C.BlockOf, C.EndMain;
    g.BeginMain(start);
    var _ :- Block(g, body);
    g.EndMain();
    return Success(());
  }

  // main: parsing, resolution of the jumps, and the two output files.
  method Compile(p: Program) returns (r: Result<(string, seq<byte>), C.Error>)
    ensures match C.CompileProgram(p, true)
      case Failure(e) => r == Failure(e)
      case Success(c) => r == Success((Text(ResolveAll(c.code), 0), Packed(ResolveAll(c.code))))
  {
    hide Generator.Valid, Generator.State, C.Globals, C.Functions, C.BlockOf, C.ProgramStart, C.BeginMain, C.EndMain;
    var g := new Generator();
    var _ :- Globals(g, p.globals);
    ghost var start := |g.State().code|;
    g.ProgramStart();
    var _ :- Functions(g, p.functions);
    var _ :- MainMethod(g, p.main, start);
    EndsAtRoot(p);
    g.ResolveReferences();
    var text, binary := g.Write();
    return Success((text, binary));
  }

  // Every scope has been left when the program ends.
  lemma EndsAtRoot(p: Program)
    requires C.CompileProgram(p, true).Success?
    ensures C.CompileProgram(p, true).value.outer == []
  {
    hide C.Globals, C.Functions, C.BlockOf;
    ProgramSim.GlobalsShape(p.globals, true);
    var c1 := C.Globals(p.globals, C.Start(true)).value;
    var c2 := C.ProgramStart(c1);
    assert p.functions[..|p.functions|] == p.functions;
    Linking.StageShape(p, c2, |p.functions|);
    var c3 := C.BeginMain(C.Functions(p.functions, c2).value, |c1.code|);
    StatementSim.InitialUnbound();
    Shape.BlockShape(p.main, c3);
  }
}
