// How long the code of a program can get, read off the syntax tree.
module Sizes {
  import opened Wrappers
  import opened Machine
  import opened Instructions
  import opened RegisterTable
  import opened Symbols
  import opened Syntax
  import opened Codegen
  import opened Shape
  import opened StatementSim
  import opened CallSim
  import opened Linking
  import opened ProgramSim
  import opened Demand
  import Frames

  // ---------- expressions ----------

  // A call saves and reloads at most eleven registers, pushes and pops its
  // arguments, jumps and copies the result.
  function CallSize(arguments: nat): nat {
    6 * GENERALS + 5 * arguments + 3
  }

  function ExprSize(e: Expr): nat {
    match e
    case Num(_) => 1
    case Var(_) => 3
    case AddressOf(_) => 2
    case Binary(_, left, right) => ExprSize(left) + ExprSize(right) + 1
    case Not(operand) => ExprSize(operand) + 1
    case Deref(operand) => ExprSize(operand) + 1
    case Call(_, args) => ArgsSize(args) + CallSize(Length(args))
  }

  function ArgsSize(args: Args): nat {
    match args
    case NoArgs => 0
    case Arg(first, rest) => ExprSize(first) + ArgsSize(rest)
  }

  lemma LoadSize(c: Compiler, name: string)
    requires VariableLoad(c, name).Success?
    ensures |VariableLoad(c, name).value.0.code| <= |c.code| + 3
  {
    hide FindMemory, BindMemory, MarkTemporary;
  }

  lemma AddressSize(c: Compiler, name: string)
    requires VariableAddress(c, name).Success?
    ensures |VariableAddress(c, name).value.0.code| <= |c.code| + 2
  {
    hide MarkTemporary;
  }

  // Distinct general registers are at most eleven.
  lemma SavedAtMost(t: Table, args: seq<int>)
    ensures |Saved(t, args, 1)| <= GENERALS
  {
    SavedFacts(t, args, 1);
    var s := Saved(t, args, 1);
    DistinctCount(s);
    CountUpTo(GENERALS);
    hide UpTo;
    assert forall q | q in s :: 1 <= q <= 11;
    SubsetSize((set x | x in s), UpTo(GENERALS));
  }

  lemma CallSizeBound(c: Compiler, name: string)
    requires FunctionCall(c, name).Success?
    ensures |FunctionCall(c, name).value.0.code| <= |c.code| + CallSize(|Arguments(c)|)
  {
    hide Saved, PushRegisters, PushArguments, StackPops, RestoreRegisters;
    var args := Arguments(c);
    var saved := Saved(c.regs, args, 1);
    SavedAtMost(c.regs, args);
    var s0 := PushRegisters(c, saved);
    PushRegistersShape(c, saved);
    PushArgumentsShape(s0, args);
    PushRegistersShape(s0, args);
    var s1 := CallSequence(c, FindFunction(c.functions, name).value.address);
    StackPopsShape(s1, |args|);
    RestoreRegistersShape(StackPops(s1, |args|), saved);
  }

  lemma {:induction false} ExpressionSize(e: Expr, c: Compiler)
    requires Expression(e, c).Success?
    ensures |Expression(e, c).value.0.code| <= |c.code| + ExprSize(e)
    decreases e
  {
    hide VariableLoad, VariableAddress, FunctionCall;
    match e
    case Num(_) =>
    case Var(name) => LoadSize(c, name);
    case AddressOf(name) => AddressSize(c, name);
    case Binary(_, left, right) =>
      ExpressionSize(left, c);
      ExpressionSize(right, Expression(left, c).value.0);
    case Not(operand) => ExpressionSize(operand, c);
    case Deref(operand) => ExpressionSize(operand, c);
    case Call(name, args) =>
      var c1 := BeginArguments(c).value;
      ArgumentsSize(args, c1);
      var rs := ArgumentListShape(args, c1);
      var c2 := ArgumentList(args, c1).value;
      assert Arguments(c2) == rs;
      CallSizeBound(c2, name);
  }

  lemma {:induction false} ArgumentsSize(args: Args, c: Compiler)
    requires c.pending != [] && ArgumentList(args, c).Success?
    ensures |ArgumentList(args, c).value.code| <= |c.code| + ArgsSize(args)
    decreases args
  {
    hide Expression;
    match args
    case NoArgs =>
    case Arg(first, rest) =>
      ExpressionSize(first, c);
      ExpressionShape(first, c);
      var (c1, r) := Expression(first, c).value;
      ArgumentsSize(rest, AddArgument(c1, r).value);
  }

  // ---------- statements ----------

  const SUFFIX_SIZE := 8

  // The locals a statement list leaves to its block.
  function Locals(ss: Stmts): nat {
    match ss
    case Nil => 0
    case Cons(head, tail) => (match head case Declare(d) => Declared(d) case _ => 0) + Locals(tail)
  }

  function Declared(d: Decl): nat {
    match d
    case Let(_, _) => 1
    case LetZero(names) => |names|
  }

  function DeclSize(d: Decl): nat {
    match d
    case Let(_, init) => ExprSize(init) + 5
    case LetZero(names) => 6 * |names|
  }

  function StmtSize(s: Stmt): nat
    decreases s
  {
    match s
    case Block(body) => BlockSize(body)
    case Declare(d) => DeclSize(d)
    case Assign(_, value) => ExprSize(value) + 3
    case Store(target, value) => ExprSize(target) + ExprSize(value) + 1
    case Return(value) => ExprSize(value) + 1 + SUFFIX_SIZE
    case Print(value) => ExprSize(value) + 1
    case Discard(value) => ExprSize(value)
    case If(branch) => IfSize(branch)
    case While(cond, body) => GuardedSize(cond, body) + 1
  }

  function GuardedSize(cond: Expr, body: Stmts): nat
    decreases body, 2
  {
    ExprSize(cond) + 1 + BlockSize(body)
  }

  function IfSize(i: IfStmt): nat
    decreases i
  {
    GuardedSize(i.cond, i.thn) +
    match i
    case IfThen(_, _) => 0
    case IfElse(_, _, els) => 1 + BlockSize(els)
    case IfElseIf(_, _, rest) => 1 + IfSize(rest)
  }

  function BlockSize(ss: Stmts): nat
    decreases ss, 1
  {
    BodySize(ss) + 2 * Locals(ss)
  }

  function BodySize(ss: Stmts): nat
    decreases ss, 0
  {
    match ss
    case Nil => 0
    case Cons(head, tail) => StmtSize(head) + BodySize(tail)
  }

  lemma DeclareLength(c: Compiler, name: string, r: int)
    requires c.inside
    ensures var d := VariableDeclaration(c, name, r);
      |d.code| == |c.code| + 5 && d.nextLocal == c.nextLocal + 1 && d.inside
  {
  }

  lemma {:induction false} ZerosSize(names: seq<string>, c: Compiler)
    requires c.inside && LetZeros(names, c).Success?
    ensures var d := LetZeros(names, c).value;
      |d.code| == |c.code| + 6 * |names| && d.nextLocal == c.nextLocal + |names|
    decreases |names|
  {
    hide VariableDeclaration;
    if names != [] {
      var (c1, r) := ConstantLoad(c, 0).value;
      DeclareLength(c1, names[|names| - 1], r);
      ZerosSize(names[..|names| - 1], VariableDeclaration(c1, names[|names| - 1], r));
    }
  }

  lemma DeclarationSize(d: Decl, c: Compiler)
    requires c.inside && Declaration(d, c).Success?
    ensures |Declaration(d, c).value.code| <= |c.code| + DeclSize(d)
    ensures Declaration(d, c).value.nextLocal == c.nextLocal + Declared(d)
  {
    hide Expression, VariableDeclaration, LetZeros;
    match d
    case Let(name, init) =>
      ExpressionSize(init, c);
      ExpressionShape(init, c);
      DeclareLength(Expression(init, c).value.0, name, Expression(init, c).value.1);
    case LetZero(names) => ZerosSize(names, c);
  }

  lemma AssignmentLength(c: Compiler, name: string, r: int)
    ensures |VariableAssignment(c, name, r).code| <= |c.code| + 3
  {
    hide Free, ForgetMemory, BindMemory;
  }

  lemma SuffixLength(c: Compiler)
    ensures |FunctionSuffix(c).code| == |c.code| + SUFFIX_SIZE
  {
  }

  lemma ReturnLength(c: Compiler, r: int)
    ensures |ReturnStatement(c, r).code| == |c.code| + 1 + SUFFIX_SIZE
  {
    hide FunctionSuffix;
    SuffixLength(FreeRegister(Emit2(c, COP, REG_RETURN, r), r));
  }

  lemma {:induction false} StatementSize(s: Stmt, c: Compiler)
    requires c.inside && Idle(c.regs) && Statement(s, c).Success?
    ensures |Statement(s, c).value.code| <= |c.code| + StmtSize(s)
    ensures Statement(s, c).value.nextLocal == c.nextLocal + (match s case Declare(d) => Declared(d) case _ => 0)
    decreases s
  {
    hide Expression, BlockOf, IfStatement, Conditional, Declaration, VariableAssignment, ReturnStatement;
    match s
    case Block(body) => BlockLength(body, c);
    case Declare(d) => DeclarationSize(d, c);
    case If(branch) =>
      IfLength(branch, c);
      IfShape(branch, c);
    case While(cond, body) =>
      InitialUnbound();
      GuardedLength(cond, body, Reset(c), 2);
      ConditionalShape(cond, body, Reset(c), 2);
    case _ => SimpleSize(s, c);
  }

  lemma SimpleSize(s: Stmt, c: Compiler)
    requires !Compound(s) && Statement(s, c).Success?
    ensures |Statement(s, c).value.code| <= |c.code| + StmtSize(s) && Statement(s, c).value.nextLocal == c.nextLocal
  {
    hide Expression, VariableAssignment, ReturnStatement, ExprSize;
    Frames.OperandKeepsNames(s, c);
    var e := if s.Store? then s.target else s.value;
    ExpressionSize(e, c);
    var (c1, r) := Expression(e, c).value;
    match s
    case Assign(name, _) => AssignmentLength(c1, name, r);
    case Store(_, value) => ExpressionSize(value, c1);
    case Return(_) => ReturnLength(c1, r);
    case _ =>
  }

  lemma {:induction false} GuardedLength(cond: Expr, body: Stmts, c: Compiler, extra: int)
    requires c.inside && Idle(c.regs) && Conditional(cond, body, c, extra).Success?
    ensures |Conditional(cond, body, c, extra).value.0.code| <= |c.code| + GuardedSize(cond, body)
    decreases body, 2
  {
    hide Expression, BlockOf, ExprSize, BlockSize;
    ExpressionSize(cond, c);
    ExpressionShape(cond, c);
    InitialUnbound();
    var (c1, r) := Expression(cond, c).value;
    BlockLength(body, ConditionalJump(c1, r));
  }

  lemma {:induction false} IfLength(i: IfStmt, c: Compiler)
    requires c.inside && Idle(c.regs) && IfStatement(i, c).Success?
    ensures |IfStatement(i, c).value.0.code| <= |c.code| + IfSize(i)
    decreases i, 0
  {
    hide Conditional, BlockOf, GuardedSize, BlockSize;
    var extra := if i.IfThen? then 1 else 2;
    GuardedLength(i.cond, i.thn, c, extra);
    ConditionalShape(i.cond, i.thn, c, extra);
    InitialUnbound();
    var cu := UnconditionalJump(Conditional(i.cond, i.thn, c, extra).value.0);
    match i
    case IfThen(_, _) =>
    case IfElse(_, _, els) => BlockLength(els, cu);
    case IfElseIf(_, _, rest) => IfLength(rest, cu);
  }

  lemma {:induction false} BlockLength(body: Stmts, c: Compiler)
    requires c.inside && Idle(c.regs) && BlockOf(body, c).Success?
    ensures |BlockOf(body, c).value.0.code| <= |c.code| + BlockSize(body)
    ensures BlockOf(body, c).value.0.nextLocal == c.nextLocal
    decreases body, 1
  {
    hide Statements, StackPops;
    BodyLength(body, BeginBlock(c));
    BlockShape(body, c);
    StatementsShape(body, BeginBlock(c));
    var d := Statements(body, BeginBlock(c)).value;
    StackPopsShape(d, d.nextLocal - d.scope.offsetBase);
  }

  lemma {:induction false} BodyLength(ss: Stmts, c: Compiler)
    requires c.inside && Idle(c.regs) && Statements(ss, c).Success?
    ensures |Statements(ss, c).value.code| <= |c.code| + BodySize(ss)
    ensures Statements(ss, c).value.nextLocal == c.nextLocal + Locals(ss)
    decreases ss, 0
  {
    hide Statement, StmtSize;
    match ss
    case Nil =>
    case Cons(head, tail) =>
      StatementShape(head, c);
      StatementSize(head, c);
      BodyLength(tail, Statement(head, c).value);
  }

  // ---------- functions and programs ----------

  function FunctionSize(f: Function): nat {
    1 + 7 + 8 * |f.parameters| + BlockSize(f.body) + 1 + SUFFIX_SIZE
  }

  function FunctionsSize(fs: seq<Function>): nat {
    if fs == [] then 0 else FunctionsSize(fs[..|fs| - 1]) + FunctionSize(fs[|fs| - 1])
  }

  function GlobalSize(d: Decl): nat {
    match d
    case Let(_, init) => ExprSize(init) + 1
    case LetZero(names) => 2 * |names|
  }

  function GlobalsSize(ds: seq<Decl>): nat {
    if ds == [] then 0 else GlobalsSize(ds[..|ds| - 1]) + GlobalSize(ds[|ds| - 1])
  }

  function ProgramSize(p: Program): nat {
    GlobalsSize(p.globals) + 1 + FunctionsSize(p.functions) + 3 + BlockSize(p.main)
  }

  lemma ParameterLength(c: Compiler, name: string, i: nat, count: nat)
    requires ParameterLocal(c, name, i, count).Success?
    ensures |ParameterLocal(c, name, i, count).value.code| == |c.code| + 8
  {
  }

  lemma {:induction false} ParametersLength(c: Compiler, names: seq<string>, i: nat)
    requires i <= |names| && ParameterLocals(c, names, i).Success?
    ensures |ParameterLocals(c, names, i).value.code| == |c.code| + 8 * (|names| - i)
    decreases |names| - i
  {
    hide ParameterLocal;
    if i < |names| {
      ParameterLength(c, names[i], i, |names|);
      ParametersLength(ParameterLocal(c, names[i], i, |names|).value, names, i + 1);
    }
  }

  lemma PrefixLength(c: Compiler)
    ensures |FunctionPrefix(c).code| == |c.code| + 7
  {
  }

  lemma FunctionLength(f: Function, c: Compiler)
    requires FunctionDefinition(f, c).Success?
    ensures |FunctionDefinition(f, c).value.code| <= |c.code| + FunctionSize(f)
  {
    hide FunctionPrefix, ParameterLocals, BlockOf, FunctionSuffix, BlockSize;
    var c0 := EnterFunction(c, f.name, |f.parameters|);
    PrefixLength(c0);
    ParametersLength(FunctionPrefix(c0), f.parameters, 0);
    BeginFunctionShape(c, f.name, f.parameters);
    InitialUnbound();
    var c1 := BeginFunction(c, f.name, f.parameters).value;
    BlockLength(f.body, c1);
    SuffixLength(Emit2(BlockOf(f.body, c1).value.0, AFC, REG_RETURN, 0));
  }

  lemma {:induction false} FunctionsLength(fs: seq<Function>, c: Compiler)
    requires Functions(fs, c).Success?
    ensures |Functions(fs, c).value.code| <= |c.code| + FunctionsSize(fs)
    decreases |fs|
  {
    hide FunctionDefinition, FunctionSize;
    if fs != [] {
      FunctionsLength(fs[..|fs| - 1], c);
      FunctionLength(fs[|fs| - 1], Functions(fs[..|fs| - 1], c).value);
    }
  }

  lemma GlobalLength(c: Compiler, name: string, r: int)
    requires !c.inside
    ensures var d := VariableDeclaration(c, name, r); |d.code| == |c.code| + 1 && !d.inside
  {
    hide ForgetMemory, BindMemory;
  }

  lemma {:induction false} GlobalZerosLength(names: seq<string>, c: Compiler)
    requires !c.inside && LetZeros(names, c).Success?
    ensures |LetZeros(names, c).value.code| == |c.code| + 2 * |names|
    decreases |names|
  {
    hide VariableDeclaration;
    if names != [] {
      var (c1, r) := ConstantLoad(c, 0).value;
      GlobalLength(c1, names[|names| - 1], r);
      GlobalZerosLength(names[..|names| - 1], VariableDeclaration(c1, names[|names| - 1], r));
    }
  }

  lemma {:induction false} GlobalsLength(ds: seq<Decl>, caching: bool)
    requires Globals(ds, Start(caching)).Success?
    ensures |Globals(ds, Start(caching)).value.code| <= GlobalsSize(ds)
    decreases |ds|
  {
    hide Declaration, GlobalSize;
    if ds != [] {
      var before := ds[..|ds| - 1];
      GlobalsLength(before, caching);
      GlobalsShape(before, caching);
      OneGlobalLength(ds[|ds| - 1], Globals(before, Start(caching)).value);
    }
  }

  lemma OneGlobalLength(d: Decl, c: Compiler)
    requires !c.inside && Declaration(d, c).Success?
    ensures |Declaration(d, c).value.code| <= |c.code| + GlobalSize(d)
  {
    hide Expression, VariableDeclaration, LetZeros, ExprSize;
    match d
    case Let(name, init) =>
      ExpressionSize(init, c);
      ExpressionShape(init, c);
      GlobalLength(Expression(init, c).value.0, name, Expression(init, c).value.1);
    case LetZero(names) => GlobalZerosLength(names, c);
  }

  // The compiled program is no longer than its syntax says.
  lemma ProgramLength(p: Program, caching: bool)
    requires CompileProgram(p, caching).Success?
    ensures |CompileProgram(p, caching).value.code| <= ProgramSize(p)
  {
    hide Globals, Functions, BlockOf, BlockSize, GlobalsSize, FunctionsSize, BeginMain;
    GlobalsLength(p.globals, caching);
    var c1 := Globals(p.globals, Start(caching)).value;
    FunctionsLength(p.functions, ProgramStart(c1));
    var c2 := Functions(p.functions, ProgramStart(c1)).value;
    MainLength(c2, |c1.code|);
    InitialUnbound();
    BlockLength(p.main, BeginMain(c2, |c1.code|));
  }

  lemma MainLength(c: Compiler, start: nat)
    ensures var d := BeginMain(c, start); |d.code| == |c.code| + 3 && d.inside && d.regs == INITIAL
  {
  }
}
