// Which programs the compiler accepts, read off the syntax tree alone.
module Compilability {
  import opened Wrappers
  import opened Machine
  import opened RegisterTable
  import opened Symbols
  import opened Syntax
  import opened Codegen
  import opened Shape
  import opened Preservation
  import opened StatementSim
  import opened Linking
  import opened ProgramSim
  import opened Demand

  // ---------- expressions ----------

  // The expression compiles with `held` registers in use outside any call.
  predicate ExprFits(e: Expr, held: nat, fs: seq<Entry>) {
    CallsFit(e, fs, 0) && held + Need(e) <= GENERALS
  }

  // The same functions, wherever they start.
  predicate SameHeads(fs: seq<Entry>, gs: seq<Entry>) {
    |fs| == |gs| && forall i | 0 <= i < |fs| :: fs[i].name == gs[i].name && fs[i].arity == gs[i].arity
  }

  lemma {:induction false} FindSameHeads(fs: seq<Entry>, gs: seq<Entry>, name: string)
    requires SameHeads(fs, gs)
    ensures match FindFunction(fs, name)
      case None => FindFunction(gs, name) == None
      case Some(f) => FindFunction(gs, name).Some? && FindFunction(gs, name).value.arity == f.arity
    decreases |fs|
  {
    if fs != [] {
      FindSameHeads(fs[..|fs| - 1], gs[..|gs| - 1], name);
    }
  }

  lemma {:induction false} CallsFitSameHeads(e: Expr, fs: seq<Entry>, gs: seq<Entry>, depth: nat)
    requires SameHeads(fs, gs)
    ensures CallsFit(e, fs, depth) == CallsFit(e, gs, depth)
    decreases e
  {
    match e
    case Binary(_, left, right) =>
      CallsFitSameHeads(left, fs, gs, depth);
      CallsFitSameHeads(right, fs, gs, depth);
    case Not(operand) => CallsFitSameHeads(operand, fs, gs, depth);
    case Deref(operand) => CallsFitSameHeads(operand, fs, gs, depth);
    case Call(name, args) =>
      FindSameHeads(fs, gs, name);
      ArgsFitSameHeads(args, fs, gs, depth + 1);
    case _ =>
  }

  lemma {:induction false} ArgsFitSameHeads(args: Args, fs: seq<Entry>, gs: seq<Entry>, depth: nat)
    requires SameHeads(fs, gs)
    ensures ArgsFit(args, fs, depth) == ArgsFit(args, gs, depth)
    decreases args
  {
    match args
    case NoArgs =>
    case Arg(first, rest) =>
      CallsFitSameHeads(first, fs, gs, depth);
      ArgsFitSameHeads(rest, fs, gs, depth);
  }

  // ---------- statements ----------

  predicate StmtFits(s: Stmt, fs: seq<Entry>)
    decreases s
  {
    match s
    case Block(body) => BodyFits(body, fs)
    case Declare(d) => DeclFits(d, fs)
    case Assign(_, value) => ExprFits(value, 0, fs)
    case Store(target, value) => ExprFits(target, 0, fs) && ExprFits(value, 1, fs)
    case Return(value) => ExprFits(value, 0, fs)
    case Print(value) => ExprFits(value, 0, fs)
    case Discard(value) => ExprFits(value, 0, fs)
    case If(branch) => IfFits(branch, fs)
    case While(cond, body) => ExprFits(cond, 0, fs) && BodyFits(body, fs)
  }

  predicate DeclFits(d: Decl, fs: seq<Entry>) {
    match d
    case Let(_, init) => ExprFits(init, 0, fs)
    case LetZero(_) => true
  }

  predicate IfFits(i: IfStmt, fs: seq<Entry>)
    decreases i
  {
    && ExprFits(i.cond, 0, fs) && BodyFits(i.thn, fs)
    && match i
       case IfThen(_, _) => true
       case IfElse(_, _, els) => BodyFits(els, fs)
       case IfElseIf(_, _, rest) => IfFits(rest, fs)
  }

  predicate BodyFits(ss: Stmts, fs: seq<Entry>)
    decreases ss
  {
    match ss
    case Nil => true
    case Cons(head, tail) => StmtFits(head, fs) && BodyFits(tail, fs)
  }

  // Between statements: no register in use and no call being prepared.
  ghost predicate Resting(c: Compiler) {
    Idle(c.regs) && c.pending == []
  }

  lemma OperandDemand(e: Expr, c: Compiler)
    requires Resting(c)
    ensures Expression(e, c).Success? <==> ExprFits(e, 0, c.functions)
  {
    hide Expression, CallsFit, Need, InUse;
    IdleCount(c.regs);
    ExpressionDemand(e, c);
  }

  lemma SecondOperandDemand(e: Expr, c: Compiler, c1: Compiler, r: int)
    requires Resting(c) && Delivers(c, c1, r)
    ensures Expression(e, c1).Success? <==> ExprFits(e, 1, c.functions)
  {
    hide Expression, CallsFit, Need, InUse;
    IdleCount(c.regs);
    InUseTakes(c.regs, c1.regs, r);
    ExpressionDemand(e, c1);
  }

  lemma {:induction false} ZerosDemand(names: seq<string>, c: Compiler)
    requires c.inside && Idle(c.regs)
    ensures LetZeros(names, c).Success?
    decreases |names|
  {
    if names != [] {
      IdleCount(c.regs);
      LeafDemand(c, "", 0);
      ConstantLoadShape(c, 0);
      var (c1, r) := ConstantLoad(c, 0).value;
      FreedIsIdle(c, c1, r);
      DeclarationEffect(c1, names[|names| - 1], r);
      hide ConstantLoad, VariableDeclaration, InUse;
      ZerosDemand(names[..|names| - 1], VariableDeclaration(c1, names[|names| - 1], r));
    }
  }

  lemma DeclareDemand(d: Decl, c: Compiler)
    requires c.inside && Resting(c)
    ensures Declaration(d, c).Success? <==> DeclFits(d, c.functions)
  {
    hide Expression, LetZeros, ExprFits, VariableDeclaration;
    match d
    case Let(_, init) => OperandDemand(init, c);
    case LetZero(names) => ZerosDemand(names, c);
  }

  // A statement compiles exactly when every expression in it has the registers
  // it needs and calls declared functions with as many arguments as they take.
  lemma {:induction false} StatementDemand(s: Stmt, c: Compiler)
    requires c.inside && Resting(c)
    ensures Statement(s, c).Success? <==> StmtFits(s, c.functions)
    decreases s
  {
    hide Expression, BlockOf, IfStatement, Conditional, Declaration, ExprFits, BodyFits, IfFits;
    match s
    case Block(body) => BlockDemand(body, c);
    case Declare(d) => DeclareDemand(d, c);
    case Assign(_, value) => OperandDemand(value, c);
    case Return(value) => OperandDemand(value, c);
    case Print(value) => OperandDemand(value, c);
    case Discard(value) => OperandDemand(value, c);
    case Store(target, value) =>
      OperandDemand(target, c);
      if Expression(target, c).Success? {
        ExpressionShape(target, c);
        var (c1, r) := Expression(target, c).value;
        SecondOperandDemand(value, c, c1, r);
      }
    case If(branch) => IfDemand(branch, c);
    case While(cond, body) =>
      InitialUnbound();
      ConditionalDemand(cond, body, Reset(c), 2);
  }

  lemma {:induction false} ConditionalDemand(cond: Expr, body: Stmts, c: Compiler, extra: int)
    requires c.inside && Resting(c)
    ensures Conditional(cond, body, c, extra).Success? <==>
      ExprFits(cond, 0, c.functions) && BodyFits(body, c.functions)
    decreases body, 2
  {
    hide Expression, BlockOf, ExprFits, BodyFits;
    OperandDemand(cond, c);
    if Expression(cond, c).Success? {
      ExpressionShape(cond, c);
      var (c1, r) := Expression(cond, c).value;
      InitialUnbound();
      BlockDemand(body, ConditionalJump(c1, r));
    }
  }

  lemma {:induction false} IfDemand(i: IfStmt, c: Compiler)
    requires c.inside && Resting(c)
    ensures IfStatement(i, c).Success? <==> IfFits(i, c.functions)
    decreases i, 0
  {
    hide Conditional, BlockOf, ExprFits, BodyFits;
    var extra := if i.IfThen? then 1 else 2;
    ConditionalDemand(i.cond, i.thn, c, extra);
    if Conditional(i.cond, i.thn, c, extra).Success? {
      ConditionalShape(i.cond, i.thn, c, extra);
      InitialUnbound();
      var cu := UnconditionalJump(Conditional(i.cond, i.thn, c, extra).value.0);
      match i
      case IfThen(_, _) =>
      case IfElse(_, _, els) => BlockDemand(els, cu);
      case IfElseIf(_, _, rest) => IfDemand(rest, cu);
    }
  }

  lemma {:induction false} BlockDemand(body: Stmts, c: Compiler)
    requires c.inside && Resting(c)
    ensures BlockOf(body, c).Success? <==> BodyFits(body, c.functions)
    decreases body, 1
  {
    hide Statements, BodyFits;
    StatementsDemand(body, BeginBlock(c));
  }

  lemma {:induction false} StatementsDemand(ss: Stmts, c: Compiler)
    requires c.inside && Resting(c)
    ensures Statements(ss, c).Success? <==> BodyFits(ss, c.functions)
    decreases ss, 0
  {
    hide Statement, StmtFits;
    match ss
    case Nil =>
    case Cons(head, tail) =>
      StatementDemand(head, c);
      if Statement(head, c).Success? {
        StatementShape(head, c);
        StatementsDemand(tail, Statement(head, c).value);
      }
  }

  // ---------- functions ----------

  lemma {:induction false} ParametersDemand(c: Compiler, names: seq<string>, i: nat)
    requires i <= |names| && Idle(c.regs)
    ensures ParameterLocals(c, names, i).Success?
    decreases |names| - i
  {
    if i < |names| {
      OneParameter(c, names[i], i, |names|);
      hide ParameterLocal;
      ParametersDemand(ParameterLocal(c, names[i], i, |names|).value, names, i + 1);
    }
  }

  lemma OneParameter(c: Compiler, name: string, i: nat, count: nat)
    requires Idle(c.regs)
    ensures ParameterLocal(c, name, i, count).Success? && Idle(ParameterLocal(c, name, i, count).value.regs)
  {
    hide FetchArgument, StoreLocal, StackPush;
    IdleCount(c.regs);
    AllocExactly(c.regs);
    var offset := c.nextLocal;
    var (c0, r) := AllocRegister(c.(nextLocal := offset + 1)).value;
    var c1 := c0.(symbols := c.symbols + [Symbol(name, Local(offset))]);
    CopyKeepsTable(c1, count - i + 2, offset, r);
  }

  lemma CopyKeepsTable(c: Compiler, source: int, offset: int, r: int)
    ensures CopyArgument(c, source, offset, r).regs == Free(c.regs, r)
  {
  }

  predicate FunctionFits(f: Function, fs: seq<Entry>) {
    && |f.parameters| <= MAX_FUNCTION_PARAMETERS && |fs| < MAX_FUNCTIONS
    && BodyFits(f.body, fs + [Entry(f.name, 0, |f.parameters|)])
  }

  lemma FunctionDemand(f: Function, c: Compiler)
    requires Resting(c)
    ensures FunctionDefinition(f, c).Success? <==> FunctionFits(f, c.functions)
  {
    hide ParameterLocals, BlockOf, BodyFits, FunctionPrefix;
    var c0 := FunctionPrefix(EnterFunction(c, f.name, |f.parameters|));
    PrefixShape(EnterFunction(c, f.name, |f.parameters|));
    ParametersDemand(c0, f.parameters, 0);
    if BeginFunction(c, f.name, f.parameters).Success? {
      BeginFunctionShape(c, f.name, f.parameters);
      InitialUnbound();
      var c1 := BeginFunction(c, f.name, f.parameters).value;
      BlockDemand(f.body, c1);
      BodyFitsSameHeads(f.body, c1.functions, c.functions + [Entry(f.name, 0, |f.parameters|)]);
    }
  }

  lemma {:induction false} BodyFitsSameHeads(ss: Stmts, fs: seq<Entry>, gs: seq<Entry>)
    requires SameHeads(fs, gs)
    ensures BodyFits(ss, fs) == BodyFits(ss, gs)
    decreases ss
  {
    hide SameHeads;
    match ss
    case Nil =>
    case Cons(head, tail) =>
      StmtFitsSameHeads(head, fs, gs);
      BodyFitsSameHeads(tail, fs, gs);
  }

  lemma {:induction false} StmtFitsSameHeads(s: Stmt, fs: seq<Entry>, gs: seq<Entry>)
    requires SameHeads(fs, gs)
    ensures StmtFits(s, fs) == StmtFits(s, gs)
    decreases s
  {
    hide SameHeads, CallsFit, Need;
    match s
    case Block(body) => BodyFitsSameHeads(body, fs, gs);
    case Declare(Let(_, init)) => CallsFitSameHeads(init, fs, gs, 0);
    case Declare(LetZero(_)) =>
    case Store(target, value) =>
      CallsFitSameHeads(target, fs, gs, 0);
      CallsFitSameHeads(value, fs, gs, 0);
    case If(branch) => IfFitsSameHeads(branch, fs, gs);
    case While(cond, body) =>
      CallsFitSameHeads(cond, fs, gs, 0);
      BodyFitsSameHeads(body, fs, gs);
    case _ => CallsFitSameHeads(s.value, fs, gs, 0);
  }

  lemma {:induction false} IfFitsSameHeads(i: IfStmt, fs: seq<Entry>, gs: seq<Entry>)
    requires SameHeads(fs, gs)
    ensures IfFits(i, fs) == IfFits(i, gs)
    decreases i
  {
    hide SameHeads, CallsFit, Need;
    CallsFitSameHeads(i.cond, fs, gs, 0);
    BodyFitsSameHeads(i.thn, fs, gs);
    match i
    case IfThen(_, _) =>
    case IfElse(_, _, els) => BodyFitsSameHeads(els, fs, gs);
    case IfElseIf(_, _, rest) => IfFitsSameHeads(rest, fs, gs);
  }

  // ---------- programs ----------

  // The first k functions of the program.
  function Heads(fs: seq<Function>): (r: seq<Entry>)
    ensures |r| == |fs|
  {
    seq(|fs|, i requires 0 <= i < |fs| => Entry(fs[i].name, 0, |fs[i].parameters|))
  }

  predicate FunctionsFit(fs: seq<Function>) {
    forall j | 0 <= j < |fs| :: FunctionFits(fs[j], Heads(fs[..j]))
  }

  predicate GlobalsFit(ds: seq<Decl>) {
    forall i | 0 <= i < |ds| :: DeclFits(ds[i], [])
  }

  predicate ProgramFits(p: Program) {
    GlobalsFit(p.globals) && FunctionsFit(p.functions) && BodyFits(p.main, Heads(p.functions))
  }

  lemma {:induction false} GlobalZerosDemand(names: seq<string>, c: Compiler)
    requires Idle(c.regs) && !c.inside
    ensures LetZeros(names, c).Success?
    decreases |names|
  {
    if names != [] {
      IdleCount(c.regs);
      LeafDemand(c, "", 0);
      ConstantLoadShape(c, 0);
      var (c1, r) := ConstantLoad(c, 0).value;
      var name := names[|names| - 1];
      var b := c1.(nextGlobal := c1.nextGlobal + 1, symbols := c1.symbols + [Symbol(name, Global(c1.nextGlobal))]);
      StoreGlobalShape(b, c1.nextGlobal, r);
      hide ConstantLoad, StoreGlobal, InUse;
      GlobalZerosDemand(names[..|names| - 1], VariableDeclaration(c1, name, r));
    }
  }

  lemma {:induction false} GlobalsDemand(ds: seq<Decl>, caching: bool)
    ensures Globals(ds, Start(caching)).Success? <==> GlobalsFit(ds)
    decreases |ds|
  {
    hide Declaration, DeclFits;
    if ds != [] {
      var before := ds[..|ds| - 1];
      var last := ds[|ds| - 1];
      GlobalsDemand(before, caching);
      assert GlobalsFit(ds) <==> GlobalsFit(before) && DeclFits(last, []);
      if Globals(before, Start(caching)).Success? {
        GlobalsShape(before, caching);
        GlobalDemand(last, Globals(before, Start(caching)).value);
      }
    }
  }

  lemma GlobalDemand(d: Decl, c: Compiler)
    requires Resting(c) && !c.inside && c.functions == []
    ensures Declaration(d, c).Success? <==> DeclFits(d, [])
  {
    hide Expression, LetZeros, ExprFits, VariableDeclaration;
    match d
    case Let(_, init) => OperandDemand(init, c);
    case LetZero(names) => GlobalZerosDemand(names, c);
  }

  lemma {:induction false} FunctionsDemand(fs: seq<Function>, c: Compiler)
    requires Resting(c) && c.functions == []
    ensures Functions(fs, c).Success? <==> FunctionsFit(fs)
    ensures Functions(fs, c).Success? ==>
      Resting(Functions(fs, c).value) && SameHeads(Functions(fs, c).value.functions, Heads(fs))
    decreases |fs|
  {
    hide FunctionDefinition, FunctionFits;
    if fs != [] {
      var before := fs[..|fs| - 1];
      var last := fs[|fs| - 1];
      FunctionsDemand(before, c);
      assert forall j | 0 <= j < |before| :: fs[..j] == before[..j];
      assert FunctionsFit(fs) <==> FunctionsFit(before) && FunctionFits(last, Heads(before));
      if Functions(before, c).Success? {
        var c1 := Functions(before, c).value;
        FunctionDemand(last, c1);
        FunctionFitsSameHeads(last, c1.functions, Heads(before));
        if FunctionDefinition(last, c1).Success? {
          FunctionDefinitionShape(last, c1);
          InitialUnbound();
        }
      }
    }
  }

  lemma FunctionFitsSameHeads(f: Function, fs: seq<Entry>, gs: seq<Entry>)
    requires SameHeads(fs, gs)
    ensures FunctionFits(f, fs) == FunctionFits(f, gs)
  {
    var e := Entry(f.name, 0, |f.parameters|);
    assert SameHeads(fs + [e], gs + [e]);
    BodyFitsSameHeads(f.body, fs + [e], gs + [e]);
  }

  // Whether a program compiles can be told from its syntax, and does not depend
  // on the cache.
  lemma ProgramDemand(p: Program, caching: bool)
    ensures CompileProgram(p, caching).Success? <==> ProgramFits(p)
  {
    hide Globals, Functions, BlockOf, GlobalsFit, FunctionsFit, BodyFits, BeginMain, ProgramStart;
    GlobalsDemand(p.globals, caching);
    if Globals(p.globals, Start(caching)).Success? {
      var c1 := Globals(p.globals, Start(caching)).value;
      FunctionsStart(p, caching, c1);
      FunctionsDemand(p.functions, ProgramStart(c1));
      if Functions(p.functions, ProgramStart(c1)).Success? {
        var c2 := Functions(p.functions, ProgramStart(c1)).value;
        MainStart(c2, |c1.code|);
        BlockDemand(p.main, BeginMain(c2, |c1.code|));
        BodyFitsSameHeads(p.main, c2.functions, Heads(p.functions));
      }
    }
  }

  lemma FunctionsStart(p: Program, caching: bool, c1: Compiler)
    requires Globals(p.globals, Start(caching)) == Success(c1)
    ensures Resting(ProgramStart(c1)) && ProgramStart(c1).functions == []
  {
    hide Globals;
    GlobalsShape(p.globals, caching);
    InitialUnbound();
  }

  lemma MainStart(c: Compiler, start: nat)
    requires Resting(c)
    ensures var d := BeginMain(c, start); Resting(d) && d.inside && d.functions == c.functions
  {
    InitialUnbound();
  }
}
