// Every instruction the compiler emits names registers that exist, so both of
// its outputs can carry it.
module Operands {
  import opened Wrappers
  import opened Machine
  import opened Instructions
  import opened RegisterTable
  import opened Symbols
  import opened Syntax
  import opened Codegen
  import opened Shape
  import opened Encodings
  import opened Execution
  import opened Listing
  import opened Loader
  import opened Strings
  import opened StatementSim
  import opened Correctness
  import Linking

  // The code so far is encodable and every argument is in a general register.
  ghost predicate Fit(c: Compiler) {
    AllEncodable(c.code) && forall i | 0 <= i < |c.pending| :: Generals(c.pending[i])
  }

  lemma EmitFits(c: Compiler, i: Raw)
    requires Fit(c) && Encodable(i) && OneLine(i.comment)
    ensures Fit(Emit(c, i))
  {
  }

  lemma Emit2Fits(c: Compiler, op: Op, x: int, y: int)
    requires Fit(c)
    requires match op
      case AFC | LOAD => IsRegister(x)
      case STR => IsRegister(y)
      case COP | NOT | BNOT | LDI | STI => IsRegister(x) && IsRegister(y)
      case _ => false
    ensures Fit(Emit2(c, op, x, y))
  {
  }

  lemma Emit3Fits(c: Compiler, op: Op, x: int, y: int, z: int)
    requires Fit(c) && IsTernary(op) && IsRegister(x) && IsRegister(y) && IsRegister(z)
    ensures Fit(Emit3(c, op, x, y, z))
  {
  }

  lemma SameFits(c: Compiler, d: Compiler)
    requires Fit(c) && d.code == c.code && d.pending == c.pending
    ensures Fit(d)
  {
  }

  lemma StackStepFits(c: Compiler)
    requires Fit(c)
    ensures Fit(StackPush(c)) && Fit(StackPop(c))
  {
    hide Fit, Emit2, Emit3;
    Emit2Fits(c, AFC, REG_TMP, 1);
    Emit3Fits(Emit2(c, AFC, REG_TMP, 1), SOU, REG_SP, REG_SP, REG_TMP);
    Emit3Fits(Emit2(c, AFC, REG_TMP, 1), ADD, REG_SP, REG_SP, REG_TMP);
  }

  lemma {:induction false} StackPopsFit(c: Compiler, n: int)
    requires Fit(c)
    ensures Fit(StackPops(c, n))
    decreases n
  {
    hide Fit, StackPop;
    if n > 0 {
      StackStepFits(c);
      StackPopsFit(StackPop(c), n - 1);
    }
  }

  lemma StoreLocalFits(c: Compiler, offset: int, r: int)
    requires Fit(c) && IsRegister(r)
    ensures Fit(LocalAddress(c, offset)) && Fit(StoreLocal(c, offset, r))
  {
    hide Fit, Emit2, Emit3;
    Emit2Fits(c, AFC, REG_TMP, offset);
    Emit3Fits(Emit2(c, AFC, REG_TMP, offset), SOU, REG_TMP, REG_FP, REG_TMP);
    Emit2Fits(LocalAddress(c, offset), STI, REG_TMP, r);
  }

  lemma ConstantLoadFits(c: Compiler, n: int)
    requires Fit(c) && ConstantLoad(c, n).Success?
    ensures Fit(ConstantLoad(c, n).value.0)
  {
    var (c1, r) := AllocRegister(c).value;
    SameFits(c, c1);
    Emit2Fits(c1, AFC, r, n);
    hide Fit, Emit2;
    SameFits(Emit2(c1, AFC, r, n), ConstantLoad(c, n).value.0);
  }

  lemma LocalLoadFits(c: Compiler, offset: int)
    requires Fit(c) && LocalLoad(c, offset).Success?
    ensures Fit(LocalLoad(c, offset).value.0)
  {
    hide Fit, Emit2, LocalAddress;
    var (c1, r) := AllocRegister(c).value;
    SameFits(c, c1);
    StoreLocalFits(c1, offset, r);
    var c2 := Emit2(LocalAddress(c1, offset), LDI, r, REG_TMP);
    Emit2Fits(LocalAddress(c1, offset), LDI, r, REG_TMP);
    SameFits(c2, Temporary(c2, r));
  }

  lemma GlobalLoadFits(c: Compiler, address: int)
    requires Fit(c) && GlobalLoad(c, address).Success?
    ensures Fit(GlobalLoad(c, address).value.0)
  {
    hide Fit, FindMemory, BindMemory;
    var d := GlobalLoad(c, address).value.0;
    if d.code == c.code {
      SameFits(c, d);
    } else {
      var (c1, r) := AllocRegister(c).value;
      SameFits(c, c1);
      Emit2Fits(c1, LOAD, r, address);
      SameFits(Emit2(c1, LOAD, r, address), d);
    }
  }

  lemma VariableLoadFits(c: Compiler, name: string)
    requires Fit(c) && VariableLoad(c, name).Success?
    ensures Fit(VariableLoad(c, name).value.0)
  {
    hide Fit, ConstantLoad, LocalLoad, GlobalLoad, Lookup;
    match Lookup(c.symbols, name)
    case None => ConstantLoadFits(c, 0);
    case Some(Local(offset)) => LocalLoadFits(c, offset);
    case Some(Global(address)) => GlobalLoadFits(c, address);
  }

  lemma VariableAddressFits(c: Compiler, name: string)
    requires Fit(c) && VariableAddress(c, name).Success?
    ensures Fit(VariableAddress(c, name).value.0)
  {
    hide Fit, Emit2, Emit3, Lookup;
    var (c1, r) := AllocRegister(c).value;
    SameFits(c, c1);
    match Lookup(c.symbols, name)
    case None =>
    case Some(Local(offset)) =>
      Emit2Fits(c1, AFC, r, offset);
      Emit3Fits(Emit2(c1, AFC, r, offset), SOU, r, REG_FP, r);
      var d := Emit3(Emit2(c1, AFC, r, offset), SOU, r, REG_FP, r);
      SameFits(d, Temporary(d, r));
    case Some(Global(address)) =>
      Emit2Fits(c1, AFC, r, address);
      SameFits(Emit2(c1, AFC, r, address), Temporary(Emit2(c1, AFC, r, address), r));
  }

  lemma OperatorsFit(c: Compiler, op: BinaryOp, l: int, r: int)
    requires Fit(c) && IsGeneral(l) && IsGeneral(r)
    ensures Fit(BinaryExpression(c, op, l, r))
    ensures Fit(UnaryExpression(c, NOT, l)) && Fit(UnaryExpression(c, LDI, l))
  {
    hide Fit;
    Emit3Fits(c, Opcode(op), l, l, r);
    Emit2Fits(c, NOT, l, l);
    Emit2Fits(c, LDI, l, l);
    SameFits(Emit3(c, Opcode(op), l, l, r), BinaryExpression(c, op, l, r));
    SameFits(Emit2(c, NOT, l, l), UnaryExpression(c, NOT, l));
    SameFits(Emit2(c, LDI, l, l), UnaryExpression(c, LDI, l));
  }

  // ---------- calls ----------

  lemma ArgumentAddedFits(c: Compiler, r: int)
    requires Fit(c) && IsGeneral(r) && AddArgument(c, r).Success?
    ensures Fit(AddArgument(c, r).value)
  {
    hide AllEncodable;
    assert Generals(c.pending[|c.pending| - 1]);
  }

  lemma ListAddedFits(c: Compiler)
    requires Fit(c)
    ensures Fit(c.(pending := c.pending + [[]]))
  {
    hide AllEncodable;
  }

  lemma PushFits(c: Compiler, r: int)
    requires Fit(c) && IsRegister(r)
    ensures Fit(PushRegister(c, r)) && Fit(RestoreRegister(c, r))
  {
    hide Fit, Emit2, StackPush, StackPop;
    Emit2Fits(c, STI, REG_SP, r);
    StackStepFits(Emit2(c, STI, REG_SP, r));
    StackStepFits(c);
    Emit2Fits(StackPop(c), LDI, r, REG_SP);
  }

  lemma {:induction false} PushesFit(c: Compiler, list: seq<int>)
    requires Fit(c) && Generals(list)
    ensures Fit(PushRegisters(c, list)) && Fit(PushArguments(c, list))
    decreases |list|
  {
    hide Fit, PushRegister;
    if list != [] {
      var c1 := PushRegister(c, list[0]);
      PushFits(c, list[0]);
      SameFits(c1, FreeRegister(c1, list[0]));
      PushesFit(c1, list[1..]);
      PushesFit(FreeRegister(c1, list[0]), list[1..]);
    }
  }

  lemma {:induction false} RestoresFit(c: Compiler, list: seq<int>)
    requires Fit(c) && Generals(list)
    ensures Fit(RestoreRegisters(c, list))
    decreases |list|
  {
    hide Fit, RestoreRegister;
    if list != [] {
      PushFits(c, list[|list| - 1]);
      RestoresFit(RestoreRegister(c, list[|list| - 1]), list[..|list| - 1]);
    }
  }

  lemma {:induction false} SavedAreGeneral(t: Table, args: seq<int>, r: int)
    requires 1 <= r <= 12
    ensures Generals(Saved(t, args, r))
    decreases 12 - r
  {
    if r < 12 {
      SavedAreGeneral(t, args, r + 1);
    }
  }

  lemma JumpFits(c: Compiler, target: int)
    requires Fit(c)
    ensures Fit(JumpTo(c, target))
  {
  }

  lemma CallCodeFits(c: Compiler, entry: int)
    requires Fit(c)
    ensures Fit(CallCode(c, entry))
  {
    hide Fit, Saved, PushRegisters, PushArguments, Emit2, JumpTo, StackPops, RestoreRegisters;
    var args := Arguments(c);
    var saved := Saved(c.regs, args, 1);
    ArgumentsAreGeneral(c);
    SavedAreGeneral(c.regs, args, 1);
    PushesFit(c, saved);
    var pushed := PushArguments(PushRegisters(c, saved), args);
    PushesFit(PushRegisters(c, saved), args);
    Emit2Fits(pushed, AFC, REG_RA, |pushed.code| + 2);
    JumpFits(Emit2(pushed, AFC, REG_RA, |pushed.code| + 2), entry);
    StackPopsFit(CallSequence(c, entry), |args|);
    RestoresFit(StackPops(CallSequence(c, entry), |args|), saved);
  }

  lemma ArgumentsAreGeneral(c: Compiler)
    requires Fit(c)
    ensures Generals(Arguments(c))
  {
  }

  lemma ListDroppedFits(c: Compiler, regs: Table)
    requires Fit(c) && c.pending != []
    ensures Fit(c.(regs := regs, pending := c.pending[..|c.pending| - 1]))
  {
    hide AllEncodable, Generals;
  }

  lemma ResultLoadFits(c: Compiler)
    requires Fit(c) && ResultLoad(c).Success?
    ensures Fit(ResultLoad(c).value.0)
  {
    hide Fit, Emit2;
    var (c1, r) := AllocRegister(c).value;
    SameFits(c, c1);
    Emit2Fits(c1, COP, r, REG_RETURN);
    SameFits(Emit2(c1, COP, r, REG_RETURN), Temporary(Emit2(c1, COP, r, REG_RETURN), r));
  }

  lemma FunctionCallFits(c: Compiler, name: string)
    requires Fit(c) && FunctionCall(c, name).Success?
    ensures Fit(FunctionCall(c, name).value.0)
  {
    hide Fit, CallCode, ResultLoad, ForgetAvailable;
    var entry := FindFunction(c.functions, name).value.address;
    CallCodeShape(c, entry);
    CallCodeFits(c, entry);
    var c1 := CallCode(c, entry);
    ListDroppedFits(c1, ForgetAvailable(c1.regs));
    ResultLoadFits(c1.(regs := ForgetAvailable(c1.regs), pending := c1.pending[..|c1.pending| - 1]));
  }

  lemma {:induction false} ExpressionFits(e: Expr, c: Compiler)
    requires Fit(c) && Expression(e, c).Success?
    ensures Fit(Expression(e, c).value.0) && IsGeneral(Expression(e, c).value.1)
    decreases e
  {
    hide Fit, ConstantLoad, VariableLoad, VariableAddress, FunctionCall, BinaryExpression, UnaryExpression;
    ExpressionShape(e, c);
    match e
    case Num(n) => ConstantLoadFits(c, n);
    case Var(name) => VariableLoadFits(c, name);
    case AddressOf(name) => VariableAddressFits(c, name);
    case Binary(op, left, right) =>
      ExpressionFits(left, c);
      var (c1, l) := Expression(left, c).value;
      ExpressionFits(right, c1);
      var (c2, r) := Expression(right, c1).value;
      OperatorsFit(c2, op, l, r);
    case Not(operand) =>
      ExpressionFits(operand, c);
      var (c1, r) := Expression(operand, c).value;
      OperatorsFit(c1, Plus, r, r);
    case Deref(operand) =>
      ExpressionFits(operand, c);
      var (c1, r) := Expression(operand, c).value;
      OperatorsFit(c1, Plus, r, r);
    case Call(name, args) =>
      ListAddedFits(c);
      ArgumentListFits(args, BeginArguments(c).value);
      FunctionCallFits(ArgumentList(args, BeginArguments(c).value).value, name);
  }

  lemma {:induction false} ArgumentListFits(args: Args, c: Compiler)
    requires Fit(c) && ArgumentList(args, c).Success?
    ensures Fit(ArgumentList(args, c).value)
    decreases args
  {
    hide Fit, AddArgument;
    match args
    case NoArgs =>
    case Arg(first, rest) =>
      ExpressionFits(first, c);
      var (c1, r) := Expression(first, c).value;
      ArgumentAddedFits(c1, r);
      ArgumentListFits(rest, AddArgument(c1, r).value);
  }

  // ---------- statements ----------

  lemma StoreGlobalFits(c: Compiler, address: int, r: int)
    requires Fit(c) && IsGeneral(r)
    ensures Fit(StoreGlobal(c, address, r))
  {
    hide Fit, ForgetMemory, BindMemory;
    var c1 := c.(regs := ForgetMemory(c.regs, address));
    SameFits(c, c1);
    Emit2Fits(c1, STR, address, r);
    SameFits(Emit2(c1, STR, address, r), StoreGlobal(c, address, r));
  }

  lemma DeclarationFits(c: Compiler, name: string, r: int)
    requires Fit(c) && IsGeneral(r)
    ensures Fit(VariableDeclaration(c, name, r))
  {
    hide Fit, StoreGlobal, StoreLocal, StackPush;
    if c.inside {
      var offset := c.nextLocal;
      var c1 := c.(nextLocal := offset + 1, symbols := c.symbols + [Symbol(name, Local(offset))]);
      SameFits(c, c1);
      StoreLocalFits(c1, offset, r);
      StackStepFits(StoreLocal(c1, offset, r));
      SameFits(StackPush(StoreLocal(c1, offset, r)), VariableDeclaration(c, name, r));
    } else {
      var address := c.nextGlobal;
      var c1 := c.(nextGlobal := address + 1, symbols := c.symbols + [Symbol(name, Global(address))]);
      SameFits(c, c1);
      StoreGlobalFits(c1, address, r);
    }
  }

  lemma {:induction false} LetZerosFit(names: seq<string>, c: Compiler)
    requires Fit(c) && LetZeros(names, c).Success?
    ensures Fit(LetZeros(names, c).value)
    decreases |names|
  {
    hide Fit, VariableDeclaration;
    if names != [] {
      var (c1, r) := ConstantLoad(c, 0).value;
      ConstantLoadFits(c, 0);
      DeclarationFits(c1, names[|names| - 1], r);
      LetZerosFit(names[..|names| - 1], VariableDeclaration(c1, names[|names| - 1], r));
    }
  }

  lemma DeclareFits(d: Decl, c: Compiler)
    requires Fit(c) && Declaration(d, c).Success?
    ensures Fit(Declaration(d, c).value)
  {
    hide Fit, VariableDeclaration, LetZeros;
    match d
    case Let(name, init) =>
      ExpressionFits(init, c);
      var (c1, r) := Expression(init, c).value;
      DeclarationFits(c1, name, r);
    case LetZero(names) => LetZerosFit(names, c);
  }

  lemma AssignmentFits(c: Compiler, name: string, r: int)
    requires Fit(c) && IsGeneral(r)
    ensures Fit(VariableAssignment(c, name, r))
  {
    hide Fit, StoreGlobal, StoreLocal, Lookup;
    match Lookup(c.symbols, name)
    case None => SameFits(c, FreeRegister(c, r));
    case Some(Local(offset)) =>
      StoreLocalFits(c, offset, r);
      SameFits(StoreLocal(c, offset, r), VariableAssignment(c, name, r));
    case Some(Global(address)) => StoreGlobalFits(c, address, r);
  }

  lemma UseFits(c: Compiler, a: int, r: int)
    requires Fit(c) && IsGeneral(a) && IsGeneral(r)
    ensures Fit(PointerStore(c, a, r)) && Fit(PrintStatement(c, r)) && Fit(DiscardExpression(c, r))
  {
    hide Fit;
    Emit2Fits(c, STI, a, r);
    SameFits(Emit2(c, STI, a, r), PointerStore(c, a, r));
    EmitFits(c, Plain(PRI, 0, r, 0));
    SameFits(Emit1(c, PRI, r), PrintStatement(c, r));
    SameFits(c, DiscardExpression(c, r));
  }

  lemma SuffixFits(c: Compiler)
    requires Fit(c)
    ensures Fit(FunctionSuffix(c))
  {
    hide Fit, Emit2, StackPop;
    var c1 := Emit2(c, COP, REG_SP, REG_FP);
    Emit2Fits(c, COP, REG_SP, REG_FP);
    StackStepFits(c1);
    var c2 := Emit2(StackPop(c1), LDI, REG_FP, REG_SP);
    Emit2Fits(StackPop(c1), LDI, REG_FP, REG_SP);
    StackStepFits(c2);
    var c3 := Emit2(StackPop(c2), LDI, REG_RA, REG_SP);
    Emit2Fits(StackPop(c2), LDI, REG_RA, REG_SP);
    EmitFits(c3, Plain(JI, 0, REG_RA, 0));
  }

  lemma ReturnFits(c: Compiler, r: int)
    requires Fit(c) && IsGeneral(r)
    ensures Fit(ReturnStatement(c, r))
  {
    hide Fit, FunctionSuffix;
    var c1 := Emit2(c, COP, REG_RETURN, r);
    Emit2Fits(c, COP, REG_RETURN, r);
    SameFits(c1, FreeRegister(c1, r));
    SuffixFits(FreeRegister(c1, r));
    SameFits(FunctionSuffix(FreeRegister(c1, r)), ReturnStatement(c, r));
  }

  lemma PlaceholdersFit(c: Compiler, r: int)
    requires Fit(c) && IsGeneral(r)
    ensures Fit(ConditionalJump(c, r)) && Fit(UnconditionalJump(c))
  {
    hide Fit;
    EmitFits(c, Plain(JF, 0, r, 0).(relative := true));
    EmitFits(c, Plain(J, 0, 0, 0).(relative := true));
    SameFits(Emit(c, Plain(JF, 0, r, 0).(relative := true)), ConditionalJump(c, r));
    SameFits(Emit(c, Plain(J, 0, 0, 0).(relative := true)), UnconditionalJump(c));
  }

  // Patching changes a jump's distance only.
  lemma PatchesFit(c: Compiler, at: nat, offset: int)
    requires Fit(c)
    ensures at < |c.code| && c.code[at].op == JF ==> Fit(PatchConditional(c, at, offset))
    ensures at < |c.code| && c.code[at].op == J ==> Fit(PatchUnconditional(c, at, offset))
  {
  }

  lemma BlockEdgesFit(c: Compiler)
    requires Fit(c)
    ensures Fit(BeginBlock(c)) && Fit(EndBlock(c).0) && Fit(Reset(c))
  {
    hide Fit, StackPops;
    StackPopsShape(c, c.nextLocal - c.scope.offsetBase);
    StackPopsFit(c, c.nextLocal - c.scope.offsetBase);
    SameFits(c, BeginBlock(c));
    SameFits(c, Reset(c));
    SameFits(StackPops(c, c.nextLocal - c.scope.offsetBase), EndBlock(c).0);
  }

  lemma LoopBackFits(c: Compiler, head: int)
    requires Fit(c)
    ensures Fit(LoopBack(c, head))
  {
    hide Fit;
    JumpFits(c, head);
    SameFits(JumpTo(c, head), LoopBack(c, head));
  }

  lemma {:induction false} StatementFits(s: Stmt, c: Compiler)
    requires Fit(c) && c.inside && Idle(c.regs) && Statement(s, c).Success?
    ensures Fit(Statement(s, c).value)
    decreases s
  {
    hide Fit, Expression, Declaration, VariableAssignment, PointerStore, ReturnStatement, PrintStatement,
      DiscardExpression, BlockOf,
      IfStatement, Conditional, LoopBack;
    match s
    case Block(body) => BlockFits(body, c);
    case Declare(d) => DeclareFits(d, c);
    case If(branch) => IfFits(branch, c);
    case While(cond, body) =>
      BlockEdgesFit(c);
      ConditionalFits(cond, body, Reset(c), 2);
      LoopBackFits(Conditional(cond, body, Reset(c), 2).value.0, if ScopeCount(c) > 0 then |c.code| else NO_TARGET);
    case Assign(name, value) =>
      ExpressionFits(value, c);
      AssignmentFits(Expression(value, c).value.0, name, Expression(value, c).value.1);
    case Store(target, value) =>
      ExpressionFits(target, c);
      var (c1, a) := Expression(target, c).value;
      ExpressionFits(value, c1);
      var (c2, r) := Expression(value, c1).value;
      UseFits(c2, a, r);
    case Return(value) =>
      ExpressionFits(value, c);
      ReturnFits(Expression(value, c).value.0, Expression(value, c).value.1);
    case Print(value) =>
      ExpressionFits(value, c);
      UseFits(Expression(value, c).value.0, Expression(value, c).value.1, Expression(value, c).value.1);
    case Discard(value) =>
      ExpressionFits(value, c);
      UseFits(Expression(value, c).value.0, Expression(value, c).value.1, Expression(value, c).value.1);
  }

  lemma {:induction false} ConditionalFits(cond: Expr, body: Stmts, c: Compiler, extra: int)
    requires Fit(c) && c.inside && Idle(c.regs) && Conditional(cond, body, c, extra).Success?
    ensures Fit(Conditional(cond, body, c, extra).value.0)
    decreases body, 2
  {
    hide Fit, Expression, BlockOf, PatchConditional;
    ExpressionShape(cond, c);
    ExpressionFits(cond, c);
    var (c1, r) := Expression(cond, c).value;
    var cj := ConditionalJump(c1, r);
    PlaceholdersFit(c1, r);
    JumpIsIdle(c1, r);
    BlockShape(body, cj);
    BlockFits(body, cj);
    var (c2, count) := BlockOf(body, cj).value;
    assert c2.code[|c1.code|] == cj.code[|c1.code|];
    PatchesFit(c2, |c1.code|, count + extra);
  }

  lemma JumpIsIdle(c: Compiler, r: int)
    ensures var d := ConditionalJump(c, r);
      Idle(d.regs) && d.inside == c.inside && |d.code| == |c.code| + 1 && d.code[|c.code|].op == JF
    ensures var d := UnconditionalJump(c);
      Idle(d.regs) && d.inside == c.inside && |d.code| == |c.code| + 1 && d.code[|c.code|].op == J
  {
  }

  lemma {:induction false} AlternativeFits(els: Stmts, c: Compiler)
    requires Fit(c) && c.inside && Alternative(els, c).Success?
    ensures Fit(Alternative(els, c).value.0)
    decreases els, 2
  {
    hide Fit, BlockOf, PatchUnconditional;
    var cu := UnconditionalJump(c);
    PlaceholdersFit(c, 1);
    JumpIsIdle(c, 1);
    BlockShape(els, cu);
    BlockFits(els, cu);
    var (c1, count) := BlockOf(els, cu).value;
    assert c1.code[|c.code|] == cu.code[|c.code|];
    PatchesFit(c1, |c.code|, count + 1);
  }

  lemma {:induction false} AlternativeIfFits(rest: IfStmt, c: Compiler)
    requires Fit(c) && c.inside && AlternativeIf(rest, c).Success?
    ensures Fit(AlternativeIf(rest, c).value.0)
    decreases rest, 1
  {
    hide Fit, IfStatement, PatchUnconditional;
    var cu := UnconditionalJump(c);
    PlaceholdersFit(c, 1);
    JumpIsIdle(c, 1);
    IfShape(rest, cu);
    IfFits(rest, cu);
    var (c1, count) := IfStatement(rest, cu).value;
    assert c1.code[|c.code|] == cu.code[|c.code|];
    PatchesFit(c1, |c.code|, count + 1);
  }

  lemma {:induction false} IfFits(i: IfStmt, c: Compiler)
    requires Fit(c) && c.inside && Idle(c.regs) && IfStatement(i, c).Success?
    ensures Fit(IfStatement(i, c).value.0)
    decreases i, 0
  {
    hide Fit, Conditional, Alternative, AlternativeIf;
    var extra := if i.IfThen? then 1 else 2;
    ConditionalFits(i.cond, i.thn, c, extra);
    ConditionalShape(i.cond, i.thn, c, extra);
    match i
    case IfThen(_, _) =>
    case IfElse(cond, thn, els) => AlternativeFits(els, Conditional(cond, thn, c, 2).value.0);
    case IfElseIf(cond, thn, rest) => AlternativeIfFits(rest, Conditional(cond, thn, c, 2).value.0);
  }

  lemma {:induction false} BlockFits(body: Stmts, c: Compiler)
    requires Fit(c) && c.inside && Idle(c.regs) && BlockOf(body, c).Success?
    ensures Fit(BlockOf(body, c).value.0)
    decreases body, 1
  {
    hide Fit, Statements, EndBlock;
    BlockEdgesFit(c);
    StatementsFit(body, BeginBlock(c));
    BlockEdgesFit(Statements(body, BeginBlock(c)).value);
  }

  lemma {:induction false} StatementsFit(ss: Stmts, c: Compiler)
    requires Fit(c) && c.inside && Idle(c.regs) && Statements(ss, c).Success?
    ensures Fit(Statements(ss, c).value)
    decreases ss, 0
  {
    hide Fit, Statement;
    match ss
    case Nil =>
    case Cons(head, tail) =>
      StatementShape(head, c);
      StatementFits(head, c);
      StatementsFit(tail, Statement(head, c).value);
  }

  // ---------- functions and programs ----------

  // Function names are single lines; the lexer only delivers such names.
  predicate OneLineNames(fs: seq<Function>) {
    forall j | 0 <= j < |fs| :: OneLine(fs[j].name)
  }

  lemma EntryFits(c: Compiler, name: string, arity: nat)
    requires Fit(c) && OneLine(name)
    ensures Fit(Codegen.EnterFunction(c, name, arity)) && Fit(FunctionPrefix(Codegen.EnterFunction(c, name, arity)))
  {
    hide Fit, PushRegister, Emit2;
    var first := Plain(NOP, 0, 0, 0).(comment := Titled(name));
    EmitFits(c, first);
    var c1 := Codegen.EnterFunction(c, name, arity);
    SameFits(Emit(c, first), c1);
    PushFits(c1, REG_RA);
    PushFits(PushRegister(c1, REG_RA), REG_FP);
    Emit2Fits(PushRegister(PushRegister(c1, REG_RA), REG_FP), COP, REG_FP, REG_SP);
  }

  lemma ParameterFits(c: Compiler, name: string, i: nat, count: nat)
    requires Fit(c) && ParameterLocal(c, name, i, count).Success?
    ensures Fit(ParameterLocal(c, name, i, count).value)
  {
    hide Fit, Emit2, Emit3, StoreLocal, StackPush;
    var offset := c.nextLocal;
    var source := count - i + 2;
    var (c0, r) := AllocRegister(c.(nextLocal := offset + 1)).value;
    var c1 := c0.(symbols := c.symbols + [Symbol(name, Local(offset))]);
    SameFits(c, c1);
    Emit2Fits(c1, AFC, REG_TMP, source);
    Emit3Fits(Emit2(c1, AFC, REG_TMP, source), ADD, REG_TMP, REG_FP, REG_TMP);
    Emit2Fits(Emit3(Emit2(c1, AFC, REG_TMP, source), ADD, REG_TMP, REG_FP, REG_TMP), LDI, r, REG_TMP);
    StoreLocalFits(FetchArgument(c1, source, r), offset, r);
    StackStepFits(StoreLocal(FetchArgument(c1, source, r), offset, r));
    SameFits(StackPush(StoreLocal(FetchArgument(c1, source, r), offset, r)), CopyArgument(c1, source, offset, r));
  }

  lemma {:induction false} ParametersFit(c: Compiler, names: seq<string>, i: nat)
    requires i <= |names| && Fit(c) && ParameterLocals(c, names, i).Success?
    ensures Fit(ParameterLocals(c, names, i).value)
    decreases |names| - i
  {
    hide Fit, ParameterLocal;
    if i < |names| {
      ParameterFits(c, names[i], i, |names|);
      ParametersFit(ParameterLocal(c, names[i], i, |names|).value, names, i + 1);
    }
  }

  lemma FunctionFits(f: Function, c: Compiler)
    requires Fit(c) && OneLine(f.name) && FunctionDefinition(f, c).Success?
    ensures Fit(FunctionDefinition(f, c).value)
  {
    hide Fit, FunctionPrefix, Codegen.EnterFunction, ParameterLocals, BlockOf, FunctionSuffix, Emit2;
    Linking.BeginFunctionShape(c, f.name, f.parameters);
    var c0 := FunctionPrefix(Codegen.EnterFunction(c, f.name, |f.parameters|));
    EntryFits(c, f.name, |f.parameters|);
    ParametersFit(c0, f.parameters, 0);
    var c1 := BeginFunction(c, f.name, f.parameters).value;
    SameFits(ParameterLocals(c0, f.parameters, 0).value, c1);
    InitialUnbound();
    BlockFits(f.body, c1);
    var c2 := BlockOf(f.body, c1).value.0;
    Emit2Fits(c2, AFC, REG_RETURN, 0);
    var c3 := Emit2(c2, AFC, REG_RETURN, 0);
    SuffixFits(c3);
    SameFits(FunctionSuffix(c3), EndFunction(c2));
  }

  lemma {:induction false} FunctionsFit(fs: seq<Function>, c: Compiler)
    requires Fit(c) && OneLineNames(fs) && Functions(fs, c).Success?
    ensures Fit(Functions(fs, c).value)
    decreases |fs|
  {
    hide Fit, FunctionDefinition;
    if fs != [] {
      FunctionsFit(fs[..|fs| - 1], c);
      FunctionFits(fs[|fs| - 1], Functions(fs[..|fs| - 1], c).value);
    }
  }

  lemma {:induction false} GlobalsFit(ds: seq<Decl>, c: Compiler)
    requires Fit(c) && Globals(ds, c).Success?
    ensures Fit(Globals(ds, c).value)
    decreases |ds|
  {
    hide Fit, Declaration;
    if ds != [] {
      GlobalsFit(ds[..|ds| - 1], c);
      DeclareFits(ds[|ds| - 1], Globals(ds[..|ds| - 1], c).value);
    }
  }

  // The first jump becomes a jump to main.
  lemma LinkedFits(c: Compiler, start: nat, target: int)
    requires Fit(c) && start < |c.code| && c.code[start].op == J
    ensures Fit(c.(code := c.code[start := c.code[start].(y := Ref(target))]))
  {
  }

  lemma MainFits(c: Compiler, start: nat)
    requires Fit(c) && start < |c.code| && c.code[start].op == J
    ensures Fit(BeginMain(c, start))
  {
    hide Fit, Emit2;
    var first := Plain(NOP, 0, 0, 0).(comment := "main");
    EmitFits(c, first);
    var c1 := Label(c, "main");
    LinkedFits(c1, start, |c.code|);
    var c2 := c1.(code := c1.code[start := c1.code[start].(y := Ref(|c.code|))]);
    var c3 := c2.(inside := true, nextLocal := 0);
    SameFits(c2, c3);
    Emit2Fits(c3, AFC, REG_SP, 255);
    Emit2Fits(Emit2(c3, AFC, REG_SP, 255), COP, REG_FP, REG_SP);
    SameFits(Emit2(Emit2(c3, AFC, REG_SP, 255), COP, REG_FP, REG_SP), BeginMain(c, start));
  }

  // Every instruction of a compiled program can be carried by both outputs.
  lemma ProgramFits(p: Program, caching: bool)
    requires OneLineNames(p.functions) && CompileProgram(p, caching).Success?
    ensures AllEncodable(CompileProgram(p, caching).value.code)
  {
    hide Fit, Globals, Functions, BlockOf, BeginMain;
    var c1 := Globals(p.globals, Start(caching)).value;
    NothingFits(caching);
    GlobalsFit(p.globals, Start(caching));
    JumpFits(c1, NO_TARGET);
    var c2 := ProgramStart(c1);
    SameFits(JumpTo(c1, NO_TARGET), c2);
    FunctionsFit(p.functions, c2);
    Correctness.LastExtends(p, c2);
    var c3 := Functions(p.functions, c2).value;
    assert c3.code[|c1.code|] == c2.code[|c1.code|];
    MainFits(c3, |c1.code|);
    Correctness.MainKeeps(c3, |c1.code|);
    var c4 := BeginMain(c3, |c1.code|);
    InitialUnbound();
    BlockFits(p.main, c4);
    var c5 := BlockOf(p.main, c4).value.0;
    SameFits(c5, EndMain(c5));
    FitCode(EndMain(c5));
  }

  lemma NothingFits(caching: bool)
    ensures Fit(Start(caching))
  {
  }

  lemma FitCode(c: Compiler)
    requires Fit(c)
    ensures AllEncodable(c.code)
  {
  }

  lemma ResolvedFits(code: seq<Raw>)
    requires AllEncodable(code)
    ensures AllEncodable(ResolveAll(code))
  {
    hide OneLine;
    forall k | 0 <= k < |code|
      ensures Encodable(ResolveAll(code)[k]) && OneLine(ResolveAll(code)[k].comment)
    {
      assert Encodable(code[k]) && OneLine(code[k].comment);
    }
  }

  // The text file and the binary file of a compiled program load as machine
  // programs that run alike from every state, and the binary one is the image
  // the correctness theorems are about.
  lemma OutputsDenoteOneProgram(p: Program, caching: bool, m: State, t: nat)
    requires OneLineNames(p.functions) && CompileProgram(p, caching).Success?
    ensures var code := ResolveAll(CompileProgram(p, caching).value.code);
      && ParseLines(Lines(Text(code, 0))).Success?
      && |Packed(code)| % 4 == 0 && DecodeAll(Packed(code)) == Success(Output(p, caching))
      && Run(ParseLines(Lines(Text(code, 0))).value, m, t) == Run(Output(p, caching), m, t)
  {
    hide CompileProgram, Text, Packed, Lines, ParseLines, DecodeAll, ResolveAll, AssembleAll, AllEncodable;
    var code := CompileProgram(p, caching).value.code;
    ProgramFits(p, caching);
    ResolvedFits(code);
    BinaryReads(ResolveAll(code));
    AssembledIsDecoded(code);
    SameRuns(ResolveAll(code), m, t);
  }

  lemma {:induction false} SameRuns(code: seq<Raw>, m: State, t: nat)
    requires AllEncodable(code)
    ensures ParseLines(Lines(Text(code, 0))).Success? && |Packed(code)| % 4 == 0 && DecodeAll(Packed(code)).Success?
    ensures Run(ParseLines(Lines(Text(code, 0))).value, m, t) == Run(DecodeAll(Packed(code)).value, m, t)
    decreases t
  {
    hide Text, Packed, Lines, ParseLines, DecodeAll, AllEncodable, Step;
    OutputsAgree(code, m);
    if t > 0 {
      SameRuns(code, Step(DecodeAll(Packed(code)).value, m), t - 1);
    }
  }
}
