// What every generator action keeps of the compiler's state, whatever is compiled.
module Shape {
  import opened Wrappers
  import opened Machine
  import opened Instructions
  import opened RegisterTable
  import opened Symbols
  import opened Syntax
  import opened Codegen

  // Code is only ever appended.
  ghost predicate Extends(c: Compiler, d: Compiler) {
    |c.code| <= |d.code| && forall i | 0 <= i < |c.code| :: d.code[i] == c.code[i]
  }

  // The same generals are in use, but for `r`, which is newly in use.
  ghost predicate Takes(t: Table, u: Table, r: int) {
    && IsGeneral(r) && !t[r].inUse && u[r].inUse
    && forall q | IsGeneral(q) && q != r :: u[q].inUse == t[q].inUse
  }

  // The outcome of compiling an expression: only the register table and the
  // code change, and exactly the result register is newly in use.
  ghost predicate Delivers(c: Compiler, d: Compiler, r: int) {
    && d == c.(regs := d.regs, code := d.code)
    && Extends(c, d)
    && Takes(c.regs, d.regs, r)
  }

  // The outcome of compiling an argument list: its registers are recorded in
  // the innermost list, are distinct, and are exactly those newly in use.
  ghost predicate Collects(c: Compiler, d: Compiler, rs: seq<int>) {
    && c.pending != []
    && d == c.(regs := d.regs, code := d.code, pending := c.pending[|c.pending| - 1 := Arguments(c) + rs])
    && Extends(c, d)
    && (forall i | 0 <= i < |rs| :: IsGeneral(rs[i]) && !c.regs[rs[i]].inUse && d.regs[rs[i]].inUse)
    && (forall i, j | 0 <= i < j < |rs| :: rs[i] != rs[j])
    && (forall q | IsGeneral(q) && q !in rs :: d.regs[q].inUse == c.regs[q].inUse)
  }

  lemma {:induction false} StackPopsShape(c: Compiler, n: int)
    ensures var d := StackPops(c, n);
      d == c.(code := d.code) && Extends(c, d) && |d.code| == |c.code| + (if n > 0 then 2 * n else 0)
    decreases n
  {
    if n > 0 {
      StackPopsShape(StackPop(c), n - 1);
    }
  }

  lemma {:induction false} PushRegistersShape(c: Compiler, list: seq<int>)
    ensures var d := PushRegisters(c, list);
      d == c.(code := d.code) && Extends(c, d) && |d.code| == |c.code| + 3 * |list|
    decreases |list|
  {
    if list != [] {
      PushRegistersShape(PushRegister(c, list[0]), list[1..]);
    }
  }

  // Pushing arguments emits what pushing registers does, and frees them.
  lemma {:induction false} PushArgumentsShape(c: Compiler, args: seq<int>)
    ensures var d := PushArguments(c, args);
      && d == c.(regs := d.regs, code := d.code)
      && d.code == PushRegisters(c, args).code
      && forall q | IsGeneral(q) :: d.regs[q].inUse == (c.regs[q].inUse && q !in args)
    decreases |args|
  {
    if args != [] {
      var c1 := FreeRegister(PushRegister(c, args[0]), args[0]);
      PushArgumentsShape(c1, args[1..]);
      PushIgnoresTable(PushRegister(c, args[0]), c1.regs, args[1..]);
      forall q | IsGeneral(q)
        ensures PushArguments(c, args).regs[q].inUse == (c.regs[q].inUse && q !in args)
      {
        assert q in args <==> q == args[0] || q in args[1..];
      }
    }
  }

  lemma {:induction false} PushIgnoresTable(c: Compiler, t: Table, list: seq<int>)
    ensures PushRegisters(c.(regs := t), list).code == PushRegisters(c, list).code
    decreases |list|
  {
    if list != [] {
      PushIgnoresTable(PushRegister(c, list[0]), t, list[1..]);
    }
  }

  lemma {:induction false} RestoreRegistersShape(c: Compiler, list: seq<int>)
    ensures var d := RestoreRegisters(c, list);
      d == c.(code := d.code) && Extends(c, d) && |d.code| == |c.code| + 3 * |list|
    decreases |list|
  {
    if list != [] {
      RestoreRegistersShape(RestoreRegister(c, list[|list| - 1]), list[..|list| - 1]);
    }
  }

  lemma CallCodeShape(c: Compiler, entry: int)
    ensures var d := CallCode(c, entry);
      && d == c.(regs := d.regs, code := d.code)
      && Extends(c, d)
      && forall q | IsGeneral(q) :: d.regs[q].inUse == (c.regs[q].inUse && q !in Arguments(c))
  {
    var args := Arguments(c);
    var saved := Saved(c.regs, args, 1);
    var s0 := PushRegisters(c, saved);
    PushRegistersShape(c, saved);
    PushArgumentsShape(s0, args);
    PushRegistersShape(s0, args);
    var s1 := CallSequence(c, entry);
    StackPopsShape(s1, |args|);
    RestoreRegistersShape(StackPops(s1, |args|), saved);
  }

  lemma FunctionCallShape(c: Compiler, name: string)
    requires FunctionCall(c, name).Success?
    ensures var (d, r) := FunctionCall(c, name).value;
      && c.pending != []
      && d == c.(regs := d.regs, code := d.code, pending := c.pending[..|c.pending| - 1])
      && Extends(c, d)
      && IsGeneral(r) && d.regs[r].inUse && !(c.regs[r].inUse && r !in Arguments(c))
      && forall q | IsGeneral(q) && q != r :: d.regs[q].inUse == (c.regs[q].inUse && q !in Arguments(c))
  {
    var entry := FindFunction(c.functions, name).value;
    CallCodeShape(c, entry.address);
    var c1 := CallCode(c, entry.address);
    var c2 := c1.(regs := ForgetAvailable(c1.regs), pending := c.pending[..|c.pending| - 1]);
    var (c3, r) := AllocRegister(c2).value;
    assert FunctionCall(c, name).value == (Temporary(Emit2(c3, COP, r, REG_RETURN), r), r);
  }

  lemma VariableLoadShape(c: Compiler, name: string)
    requires VariableLoad(c, name).Success?
    ensures Delivers(c, VariableLoad(c, name).value.0, VariableLoad(c, name).value.1)
  {
    hide ConstantLoad, LocalLoad, GlobalLoad, Delivers;
    match Lookup(c.symbols, name)
    case None => ConstantLoadShape(c, 0);
    case Some(Local(offset)) => LocalLoadShape(c, offset);
    case Some(Global(address)) => GlobalLoadShape(c, address);
  }

  lemma ConstantLoadShape(c: Compiler, n: int)
    requires ConstantLoad(c, n).Success?
    ensures Delivers(c, ConstantLoad(c, n).value.0, ConstantLoad(c, n).value.1)
  {
  }

  lemma LocalLoadShape(c: Compiler, offset: int)
    requires LocalLoad(c, offset).Success?
    ensures Delivers(c, LocalLoad(c, offset).value.0, LocalLoad(c, offset).value.1)
  {
  }

  lemma GlobalLoadShape(c: Compiler, address: int)
    requires GlobalLoad(c, address).Success?
    ensures Delivers(c, GlobalLoad(c, address).value.0, GlobalLoad(c, address).value.1)
  {
  }

  lemma VariableAddressShape(c: Compiler, name: string)
    requires VariableAddress(c, name).Success?
    ensures Delivers(c, VariableAddress(c, name).value.0, VariableAddress(c, name).value.1)
  {
  }

  lemma BinaryShape(c: Compiler, c1: Compiler, l: int, c2: Compiler, r: int, op: BinaryOp)
    requires Delivers(c, c1, l) && Delivers(c1, c2, r)
    ensures Delivers(c, BinaryExpression(c2, op, l, r), l)
  {
  }

  lemma CallShape(c: Compiler, c2: Compiler, rs: seq<int>, name: string)
    requires Collects(c.(pending := c.pending + [[]]), c2, rs)
    requires FunctionCall(c2, name).Success?
    ensures Delivers(c, FunctionCall(c2, name).value.0, FunctionCall(c2, name).value.1)
  {
    var c1 := c.(pending := c.pending + [[]]);
    assert Arguments(c1) + rs == rs;
    assert Arguments(c2) == rs;
    FunctionCallShape(c2, name);
    assert c2.pending[..|c2.pending| - 1] == c.pending;
    var (d, r) := FunctionCall(c2, name).value;
    forall q | IsGeneral(q) && q != r
      ensures d.regs[q].inUse == c.regs[q].inUse
    {
      if q in rs {
        var i :| 0 <= i < |rs| && rs[i] == q;
      }
    }
    if r in rs {
      var i :| 0 <= i < |rs| && rs[i] == r;
    }
  }

  lemma {:induction false} ExpressionShape(e: Expr, c: Compiler)
    requires Expression(e, c).Success?
    ensures Delivers(c, Expression(e, c).value.0, Expression(e, c).value.1)
    decreases e
  {
    match e
    case Num(n) =>
    case Var(name) => VariableLoadShape(c, name);
    case AddressOf(name) => VariableAddressShape(c, name);
    case Binary(op, left, right) =>
      ExpressionShape(left, c);
      var (c1, l) := Expression(left, c).value;
      ExpressionShape(right, c1);
      var (c2, r) := Expression(right, c1).value;
      BinaryShape(c, c1, l, c2, r, op);
    case Not(operand) => ExpressionShape(operand, c);
    case Deref(operand) => ExpressionShape(operand, c);
    case Call(name, args) =>
      var c1 := BeginArguments(c).value;
      var rs := ArgumentListShape(args, c1);
      CallShape(c, ArgumentList(args, c1).value, rs, name);
  }

  lemma CollectsOneMore(c: Compiler, c1: Compiler, r: int, d: Compiler, more: seq<int>)
    requires Delivers(c, c1, r) && AddArgument(c1, r).Success?
    requires Collects(AddArgument(c1, r).value, d, more)
    ensures Collects(c, d, [r] + more)
  {
    var c2 := AddArgument(c1, r).value;
    assert Arguments(c2) + more == Arguments(c) + ([r] + more);
    assert d.pending == c.pending[|c.pending| - 1 := Arguments(c) + ([r] + more)];
    forall q | IsGeneral(q) && q !in [r] + more
      ensures d.regs[q].inUse == c.regs[q].inUse
    {
      assert q != r && q !in more by { assert r == ([r] + more)[0]; }
    }
  }

  lemma {:induction false} ArgumentListShape(args: Args, c: Compiler) returns (rs: seq<int>)
    requires c.pending != []
    requires ArgumentList(args, c).Success?
    ensures Collects(c, ArgumentList(args, c).value, rs)
    ensures |rs| == Length(args)
    decreases args
  {
    match args
    case NoArgs =>
      rs := [];
      assert Arguments(c) + [] == Arguments(c);
    case Arg(first, rest) =>
      ExpressionShape(first, c);
      var (c1, r) := Expression(first, c).value;
      var c2 := AddArgument(c1, r).value;
      var more := ArgumentListShape(rest, c2);
      CollectsOneMore(c, c1, r, ArgumentList(rest, c2).value, more);
      rs := [r] + more;
  }

  // ---------- statements ----------

  // No expression is under construction.
  ghost predicate Idle(t: Table) {
    forall q | IsGeneral(q) :: !t[q].inUse
  }

  // The outcome of a statement inside a body: symbols and locals are added
  // above the present ones and everything that is not code stays.
  ghost predicate Continues(c: Compiler, d: Compiler) {
    && d == c.(regs := d.regs, code := d.code, symbols := d.symbols, nextLocal := d.nextLocal)
    && Extends(c, d)
    && c.symbols <= d.symbols
    && c.nextLocal <= d.nextLocal
    && Idle(d.regs)
  }

  // The outcome of a block: names and locals are as before, nothing is cached
  // and the count is the number of instructions it emitted.
  ghost predicate Encloses(c: Compiler, d: Compiler, count: int) {
    && d == c.(regs := INITIAL, code := d.code)
    && Extends(c, d)
    && |d.code| == |c.code| + count
  }

  lemma FreedIsIdle(c: Compiler, d: Compiler, r: int)
    requires Idle(c.regs) && Delivers(c, d, r)
    ensures Idle(Free(d.regs, r))
  {
  }

  lemma DeclarationEffect(c: Compiler, name: string, r: int)
    requires c.inside && IsGeneral(r) && Idle(Free(c.regs, r))
    ensures Continues(c, VariableDeclaration(c, name, r))
  {
  }

  lemma {:induction false} LetZerosShape(names: seq<string>, c: Compiler)
    requires c.inside && Idle(c.regs) && LetZeros(names, c).Success?
    ensures Continues(c, LetZeros(names, c).value)
    decreases |names|
  {
    if names != [] {
      var (c1, r) := ConstantLoad(c, 0).value;
      FreedIsIdle(c, c1, r);
      DeclarationEffect(c1, names[|names| - 1], r);
      LetZerosShape(names[..|names| - 1], VariableDeclaration(c1, names[|names| - 1], r));
    }
  }

  lemma AssignmentEffect(c: Compiler, name: string, r: int)
    requires IsGeneral(r) && Idle(Free(c.regs, r))
    ensures Continues(c, VariableAssignment(c, name, r))
  {
  }

  lemma EndBlockShape(c: Compiler, body: Compiler)
    requires Continues(BeginBlock(c), body)
    ensures Encloses(c, EndBlock(body).0, EndBlock(body).1)
  {
    StackPopsShape(body, body.nextLocal - body.scope.offsetBase);
    assert Restore(body.symbols, |c.symbols|) == c.symbols;
    assert body.outer[..|body.outer| - 1] == c.outer;
  }

  // The outcome of an if: as for a block.
  ghost predicate Rejoins(c: Compiler, d: Compiler) {
    d == c.(regs := INITIAL, code := d.code) && Extends(c, d)
  }

  lemma ConditionalPartShape(c: Compiler, c1: Compiler, r: int, c2: Compiler, count: int, offset: int)
    requires Delivers(c, c1, r) && Encloses(ConditionalJump(c1, r), c2, count)
    ensures Rejoins(c, PatchConditional(c2, |c1.code|, offset))
  {
  }

  lemma AlternativePartShape(c: Compiler, d: Compiler, offset: int)
    requires Rejoins(UnconditionalJump(c), d)
    ensures Rejoins(c, PatchUnconditional(d, |c.code|, offset))
  {
  }

  lemma StoreEffect(c: Compiler, c1: Compiler, a: int, c2: Compiler, r: int)
    requires Idle(c.regs) && Delivers(c, c1, a) && Delivers(c1, c2, r)
    ensures Continues(c, PointerStore(c2, a, r))
  {
  }

  lemma ReturnEffect(c: Compiler, c1: Compiler, r: int)
    requires Idle(c.regs) && Delivers(c, c1, r)
    ensures Continues(c, ReturnStatement(c1, r))
  {
  }

  lemma UseEffect(c: Compiler, c1: Compiler, r: int)
    requires Idle(c.regs) && Delivers(c, c1, r)
    ensures Continues(c, PrintStatement(c1, r))
    ensures Continues(c, DiscardExpression(c1, r))
  {
  }

  lemma LoopEffect(c: Compiler, d: Compiler, head: int)
    requires Rejoins(Reset(c), d)
    ensures Continues(c, LoopBack(d, head))
  {
  }

  predicate Compound(s: Stmt) {
    s.Block? || s.If? || s.While? || s.Declare?
  }

  lemma SimpleShape(s: Stmt, c: Compiler)
    requires Idle(c.regs) && !Compound(s) && Statement(s, c).Success?
    ensures Continues(c, Statement(s, c).value)
  {
    var e := if s.Store? then s.target else s.value;
    ExpressionShape(e, c);
    var (c1, r) := Expression(e, c).value;
    match s
    case Assign(name, _) => AssignmentEffect(c1, name, r);
    case Store(_, value) =>
      ExpressionShape(value, c1);
      var (c2, v) := Expression(value, c1).value;
      StoreEffect(c, c1, r, c2, v);
    case Return(_) => ReturnEffect(c, c1, r);
    case _ => UseEffect(c, c1, r);
  }

  lemma DeclareShape(d: Decl, c: Compiler)
    requires c.inside && Idle(c.regs) && Declaration(d, c).Success?
    ensures Continues(c, Declaration(d, c).value)
  {
    match d
    case Let(name, init) =>
      ExpressionShape(init, c);
      var (c1, r) := Expression(init, c).value;
      DeclarationEffect(c1, name, r);
    case LetZero(names) => LetZerosShape(names, c);
  }

  lemma {:induction false} StatementShape(s: Stmt, c: Compiler)
    requires c.inside && Idle(c.regs) && Statement(s, c).Success?
    ensures Continues(c, Statement(s, c).value)
    decreases s
  {
    match s
    case Block(body) => BlockShape(body, c);
    case Declare(d) => DeclareShape(d, c);
    case If(branch) => IfShape(branch, c);
    case While(cond, body) =>
      ConditionalShape(cond, body, Reset(c), 2);
      LoopEffect(c, Conditional(cond, body, Reset(c), 2).value.0, if ScopeCount(c) > 0 then |c.code| else NO_TARGET);
    case _ => SimpleShape(s, c);
  }

  lemma {:induction false} ConditionalShape(cond: Expr, body: Stmts, c: Compiler, extra: int)
    requires c.inside && Idle(c.regs) && Conditional(cond, body, c, extra).Success?
    ensures Rejoins(c, Conditional(cond, body, c, extra).value.0)
    decreases body, 2
  {
    ExpressionShape(cond, c);
    var (c1, r) := Expression(cond, c).value;
    BlockShape(body, ConditionalJump(c1, r));
    var (c2, count) := BlockOf(body, ConditionalJump(c1, r)).value;
    ConditionalPartShape(c, c1, r, c2, count, count + extra);
  }

  lemma {:induction false} AlternativeShape(els: Stmts, c: Compiler)
    requires c.inside && Alternative(els, c).Success?
    ensures Rejoins(c, Alternative(els, c).value.0)
    decreases els, 2
  {
    BlockShape(els, UnconditionalJump(c));
    var (c1, count) := BlockOf(els, UnconditionalJump(c)).value;
    AlternativePartShape(c, c1, count + 1);
  }

  lemma {:induction false} AlternativeIfShape(rest: IfStmt, c: Compiler)
    requires c.inside && AlternativeIf(rest, c).Success?
    ensures Rejoins(c, AlternativeIf(rest, c).value.0)
    decreases rest, 1
  {
    IfShape(rest, UnconditionalJump(c));
    var (c1, count) := IfStatement(rest, UnconditionalJump(c)).value;
    AlternativePartShape(c, c1, count + 1);
  }

  lemma RejoinsTransitive(c: Compiler, d: Compiler, e: Compiler)
    requires Rejoins(c, d) && Rejoins(d, e)
    ensures Rejoins(c, e)
  {
  }

  lemma {:induction false} IfShape(i: IfStmt, c: Compiler)
    requires c.inside && Idle(c.regs) && IfStatement(i, c).Success?
    ensures Rejoins(c, IfStatement(i, c).value.0)
    decreases i, 0
  {
    match i
    case IfThen(cond, thn) => ConditionalShape(cond, thn, c, 1);
    case IfElse(cond, thn, els) =>
      ConditionalShape(cond, thn, c, 2);
      var c1 := Conditional(cond, thn, c, 2).value.0;
      AlternativeShape(els, c1);
      RejoinsTransitive(c, c1, Alternative(els, c1).value.0);
    case IfElseIf(cond, thn, rest) =>
      ConditionalShape(cond, thn, c, 2);
      var c1 := Conditional(cond, thn, c, 2).value.0;
      AlternativeIfShape(rest, c1);
      RejoinsTransitive(c, c1, AlternativeIf(rest, c1).value.0);
  }

  lemma {:induction false} BlockShape(body: Stmts, c: Compiler)
    requires c.inside && Idle(c.regs) && BlockOf(body, c).Success?
    ensures Encloses(c, BlockOf(body, c).value.0, BlockOf(body, c).value.1)
    decreases body, 1
  {
    StatementsShape(body, BeginBlock(c));
    EndBlockShape(c, Statements(body, BeginBlock(c)).value);
  }

  lemma {:induction false} StatementsShape(ss: Stmts, c: Compiler)
    requires c.inside && Idle(c.regs) && Statements(ss, c).Success?
    ensures Continues(c, Statements(ss, c).value)
    decreases ss, 0
  {
    match ss
    case Nil =>
    case Cons(head, tail) =>
      StatementShape(head, c);
      StatementsShape(tail, Statement(head, c).value);
  }
}
