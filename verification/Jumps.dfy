// Where the jumps of structured statements lead, for every statement the
// grammar accepts, and exactly when that is where they should.
module Jumps {
  import opened Wrappers
  import opened Machine
  import opened Instructions
  import opened RegisterTable
  import opened Symbols
  import opened Syntax
  import opened Codegen
  import opened Shape
  import opened StatementSim
  import opened Linking

  // The address a jump resolves to.
  function Target(code: seq<Raw>, at: nat): int
    requires at < |code|
  {
    var i := Resolve(code[at], at);
    Operand(if i.op == JF then i.z else i.y)
  }

  // The conditional jump of a guarded block leads `extra` - 1 instructions
  // past the block, whatever the block contains.
  lemma ConditionalTarget(cond: Expr, body: Stmts, c: Compiler, extra: int) returns (at: nat)
    requires c.inside && Idle(c.regs) && Conditional(cond, body, c, extra).Success?
    ensures var d := Conditional(cond, body, c, extra).value.0;
      && |c.code| <= at < |d.code| && d.code[at].op == JF
      && Target(d.code, at) == |d.code| + extra - 1
      && |d.code| == at + 1 + Conditional(cond, body, c, extra).value.1
  {
    hide Expression, BlockOf;
    ExpressionShape(cond, c);
    var (c1, r) := Expression(cond, c).value;
    var cj := ConditionalJump(c1, r);
    InitialUnbound();
    BlockShape(body, cj);
    var (c2, count) := BlockOf(body, cj).value;
    at := |c1.code|;
    assert c2.code[at] == Plain(JF, 0, r, 0).(relative := true);
  }

  // The number of instructions that compute the conditions of an if statement.
  function ConditionCode(i: IfStmt, c: Compiler): int
    decreases i
  {
    match Expression(i.cond, c)
    case Failure(_) => 0
    case Success((c1, _)) =>
      |c1.code| - |c.code| +
      (match i
       case IfElseIf(cond, thn, rest) =>
         (match Conditional(cond, thn, c, 2)
          case Success((c2, _)) => ConditionCode(rest, UnconditionalJump(c2))
          case Failure(_) => 0)
       case _ => 0)
  }

  // The count the grammar computes for an if statement misses exactly the
  // instructions of its conditions.
  lemma {:induction false} IfCount(i: IfStmt, c: Compiler)
    requires c.inside && Idle(c.regs) && IfStatement(i, c).Success?
    ensures var (d, count) := IfStatement(i, c).value;
      |d.code| - |c.code| == count + ConditionCode(i, c)
    decreases i
  {
    hide Expression, BlockOf, Conditional;
    var extra := if i.IfThen? then 1 else 2;
    ConditionalCount(i.cond, i.thn, c, extra);
    ConditionalShape(i.cond, i.thn, c, extra);
    var c1 := Conditional(i.cond, i.thn, c, extra).value.0;
    InitialUnbound();
    match i
    case IfThen(_, _) =>
    case IfElse(_, _, els) => BlockShape(els, UnconditionalJump(c1));
    case IfElseIf(_, _, rest) => IfCount(rest, UnconditionalJump(c1));
  }

  lemma ConditionalCount(cond: Expr, body: Stmts, c: Compiler, extra: int)
    requires c.inside && Idle(c.regs) && Conditional(cond, body, c, extra).Success?
    ensures Expression(cond, c).Success?
    ensures |Conditional(cond, body, c, extra).value.0.code|
      == |Expression(cond, c).value.0.code| + 1 + Conditional(cond, body, c, extra).value.1
  {
    hide Expression, BlockOf;
    ExpressionShape(cond, c);
    var (c1, r) := Expression(cond, c).value;
    InitialUnbound();
    BlockShape(body, ConditionalJump(c1, r));
  }

  // The jump over an else block leads to the end of the statement.
  lemma ElseTarget(els: Stmts, c: Compiler)
    requires c.inside && Alternative(els, c).Success?
    ensures var d := Alternative(els, c).value.0;
      |c.code| < |d.code| && d.code[|c.code|].op == J && Target(d.code, |c.code|) == |d.code|
  {
    hide BlockOf;
    var cu := UnconditionalJump(c);
    InitialUnbound();
    BlockShape(els, cu);
    assert BlockOf(els, cu).value.0.code[|c.code|] == Plain(J, 0, 0, 0).(relative := true);
  }

  // The jump over an "else if" leads to the end of the statement exactly when
  // the conditions it skips take no instructions; otherwise it falls short by
  // their number.
  lemma ElseIfTarget(rest: IfStmt, c: Compiler)
    requires c.inside && AlternativeIf(rest, c).Success?
    ensures var d := AlternativeIf(rest, c).value.0;
      && |c.code| < |d.code| && d.code[|c.code|].op == J
      && Target(d.code, |c.code|) == |d.code| - ConditionCode(rest, UnconditionalJump(c))
  {
    hide IfStatement, ConditionCode;
    var cu := UnconditionalJump(c);
    InitialUnbound();
    IfShape(rest, cu);
    IfCount(rest, cu);
    assert IfStatement(rest, cu).value.0.code[|c.code|] == Plain(J, 0, 0, 0).(relative := true);
  }

  // With nothing cached, only the address of an undeclared name compiles to nothing.
  lemma {:induction false} CodelessExpression(e: Expr, c: Compiler)
    requires Unbound(c.regs) && Expression(e, c).Success?
    ensures |Expression(e, c).value.0.code| == |c.code| <==> e.AddressOf? && Lookup(c.symbols, e.name) == None
    decreases e
  {
    match e
    case Binary(_, left, right) =>
      ExpressionShape(left, c);
      ExpressionShape(right, Expression(left, c).value.0);
    case Not(operand) => ExpressionShape(operand, c);
    case Deref(operand) => ExpressionShape(operand, c);
    case Call(name, args) => CallEmits(e, c);
    case Num(_) =>
    case AddressOf(_) =>
    case Var(name) => UncachedLoad(c, name);
  }

  lemma UncachedLoad(c: Compiler, name: string)
    requires Unbound(c.regs) && VariableLoad(c, name).Success?
    ensures |VariableLoad(c, name).value.0.code| > |c.code|
  {
    hide ConstantLoad, LocalLoad, GlobalLoad;
    match Lookup(c.symbols, name)
    case None => ConstantEmits(c, 0);
    case Some(Local(offset)) => LocalEmits(c, offset);
    case Some(Global(address)) => GlobalEmits(c, address);
  }

  lemma ConstantEmits(c: Compiler, n: int)
    requires ConstantLoad(c, n).Success?
    ensures |ConstantLoad(c, n).value.0.code| > |c.code|
  {
  }

  lemma LocalEmits(c: Compiler, offset: int)
    requires LocalLoad(c, offset).Success?
    ensures |LocalLoad(c, offset).value.0.code| > |c.code|
  {
  }

  lemma GlobalEmits(c: Compiler, address: nat)
    requires Unbound(c.regs) && GlobalLoad(c, address).Success?
    ensures |GlobalLoad(c, address).value.0.code| > |c.code|
  {
  }

  lemma CallEmits(e: Expr, c: Compiler)
    requires e.Call? && Expression(e, c).Success?
    ensures |Expression(e, c).value.0.code| > |c.code|
  {
    var c1 := BeginArguments(c).value;
    var rs := ArgumentListShape(e.args, c1);
    var c2 := ArgumentList(e.args, c1).value;
    var entry := FindFunction(c2.functions, e.name).value.address;
    CallCodeShape(c2, entry);
    hide CallCode, ArgumentList;
  }

  lemma {:induction false} ConditionCodeZero(i: IfStmt, c: Compiler)
    requires c.inside && Idle(c.regs) && Unbound(c.regs) && IfStatement(i, c).Success?
    ensures ConditionCode(i, c) >= 0
    ensures ConditionCode(i, c) == 0 <==> Codeless(i, c.symbols)
    decreases i
  {
    hide Expression, BlockOf, Conditional;
    var extra := if i.IfThen? then 1 else 2;
    ConditionalCount(i.cond, i.thn, c, extra);
    ExpressionShape(i.cond, c);
    CodelessExpression(i.cond, c);
    if i.IfElseIf? {
      ConditionalShape(i.cond, i.thn, c, 2);
      InitialUnbound();
      ConditionCodeZero(i.rest, UnconditionalJump(Conditional(i.cond, i.thn, c, 2).value.0));
    }
  }

  // The jump over an "else if" meets the end of the statement exactly when the
  // conditions it skips are all addresses of undeclared names; it is never past it.
  lemma ElseIfMeetsEnd(rest: IfStmt, c: Compiler)
    requires c.inside && AlternativeIf(rest, c).Success?
    ensures var d := AlternativeIf(rest, c).value.0;
      && |c.code| < |d.code|
      && Target(d.code, |c.code|) <= |d.code|
      && (Target(d.code, |c.code|) == |d.code| <==> Codeless(rest, c.symbols))
  {
    hide IfStatement, ConditionCode, Codeless;
    ElseIfTarget(rest, c);
    InitialUnbound();
    ConditionCodeZero(rest, UnconditionalJump(c));
  }

  // The loop-back jump leads to the first instruction of the condition exactly
  // when the scope already held an instruction; without one it leads to address
  // 0, the start of the program.
  lemma LoopTarget(s: Stmt, c: Compiler)
    requires s.While? && c.inside && Statement(s, c).Success?
    ensures var d := Statement(s, c).value;
      && d.code != [] && d.code[|d.code| - 1].op == J
      && Target(d.code, |d.code| - 1) == (if ScopeCount(c) > 0 then |c.code| else 0)
    ensures var d := Statement(s, c).value;
      Target(d.code, |d.code| - 1) == |c.code| <==> ScopeCount(c) > 0 || |c.code| == 0
  {
    hide Conditional;
  }

  // The conditional jump out of a loop leads past the loop-back jump.
  lemma LoopExitTarget(s: Stmt, c: Compiler) returns (at: nat)
    requires s.While? && c.inside && Statement(s, c).Success?
    ensures var d := Statement(s, c).value;
      && |c.code| <= at < |d.code| && d.code[at].op == JF && Target(d.code, at) == |d.code|
  {
    InitialUnbound();
    at := ConditionalTarget(s.cond, s.body, Reset(c), 2);
    hide Conditional;
  }
}
