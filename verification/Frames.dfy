// Which cells the names of a function stand for, and which cached values
// survive up to the places jumps lead to.
module Frames {
  import opened Wrappers
  import opened Machine
  import opened Instructions
  import opened RegisterTable
  import opened Symbols
  import opened Syntax
  import opened Codegen
  import opened Shape
  import opened StatementSim
  import opened Linking
  import CallSim
  import Naming

  // ---------- locals ----------

  // From symbol `base` on, the table holds the locals of the current function,
  // one for each offset below the next free one: no two share a cell, even
  // where one name hides another.
  ghost predicate Framed(c: Compiler, base: nat) {
    && |c.symbols| == base + c.nextLocal
    && forall i | 0 <= i < c.nextLocal :: c.symbols[base + i].location == Local(i)
  }

  // Two locals that are declared at the same time have different cells.
  lemma LocalsApart(c: Compiler, base: nat, i: nat, j: nat)
    requires Framed(c, base) && base <= i < j < |c.symbols|
    ensures c.symbols[i].location != c.symbols[j].location
  {
    assert c.symbols[base + (i - base)].location == Local(i - base);
    assert c.symbols[base + (j - base)].location == Local(j - base);
  }

  lemma EntryFramed(f: Function, c: Compiler)
    requires BeginFunction(c, f.name, f.parameters).Success?
    ensures Framed(BeginFunction(c, f.name, f.parameters).value, |c.symbols|)
  {
    hide FunctionPrefix, ParameterLocals;
    var c1 := FunctionPrefix(EnterFunction(c, f.name, |f.parameters|));
    PrefixShape(EnterFunction(c, f.name, |f.parameters|));
    BeginFunctionShape(c, f.name, f.parameters);
    Naming.ParameterLocalsSymbols(c1, f.parameters, 0);
    assert Naming.ParameterSymbols(f.parameters)[0..] == Naming.ParameterSymbols(f.parameters);
  }

  lemma DeclareFramed(c: Compiler, base: nat, name: string, r: int)
    requires Framed(c, base) && c.inside
    ensures Framed(VariableDeclaration(c, name, r), base)
  {
  }

  lemma {:induction false} ZerosFramed(names: seq<string>, c: Compiler, base: nat)
    requires Framed(c, base) && c.inside && LetZeros(names, c).Success?
    ensures Framed(LetZeros(names, c).value, base)
    decreases |names|
  {
    hide VariableDeclaration;
    if names != [] {
      var (c1, r) := ConstantLoad(c, 0).value;
      DeclareFramed(c1, base, names[|names| - 1], r);
      DeclareKeepsInside(c1, names[|names| - 1], r);
      ZerosFramed(names[..|names| - 1], VariableDeclaration(c1, names[|names| - 1], r), base);
    }
  }

  lemma DeclareKeepsInside(c: Compiler, name: string, r: int)
    ensures VariableDeclaration(c, name, r).inside == c.inside
  {
  }

  lemma SimpleFramed(s: Stmt, c: Compiler, base: nat)
    requires Framed(c, base) && c.inside && Idle(c.regs) && !s.Declare? && Statement(s, c).Success?
    ensures Framed(Statement(s, c).value, base)
  {
    StatementShape(s, c);
    NamesKept(s, c);
    hide Statement;
  }

  // Only a declaration adds names or locals to what follows a statement.
  lemma NamesKept(s: Stmt, c: Compiler)
    requires c.inside && Idle(c.regs) && !s.Declare? && Statement(s, c).Success?
    ensures var d := Statement(s, c).value; d.symbols == c.symbols && d.nextLocal == c.nextLocal
  {
    hide Expression, BlockOf, IfStatement, Conditional;
    match s
    case Block(body) => BlockShape(body, c);
    case If(branch) => IfShape(branch, c);
    case While(cond, body) => ConditionalShape(cond, body, Reset(c), 2);
    case _ => OperandKeepsNames(s, c);
  }

  lemma OperandKeepsNames(s: Stmt, c: Compiler)
    requires !Compound(s) && Statement(s, c).Success?
    ensures var d := Statement(s, c).value; d.symbols == c.symbols && d.nextLocal == c.nextLocal
  {
    hide Expression, VariableAssignment, ReturnStatement, PointerStore, PrintStatement, DiscardExpression;
    var e := if s.Store? then s.target else s.value;
    ExpressionShape(e, c);
    var (c1, r) := Expression(e, c).value;
    UsesKeepNames(c1, r, r);
    match s
    case Assign(name, _) => AssignmentKeepsNames(c1, name, r);
    case Store(_, value) =>
      ExpressionShape(value, c1);
      UsesKeepNames(Expression(value, c1).value.0, r, Expression(value, c1).value.1);
    case _ =>
  }

  lemma AssignmentKeepsNames(c: Compiler, name: string, r: int)
    ensures var d := VariableAssignment(c, name, r); d.symbols == c.symbols && d.nextLocal == c.nextLocal
  {
    hide ForgetMemory, BindMemory, Free, Lookup;
  }

  lemma UsesKeepNames(c: Compiler, a: int, r: int)
    ensures var d := ReturnStatement(c, r); d.symbols == c.symbols && d.nextLocal == c.nextLocal
    ensures var d := PrintStatement(c, r); d.symbols == c.symbols && d.nextLocal == c.nextLocal
    ensures var d := DiscardExpression(c, r); d.symbols == c.symbols && d.nextLocal == c.nextLocal
    ensures var d := PointerStore(c, a, r); d.symbols == c.symbols && d.nextLocal == c.nextLocal
  {
    hide FunctionSuffix;
    var c1 := FreeRegister(Emit2(c, COP, REG_RETURN, r), r);
    SuffixShape(c1);
    assert ReturnStatement(c, r) == Reset(FunctionSuffix(c1));
  }

  // The layout holds after every statement of a body; with Encloses it follows
  // for the bodies of inner blocks, which begin with the same table.
  lemma {:induction false} BodyFramed(ss: Stmts, c: Compiler, base: nat)
    requires Framed(c, base) && c.inside && Idle(c.regs) && Statements(ss, c).Success?
    ensures Framed(Statements(ss, c).value, base)
    decreases ss
  {
    hide Statement, Declaration, LetZeros, Expression;
    match ss
    case Nil =>
    case Cons(head, tail) =>
      StatementShape(head, c);
      if head.Declare? {
        DeclareIs(head.decl, c);
        DeclarationFramed(head.decl, c, base);
      } else {
        SimpleFramed(head, c, base);
      }
      BodyFramed(tail, Statement(head, c).value, base);
  }

  lemma DeclareIs(d: Decl, c: Compiler)
    ensures Statement(Declare(d), c) == Declaration(d, c)
  {
  }

  lemma DeclarationFramed(d: Decl, c: Compiler, base: nat)
    requires Framed(c, base) && c.inside && Declaration(d, c).Success?
    ensures Framed(Declaration(d, c).value, base)
  {
    hide VariableDeclaration, LetZeros, Expression;
    match d
    case Let(name, init) =>
      ExpressionShape(init, c);
      DeclareFramed(Expression(init, c).value.0, base, name, Expression(init, c).value.1);
    case LetZero(names) => ZerosFramed(names, c, base);
  }

  // ---------- where jumps lead ----------

  // No register that is free is bound to a cell.
  ghost predicate Forgotten(t: Table) {
    forall q | IsGeneral(q) && !t[q].inUse :: t[q].address == NO_MEMORY
  }

  // Nothing is cached where paths meet: after an if or a loop, at the start of
  // its blocks, at a loop's condition, at a function's body and at main's.
  lemma MeetingPoints(s: Stmt, c: Compiler, r: int, f: Function, start: nat)
    requires c.inside && Idle(c.regs) && Statement(s, c).Success?
    ensures s.If? || s.While? || s.Block? ==> Forgotten(Statement(s, c).value.regs)
    ensures Forgotten(ConditionalJump(c, r).regs) && Forgotten(UnconditionalJump(c).regs) && Forgotten(Reset(c).regs)
    ensures Forgotten(BeginMain(c, start).regs)
    ensures BeginFunction(c, f.name, f.parameters).Success?
      ==> Forgotten(BeginFunction(c, f.name, f.parameters).value.regs)
  {
    hide BlockOf, IfStatement, Conditional, BeginFunction;
    InitialUnbound();
    match s {
      case Block(body) => BlockShape(body, c);
      case If(branch) => IfShape(branch, c);
      case _ =>
    }
    if BeginFunction(c, f.name, f.parameters).Success? {
      BeginFunctionShape(c, f.name, f.parameters);
    }
  }

  // And nothing is cached where a call returns to.
  lemma ReturnPoint(c: Compiler, name: string)
    requires FunctionCall(c, name).Success?
    ensures Forgotten(FunctionCall(c, name).value.0.regs)
  {
    hide CallCode;
    var c1 := CallCode(c, FindFunction(c.functions, name).value.address);
    assert Forgotten(ForgetAvailable(c1.regs));
  }
}
