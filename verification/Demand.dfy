// Exactly how many registers an expression needs.
module Demand {
  import opened Wrappers
  import opened Machine
  import opened RegisterTable
  import opened Symbols
  import opened Syntax
  import opened Codegen
  import opened Shape
  import opened Preservation

  function Max(x: nat, y: nat): nat {
    if x < y then y else x
  }

  // The left operand is computed first and held while the right one is.
  function Need(e: Expr): nat {
    match e
    case Num(_) => 1
    case Var(_) => 1
    case AddressOf(_) => 1
    case Not(operand) => Need(operand)
    case Deref(operand) => Need(operand)
    case Binary(_, left, right) => Max(Need(left), 1 + Need(right))
    case Call(_, args) => Max(1, NeedArgs(args))
  }

  // Argument i is computed while the i before it are held.
  function NeedArgs(args: Args): nat {
    match args
    case NoArgs => 0
    case Arg(first, rest) => Max(Need(first), 1 + NeedArgs(rest))
  }

  // Every call names a declared function with the right number of arguments
  // and calls nest at most sixteen deep.
  predicate CallsFit(e: Expr, functions: seq<Entry>, depth: nat) {
    match e
    case Num(_) => true
    case Var(_) => true
    case AddressOf(_) => true
    case Not(operand) => CallsFit(operand, functions, depth)
    case Deref(operand) => CallsFit(operand, functions, depth)
    case Binary(_, left, right) => CallsFit(left, functions, depth) && CallsFit(right, functions, depth)
    case Call(name, args) =>
      && depth < MAX_CALL_DEPTH
      && (match FindFunction(functions, name) case Some(entry) => entry.arity == Length(args) case None => false)
      && ArgsFit(args, functions, depth + 1)
  }

  predicate ArgsFit(args: Args, functions: seq<Entry>, depth: nat) {
    match args
    case NoArgs => true
    case Arg(first, rest) => CallsFit(first, functions, depth) && ArgsFit(rest, functions, depth)
  }

  const GENERALS := 11

  function UpTo(n: nat): set<int> {
    if n == 0 then {} else UpTo(n - 1) + {n}
  }

  lemma {:induction false} CountUpTo(n: nat)
    ensures |UpTo(n)| == n && forall r :: r in UpTo(n) <==> 1 <= r <= n
    decreases n
  {
    if n > 0 {
      CountUpTo(n - 1);
    }
  }

  lemma SubsetSize(a: set<int>, b: set<int>)
    requires a <= b
    ensures |a| <= |b| && (|a| == |b| ==> a == b)
  {
    assert a * (b - a) == {};
    assert b == a + (b - a);
    assert |b| == |a| + |b - a|;
  }

  // Allocation fails only when all eleven general registers are in use.
  lemma AllocExactly(t: Table)
    ensures Alloc(t).Some? <==> |InUse(t)| < GENERALS
    ensures |InUse(t)| <= GENERALS
  {
    var all := UpTo(GENERALS);
    CountUpTo(GENERALS);
    hide UpTo;
    SubsetSize(InUse(t), all);
    var f := FirstFree(t, 1);
    if f == 12 {
      assert InUse(t) == all;
    } else {
      assert f in all && f !in InUse(t);
    }
  }

  lemma LeafDemand(c: Compiler, name: string, n: int)
    ensures ConstantLoad(c, n).Success? <==> |InUse(c.regs)| < GENERALS
    ensures VariableLoad(c, name).Success? <==> |InUse(c.regs)| < GENERALS
    ensures VariableAddress(c, name).Success? <==> |InUse(c.regs)| < GENERALS
  {
    AllocExactly(c.regs);
    match Lookup(c.symbols, name)
    case Some(Global(address)) =>
      if FindMemory(c.regs, address).Some? {
        assert !c.regs[FindMemory(c.regs, address).value.1].inUse;
      }
    case _ =>
  }

  // Compilation of an expression succeeds exactly when its calls are right and
  // the registers in use leave room for its need, whatever the cache holds.
  lemma {:induction false} ExpressionDemand(e: Expr, c: Compiler)
    ensures Expression(e, c).Success? <==>
      CallsFit(e, c.functions, |c.pending|) && |InUse(c.regs)| + Need(e) <= GENERALS
    decreases e
  {
    match e
    case Num(n) => LeafDemand(c, "", n);
    case Var(name) => LeafDemand(c, name, 0);
    case AddressOf(name) => LeafDemand(c, name, 0);
    case Not(operand) => ExpressionDemand(operand, c);
    case Deref(operand) => ExpressionDemand(operand, c);
    case Binary(_, left, right) => BinaryDemand(e, c);
    case Call(_, args) => CallDemand(e, c);
  }

  lemma {:induction false} BinaryDemand(e: Expr, c: Compiler)
    requires e.Binary?
    ensures Expression(e, c).Success? <==>
      CallsFit(e, c.functions, |c.pending|) && |InUse(c.regs)| + Need(e) <= GENERALS
    decreases e, 0
  {
    ExpressionDemand(e.left, c);
    if Expression(e.left, c).Success? {
      ExpressionShape(e.left, c);
      var (c1, l) := Expression(e.left, c).value;
      InUseTakes(c.regs, c1.regs, l);
      ExpressionDemand(e.right, c1);
    }
  }

  lemma {:induction false} CallDemand(e: Expr, c: Compiler)
    requires e.Call?
    ensures Expression(e, c).Success? <==>
      CallsFit(e, c.functions, |c.pending|) && |InUse(c.regs)| + Need(e) <= GENERALS
    decreases e, 0
  {
    if |c.pending| < MAX_CALL_DEPTH {
      var c1 := c.(pending := c.pending + [[]]);
      ArgumentsDemand(e.args, c1);
      if ArgumentList(e.args, c1).Success? {
        var rs := ArgumentListShape(e.args, c1);
        var c2 := ArgumentList(e.args, c1).value;
        assert Arguments(c1) + rs == rs;
        ResultDemand(c, c2, rs, e.name);
      }
    }
  }

  // After the arguments are released the result needs one register.
  lemma ResultDemand(c: Compiler, c2: Compiler, rs: seq<int>, name: string)
    requires Collects(c.(pending := c.pending + [[]]), c2, rs) && Arguments(c2) == rs
    ensures FunctionCall(c2, name).Success? <==>
      (match FindFunction(c.functions, name) case Some(entry) => entry.arity == |rs| case None => false)
      && |InUse(c.regs)| < GENERALS
  {
    match FindFunction(c2.functions, name)
    case None =>
    case Some(entry) =>
      CallCodeShape(c2, entry.address);
      hide CallCode;
      var c3 := CallCode(c2, entry.address);
      forall q | IsGeneral(q)
        ensures ForgetAvailable(c3.regs)[q].inUse == c.regs[q].inUse
      {
        if q in rs {
          var i :| 0 <= i < |rs| && rs[i] == q;
        }
      }
      assert InUse(ForgetAvailable(c3.regs)) == InUse(c.regs);
      AllocExactly(ForgetAvailable(c3.regs));
  }

  lemma {:induction false} ArgumentsDemand(args: Args, c: Compiler)
    requires c.pending != [] && |Arguments(c)| <= |InUse(c.regs)|
    ensures ArgumentList(args, c).Success? <==>
      ArgsFit(args, c.functions, |c.pending|) && |InUse(c.regs)| + NeedArgs(args) <= GENERALS
    decreases args
  {
    AllocExactly(c.regs);
    match args
    case NoArgs =>
    case Arg(first, rest) =>
      ExpressionDemand(first, c);
      if Expression(first, c).Success? {
        ExpressionShape(first, c);
        var (c1, r) := Expression(first, c).value;
        InUseTakes(c.regs, c1.regs, r);
        AllocExactly(c1.regs);
        ArgumentsDemand(rest, AddArgument(c1, r).value);
      }
  }

  // ---------- the error ----------

  // With its calls right, an expression can only fail for want of a register.
  lemma {:induction false} ExpressionFailure(e: Expr, c: Compiler)
    requires CallsFit(e, c.functions, |c.pending|) && Expression(e, c).Failure?
    ensures Expression(e, c) == Failure(OutOfRegisters)
    decreases e
  {
    hide VariableLoad, VariableAddress, ConstantLoad, FunctionCall;
    match e
    case Num(n) => LeafFailure(c, "", n);
    case Var(name) => LeafFailure(c, name, 0);
    case AddressOf(name) => LeafFailure(c, name, 0);
    case Binary(_, left, right) =>
      if Expression(left, c).Failure? {
        ExpressionFailure(left, c);
      } else {
        ExpressionShape(left, c);
        ExpressionFailure(right, Expression(left, c).value.0);
      }
    case Not(operand) => ExpressionFailure(operand, c);
    case Deref(operand) => ExpressionFailure(operand, c);
    case Call(name, args) =>
      var c1 := c.(pending := c.pending + [[]]);
      if ArgumentList(args, c1).Failure? {
        ArgumentsFailure(args, c1);
      } else {
        var rs := ArgumentListShape(args, c1);
        assert Arguments(c1) + rs == rs;
        CallFailure(ArgumentList(args, c1).value, name, |rs|);
      }
  }

  lemma LeafFailure(c: Compiler, name: string, n: int)
    ensures ConstantLoad(c, n).Failure? ==> ConstantLoad(c, n) == Failure(OutOfRegisters)
    ensures VariableLoad(c, name).Failure? ==> VariableLoad(c, name) == Failure(OutOfRegisters)
    ensures VariableAddress(c, name).Failure? ==> VariableAddress(c, name) == Failure(OutOfRegisters)
  {
  }

  lemma CallFailure(c: Compiler, name: string, arguments: nat)
    requires c.pending != [] && |Arguments(c)| == arguments && FunctionCall(c, name).Failure?
    requires match FindFunction(c.functions, name) case Some(entry) => entry.arity == arguments case None => false
    ensures FunctionCall(c, name) == Failure(OutOfRegisters)
  {
    hide CallCode;
  }

  lemma {:induction false} ArgumentsFailure(args: Args, c: Compiler)
    requires c.pending != [] && |Arguments(c)| <= |InUse(c.regs)|
    requires ArgsFit(args, c.functions, |c.pending|) && ArgumentList(args, c).Failure?
    ensures ArgumentList(args, c) == Failure(OutOfRegisters)
    decreases args
  {
    hide Expression, InUse;
    match args
    case Arg(first, rest) =>
      if Expression(first, c).Failure? {
        ExpressionFailure(first, c);
      } else {
        ExpressionShape(first, c);
        var (c1, r) := Expression(first, c).value;
        InUseTakes(c.regs, c1.regs, r);
        AllocExactly(c1.regs);
        ArgumentsFailure(rest, AddArgument(c1, r).value);
      }
  }

  // "Out of registers" is reported exactly when the need is too great.
  lemma OutOfRegistersExactly(e: Expr, c: Compiler)
    requires CallsFit(e, c.functions, |c.pending|)
    ensures Expression(e, c) == Failure(OutOfRegisters) <==> |InUse(c.regs)| + Need(e) > GENERALS
  {
    hide Expression, InUse, Need, CallsFit;
    ExpressionDemand(e, c);
    if Expression(e, c).Failure? {
      ExpressionFailure(e, c);
    }
  }
}
