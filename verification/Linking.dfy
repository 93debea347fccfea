// Where the code of each function of a program is, which names each function
// sees, and the shape of programs whose jumps the generator gets right.
module Linking {
  import opened Wrappers
  import opened Machine
  import opened Instructions
  import opened RegisterTable
  import opened Symbols
  import opened Syntax
  import opened Codegen
  import opened Shape
  import opened Execution
  import Source
  import opened Relation

  // ---------- jumps ----------

  // Every condition of the statement is the address of an undeclared name.
  predicate Codeless(i: IfStmt, symbols: seq<Symbol>)
    decreases i
  {
    && i.cond.AddressOf? && Lookup(symbols, i.cond.name) == None
    && (i.IfElseIf? ==> Codeless(i.rest, symbols))
  }

  // Every jump that can be reached is right: a while loop jumps back to its
  // condition when its scope already holds an instruction (its
  // first_instruction_after is not NULL), and the jump over an "else if" is
  // never reached or skips conditions without code.
  predicate SoundJumps(s: Stmt, c: Compiler)
    decreases s
  {
    match s
    case Block(body) => SoundBody(body, BeginBlock(c))
    case If(branch) => SoundIf(branch, c)
    case While(cond, body) => ScopeCount(c) > 0 && SoundGuarded(cond, body, Reset(c))
    case _ => true
  }

  predicate SoundGuarded(cond: Expr, body: Stmts, c: Compiler)
    decreases body, 1
  {
    match Expression(cond, c)
    case Success((c1, r)) => SoundBody(body, BeginBlock(ConditionalJump(c1, r)))
    case Failure(_) => true
  }

  predicate SoundIf(i: IfStmt, c: Compiler)
    decreases i
  {
    match i
    case IfThen(cond, thn) => SoundGuarded(cond, thn, c)
    case IfElse(cond, thn, els) =>
      && SoundGuarded(cond, thn, c)
      && (match Conditional(cond, thn, c, 2)
          case Success((c1, _)) => SoundBody(els, BeginBlock(UnconditionalJump(c1)))
          case Failure(_) => true)
    case IfElseIf(cond, thn, rest) =>
      && SoundGuarded(cond, thn, c)
      && (Source.AlwaysReturns(thn) || Codeless(rest, c.symbols))
      && (match Conditional(cond, thn, c, 2)
          case Success((c1, _)) => SoundIf(rest, UnconditionalJump(c1))
          case Failure(_) => true)
  }

  predicate SoundBody(ss: Stmts, c: Compiler)
    decreases ss, 0
  {
    match ss
    case Nil => true
    case Cons(head, tail) =>
      && SoundJumps(head, c)
      && (match Statement(head, c)
          case Success(c1) => SoundBody(tail, c1)
          case Failure(_) => true)
  }

  // ---------- functions ----------

  // The compiler before function j, when compilation of the functions starts at c0.
  function Stage(p: Program, c0: Compiler, j: nat): Result<Compiler, Error>
    requires j <= |p.functions|
  {
    Functions(p.functions[..j], c0)
  }

  lemma StageNext(p: Program, c0: Compiler, j: nat)
    requires j < |p.functions| && Stage(p, c0, j + 1).Success?
    ensures Stage(p, c0, j).Success?
    ensures Stage(p, c0, j + 1) == FunctionDefinition(p.functions[j], Stage(p, c0, j).value)
  {
    assert p.functions[..j + 1][..j] == p.functions[..j];
  }

  lemma {:induction false} StagesSucceed(p: Program, c0: Compiler, j: nat)
    requires j <= |p.functions| && Functions(p.functions, c0).Success?
    ensures Stage(p, c0, j).Success?
    decreases |p.functions| - j
  {
    hide Functions, FunctionDefinition;
    if j == |p.functions| {
      assert p.functions[..j] == p.functions;
    } else {
      StagesSucceed(p, c0, j + 1);
      StageNext(p, c0, j);
    }
  }

  // The function table after the first `visible` functions.
  function Entries(p: Program, c0: Compiler, visible: nat): seq<Entry>
    requires visible <= |p.functions|
  {
    seq(visible, j requires 0 <= j < visible =>
      Entry(p.functions[j].name,
            if Stage(p, c0, j).Success? then |Stage(p, c0, j).value.code| else 0,
            |p.functions[j].parameters|))
  }

  // Searching the compiler's table finds the function the source means.
  lemma {:induction false} FindAgrees(p: Program, c0: Compiler, visible: nat, name: string)
    requires visible <= |p.functions|
    ensures match Source.FindFunction(p.functions, visible, name)
      case None => Codegen.FindFunction(Entries(p, c0, visible), name) == None
      case Some(j) => Codegen.FindFunction(Entries(p, c0, visible), name) == Some(Entries(p, c0, visible)[j])
    decreases visible
  {
    hide Stage;
    if visible > 0 {
      FindAgrees(p, c0, visible - 1, name);
      assert Entries(p, c0, visible)[..visible - 1] == Entries(p, c0, visible - 1);
    }
  }

  // ---------- names ----------

  lemma VisibleBind(c: Compiler, d: Compiler, env: Source.Env, name: string, location: Location)
    requires Visible(c, env)
    requires d.symbols == c.symbols + [Symbol(name, location)] && d.nextGlobal >= c.nextGlobal
    requires location.Global? ==> 0 <= location.address < d.nextGlobal
    ensures Visible(d, env[name := Source.Known(location)])
  {
    assert d.symbols[..|d.symbols| - 1] == c.symbols;
  }

  // What a function definition keeps; the parameters it adds stay in the table.
  lemma {:induction false} ParameterLocalsShape(c: Compiler, names: seq<string>, i: nat)
    requires i <= |names| && ParameterLocals(c, names, i).Success?
    ensures var d := ParameterLocals(c, names, i).value;
      && d == c.(regs := d.regs, code := d.code, symbols := d.symbols, nextLocal := c.nextLocal + |names| - i)
      && Extends(c, d)
    decreases |names| - i
  {
    if i < |names| {
      ParameterLocalShape(c, names[i], i, |names|);
      ParameterLocalsShape(ParameterLocal(c, names[i], i, |names|).value, names, i + 1);
    }
  }

  lemma ParameterLocalShape(c: Compiler, name: string, i: nat, count: nat)
    requires ParameterLocal(c, name, i, count).Success?
    ensures var d := ParameterLocal(c, name, i, count).value;
      && d == c.(regs := d.regs, code := d.code, symbols := c.symbols + [Symbol(name, Local(c.nextLocal))],
        nextLocal := c.nextLocal + 1)
      && Extends(c, d)
  {
  }

  lemma {:induction false} ParametersVisible(c: Compiler, names: seq<string>, i: nat, env: Source.Env)
    requires i <= |names| && ParameterLocals(c, names, i).Success?
    requires c.nextLocal == i && Visible(c, Source.BindParameters(env, names[..i]))
    ensures Visible(ParameterLocals(c, names, i).value, Source.BindParameters(env, names))
    decreases |names| - i
  {
    if i == |names| {
      assert names[..i] == names;
    } else {
      hide ParameterLocal;
      ParameterLocalShape(c, names[i], i, |names|);
      var d := ParameterLocal(c, names[i], i, |names|).value;
      assert names[..i + 1][..i] == names[..i];
      VisibleBind(c, d, Source.BindParameters(env, names[..i]), names[i], Local(i));
      ParametersVisible(d, names, i + 1, env);
    }
  }

  lemma BeginFunctionShape(c: Compiler, name: string, parameters: seq<string>)
    requires BeginFunction(c, name, parameters).Success?
    ensures var d := BeginFunction(c, name, parameters).value;
      && d == c.(regs := INITIAL, code := d.code, symbols := d.symbols, inside := true, nextLocal := |parameters|,
                 functions := c.functions + [Entry(name, |c.code|, |parameters|)])
      && Extends(c, d) && |c.code| < |d.code|
  {
    hide ParameterLocals, FunctionPrefix;
    var c2 := EnterFunction(c, name, |parameters|);
    PrefixShape(c2);
    ParameterLocalsShape(FunctionPrefix(c2), parameters, 0);
  }

  lemma PrefixShape(c: Compiler)
    ensures var d := FunctionPrefix(c); d == c.(code := d.code) && Extends(c, d)
  {
  }

  lemma FunctionDefinitionShape(f: Function, c: Compiler)
    requires FunctionDefinition(f, c).Success?
    ensures var d := FunctionDefinition(f, c).value;
      && d == c.(regs := INITIAL, code := d.code, symbols := d.symbols, inside := false, nextLocal := d.nextLocal,
                 functions := c.functions + [Entry(f.name, |c.code|, |f.parameters|)])
      && Extends(c, d) && |c.code| < |d.code|
  {
    hide BeginFunction, BlockOf, EndFunction;
    BeginFunctionShape(c, f.name, f.parameters);
    var c1 := BeginFunction(c, f.name, f.parameters).value;
    BlockShape(f.body, c1);
    var c2 := BlockOf(f.body, c1).value.0;
    EndFunctionShape(c2);
    assert FunctionDefinition(f, c).value == EndFunction(c2);
  }

  lemma EndFunctionShape(c: Compiler)
    ensures var d := EndFunction(c);
      d == c.(regs := INITIAL, code := d.code, inside := false) && Extends(c, d)
  {
  }

  lemma EntriesNext(p: Program, c0: Compiler, j: nat)
    requires j < |p.functions| && Stage(p, c0, j).Success?
    ensures Entries(p, c0, j + 1) == Entries(p, c0, j)
      + [Entry(p.functions[j].name, |Stage(p, c0, j).value.code|, |p.functions[j].parameters|)]
  {
    hide Stage;
  }

  // Before function j: the table holds the first j functions, nothing is pending.
  lemma {:induction false} StageShape(p: Program, c0: Compiler, j: nat)
    requires j <= |p.functions| && Stage(p, c0, j).Success?
    requires c0.functions == []
    ensures var c := Stage(p, c0, j).value;
      && c.functions == Entries(p, c0, j)
      && c.nextGlobal == c0.nextGlobal && c.pending == c0.pending && c.caching == c0.caching
      && c.scope == c0.scope && c.outer == c0.outer
      && Extends(c0, c)
      && (j > 0 ==> c.regs == INITIAL)
    decreases j
  {
    hide FunctionDefinition;
    if j > 0 {
      StageNext(p, c0, j - 1);
      StageShape(p, c0, j - 1);
      EntriesNext(p, c0, j - 1);
      var c := Stage(p, c0, j - 1).value;
      FunctionDefinitionShape(p.functions[j - 1], c);
    } else {
      assert p.functions[..0] == [];
    }
  }

  // The compiler where the body of function j starts.
  function BodyStart(p: Program, c0: Compiler, j: nat): Result<Compiler, Error>
    requires j < |p.functions|
  {
    var c :- Stage(p, c0, j);
    BeginFunction(c, p.functions[j].name, p.functions[j].parameters)
  }

  // Function j is in the image, its jumps are sound, and the globals it
  // mentions are not hidden by a parameter an earlier function left behind.
  ghost predicate FunctionLinked(p: Program, c0: Compiler, image: Image, j: nat)
    requires j < |p.functions|
  {
    && Stage(p, c0, j).Success? && Stage(p, c0, j + 1).Success? && BodyStart(p, c0, j).Success?
    && Emitted(image, Stage(p, c0, j).value, Stage(p, c0, j + 1).value)
    && Visible(Stage(p, c0, j).value, Source.EntryEnv(p, j))
    && SoundBody(p.functions[j].body, BeginBlock(BodyStart(p, c0, j).value))
  }

  // c0 is where compilation of the functions starts.
  ghost predicate Linked(p: Program, c0: Compiler, image: Image) {
    && |image| <= 255
    && c0.nextGlobal == Source.GlobalCount(p) && c0.functions == [] && c0.pending == []
    && forall j | 0 <= j < |p.functions| :: FunctionLinked(p, c0, image, j)
  }
}
