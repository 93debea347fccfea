// What the register cache does: which reads of a global emit a LOAD, and what
// every action leaves cached.
module Caching {
  import opened Wrappers
  import opened Machine
  import opened Instructions
  import opened RegisterTable
  import opened Symbols
  import opened Syntax
  import opened Codegen
  import opened Shape
  import opened StatementSim
  import opened Execution
  import ProgramSim

  // ---------- one read ----------

  // Some register holds a clean copy of the cell.
  ghost predicate Cached(t: Table, address: int) {
    exists q | IsGeneral(q) :: Clean(t[q], address)
  }

  // A read of a global emits nothing exactly when a clean copy is cached, and
  // then it is the first copy that is used. Otherwise the first register not in
  // use is loaded and bound.
  lemma GlobalRead(c: Compiler, name: string, address: nat)
    requires c.caching && Lookup(c.symbols, name) == Some(Global(address))
    requires Expression(Var(name), c).Success?
    ensures var (d, r) := Expression(Var(name), c).value;
      && IsGeneral(r)
      && (d.code == c.code <==> Cached(c.regs, address))
      && (Cached(c.regs, address) ==>
        && Clean(c.regs[r], address) && (forall q | 1 <= q < r :: !Clean(c.regs[q], address))
        && d.regs == c.regs[r := Descriptor(true, address, false)])
      && (!Cached(c.regs, address) ==>
        && !c.regs[r].inUse && (forall q | 1 <= q < r :: c.regs[q].inUse)
        && d.code == c.code + [Plain(LOAD, r, address, 0)]
        && d.regs == c.regs[r := Descriptor(true, address, false)])
  {
    hide GlobalLoad;
    assert Expression(Var(name), c) == GlobalLoad(c, address);
    if Cached(c.regs, address) {
      CachedLoad(c, address);
    } else {
      FreshLoad(c, address);
      assert |GlobalLoad(c, address).value.0.code| == |c.code| + 1;
    }
  }

  lemma CachedLoad(c: Compiler, address: nat)
    requires c.caching && Cached(c.regs, address)
    ensures GlobalLoad(c, address).Success?
    ensures var (d, r) := GlobalLoad(c, address).value;
      && IsGeneral(r) && Clean(c.regs[r], address) && (forall q | 1 <= q < r :: !Clean(c.regs[q], address))
      && d == c.(regs := c.regs[r := Descriptor(true, address, false)])
  {
    hide AllocRegister, BindMemory;
  }

  lemma FreshLoad(c: Compiler, address: nat)
    requires (c.caching ==> !Cached(c.regs, address)) && GlobalLoad(c, address).Success?
    ensures var (d, r) := GlobalLoad(c, address).value;
      && IsGeneral(r) && !c.regs[r].inUse && (forall q | 1 <= q < r :: c.regs[q].inUse)
      && d == c.(regs := c.regs[r := Descriptor(true, address, false)], code := c.code + [Plain(LOAD, r, address, 0)])
  {
    assert c.caching ==> FirstClean(c.regs, address, 1) == 12;
  }

  // Without the cache every read is a LOAD.
  lemma UncachedRead(c: Compiler, name: string, address: nat)
    requires !c.caching && Lookup(c.symbols, name) == Some(Global(address))
    requires Expression(Var(name), c).Success?
    ensures var (d, r) := Expression(Var(name), c).value;
      IsGeneral(r) && !c.regs[r].inUse && d.code == c.code + [Plain(LOAD, r, address, 0)]
  {
    FreshLoad(c, address);
  }

  // A read succeeds exactly when the global is cached or a register is free.
  lemma ReadSucceeds(c: Compiler, name: string, address: nat)
    requires c.caching && Lookup(c.symbols, name) == Some(Global(address))
    ensures Expression(Var(name), c).Success? <==>
      Cached(c.regs, address) || exists q | IsGeneral(q) :: !c.regs[q].inUse
  {
    var f := FirstFree(c.regs, 1);
    var g := FirstClean(c.regs, address, 1);
    if f < 12 {
      assert IsGeneral(f) && !c.regs[f].inUse;
    }
    if g < 12 {
      assert IsGeneral(g) && Clean(c.regs[g], address);
    }
  }

  // Reading what was just stored takes the register stored.
  lemma ReadAfterStore(c: Compiler, name: string, address: nat, r: int)
    requires c.caching && IsGeneral(r) && Lookup(c.symbols, name) == Some(Global(address))
    ensures var d := StoreGlobal(c, address, r);
      && Expression(Var(name), d).Success? && Expression(Var(name), d).value.1 == r
      && Expression(Var(name), d).value.0.code == c.code + [Plain(STR, address, r, 0)]
  {
    StoredCopy(c, address, r);
    var d := StoreGlobal(c, address, r);
    ProgramSim.StoreGlobalShape(c, address, r);
    hide StoreGlobal;
    assert Cached(d.regs, address);
    ReadSucceeds(d, name, address);
    GlobalRead(d, name, address);
  }

  // ---------- what the actions leave cached ----------

  // A register keeps what it is bound to, though it may be freed.
  predicate SameBinding(d: Descriptor, e: Descriptor) {
    d.address == e.address && d.temporary == e.temporary
  }

  // A binary operation makes its left register temporary, frees the right one
  // and keeps every other binding, that of the right register included.
  lemma BinaryKeeps(c: Compiler, op: BinaryOp, l: int, r: int)
    requires IsGeneral(l) && IsGeneral(r) && l != r
    ensures var t := BinaryExpression(c, op, l, r).regs;
      && t[l] == Descriptor(c.regs[l].inUse, NO_MEMORY, true)
      && !t[r].inUse && SameBinding(t[r], c.regs[r])
      && forall q | IsGeneral(q) && q != l && q != r :: t[q] == c.regs[q]
  {
  }

  // Printing and assigning to an undeclared name free the value's register and
  // keep every binding.
  lemma UsesKeep(c: Compiler, name: string, r: int)
    requires IsGeneral(r)
    ensures PrintStatement(c, r).regs == c.regs[r := c.regs[r].(inUse := false)]
    ensures PrintStatement(c, r).code == c.code + [Plain(PRI, 0, r, 0)]
    ensures Lookup(c.symbols, name) == None ==>
      VariableAssignment(c, name, r) == c.(regs := c.regs[r := c.regs[r].(inUse := false)])
  {
  }

  // A store to a global drops the bindings to that cell, binds the register
  // stored and keeps every other binding.
  lemma StoreKeeps(c: Compiler, address: nat, r: int)
    requires IsGeneral(r)
    ensures var t := StoreGlobal(c, address, r).regs;
      && t[r] == Descriptor(false, address, false)
      && forall q | IsGeneral(q) && q != r ::
        t[q] == if c.regs[q].address == address then Descriptor(c.regs[q].inUse, NO_MEMORY, false) else c.regs[q]
  {
  }

  lemma {:induction false} PushesKeep(c: Compiler, args: seq<int>)
    ensures var t := PushArguments(c, args).regs;
      forall q | IsGeneral(q) :: t[q] == (if q in args then c.regs[q].(inUse := false) else c.regs[q])
    decreases |args|
  {
    if args != [] {
      var c1 := FreeRegister(PushRegister(c, args[0]), args[0]);
      PushesKeep(c1, args[1..]);
      assert forall q :: q in args <==> q == args[0] || q in args[1..];
    }
  }

  lemma CallCodeKeeps(c: Compiler, entry: int)
    ensures var d := CallCode(c, entry);
      && d == c.(regs := d.regs, code := d.code)
      && forall q | IsGeneral(q) ::
        d.regs[q] == (if q in Arguments(c) then c.regs[q].(inUse := false) else c.regs[q])
  {
    var args := Arguments(c);
    var saved := Saved(c.regs, args, 1);
    var pushed := PushRegisters(c, saved);
    PushRegistersShape(c, saved);
    PushArgumentsShape(pushed, args);
    PushesKeep(pushed, args);
    var s := CallSequence(c, entry);
    StackPopsShape(s, |args|);
    RestoreRegistersShape(StackPops(s, |args|), saved);
  }

  // A call keeps the registers the caller holds as they are and drops every
  // other binding; its result is in the first register then free.
  lemma CallKeeps(c: Compiler, name: string)
    requires FunctionCall(c, name).Success?
    ensures var (d, r) := FunctionCall(c, name).value;
      && IsGeneral(r) && d.regs[r] == Descriptor(true, NO_MEMORY, true)
      && (forall q | 1 <= q < r :: c.regs[q].inUse && q !in Arguments(c))
      && forall q | IsGeneral(q) && q != r ::
        d.regs[q] == if c.regs[q].inUse && q !in Arguments(c) then c.regs[q] else EMPTY
  {
    hide CallCode;
    var entry := FindFunction(c.functions, name).value.address;
    CallCodeKeeps(c, entry);
    var c1 := CallCode(c, entry);
    ResultTable(c1.(regs := ForgetAvailable(c1.regs), pending := c.pending[..|c.pending| - 1]));
  }

  lemma ResultTable(c: Compiler)
    requires ResultLoad(c).Success?
    ensures var (d, r) := ResultLoad(c).value;
      && IsGeneral(r) && d.regs == c.regs[r := Descriptor(true, NO_MEMORY, true)]
      && forall q | 1 <= q < r :: c.regs[q].inUse
  {
  }

  // The statements after which nothing is cached and no register is in use.
  predicate Forgets(s: Stmt, symbols: seq<Symbol>) {
    match s
    case Declare(Let(_, _)) => true
    case Declare(LetZero(names)) => names != []
    case Assign(name, _) => Lookup(symbols, name).Some? && Lookup(symbols, name).value.Local?
    case Print(_) => false
    case _ => true
  }

  // They start over with an empty cache.
  lemma {:induction false} StatementForgets(s: Stmt, c: Compiler)
    requires c.inside && Idle(c.regs) && Statement(s, c).Success? && Forgets(s, c.symbols)
    ensures Statement(s, c).value.regs == INITIAL
  {
    hide Expression, Conditional, BlockOf, IfStatement, LetZeros, FunctionSuffix, StoreLocal, StackPush;
    InitialUnbound();
    match s
    case Block(body) => BlockShape(body, c);
    case Declare(Let(name, init)) =>
      ExpressionShape(init, c);
      DeclareResets(Expression(init, c).value.0, name, Expression(init, c).value.1);
    case Declare(LetZero(names)) => ZerosForget(names, c);
    case If(branch) => IfShape(branch, c);
    case Assign(name, value) => ExpressionShape(value, c);
    case While(cond, body) => ConditionalShape(cond, body, Reset(c), 2);
    case _ =>
  }

  lemma {:induction false} ZerosForget(names: seq<string>, c: Compiler)
    requires c.inside && names != [] && LetZeros(names, c).Success?
    ensures LetZeros(names, c).value.regs == INITIAL
    decreases |names|
  {
    hide ConstantLoad, StoreLocal, StackPush;
    var (b, r) := ConstantLoad(c, 0).value;
    ZeroDelivered(c);
    var c1 := Codegen.DeclareLocal(b, names[|names| - 1], r);
    var rest := names[..|names| - 1];
    DeclareResets(b, names[|names| - 1], r);
    if rest != [] {
      ZerosForget(rest, c1);
    }
  }

  lemma ZeroDelivered(c: Compiler)
    requires ConstantLoad(c, 0).Success?
    ensures ConstantLoad(c, 0).value.0.inside == c.inside
  {
  }

  lemma DeclareResets(c: Compiler, name: string, r: int)
    ensures Codegen.DeclareLocal(c, name, r).regs == INITIAL && Codegen.DeclareLocal(c, name, r).inside == c.inside
  {
  }

  // ---------- consecutive reads ----------

  // print(x); for each name in turn
  function PrintsOf(names: seq<string>): Stmts {
    if names == [] then Nil else Stmts.Cons(Print(Var(names[0])), PrintsOf(names[1..]))
  }

  // The global each name means.
  ghost predicate Mean(symbols: seq<Symbol>, names: seq<string>, addresses: seq<nat>) {
    |names| == |addresses| && forall i | 0 <= i < |names| :: Lookup(symbols, names[i]) == Some(Global(addresses[i]))
  }

  // The instructions that print cells one after the other, when `cached` is the
  // cell the first register holds a copy of.
  function PrintCode(addresses: seq<nat>, cached: Option<nat>, caching: bool): seq<Raw> {
    if addresses == [] then []
    else
      (if caching && cached == Some(addresses[0]) then [] else [Plain(LOAD, 1, addresses[0], 0)])
      + [Plain(PRI, 0, 1, 0)] + PrintCode(addresses[1..], Some(addresses[0]), caching)
  }

  // No register is in use and only the first can be bound.
  ghost predicate Holding(t: Table, cached: Option<nat>) {
    && Idle(t)
    && (forall q | 2 <= q <= 11 :: t[q].address == NO_MEMORY)
    && (match cached case None => t[1].address == NO_MEMORY case Some(a) => Clean(t[1], a))
  }

  // One print: a LOAD unless the first register holds the cell already.
  lemma PrintRead(c: Compiler, name: string, address: nat, cached: Option<nat>)
    requires Holding(c.regs, cached) && Lookup(c.symbols, name) == Some(Global(address))
    ensures Statement(Print(Var(name)), c).Success?
    ensures var d := Statement(Print(Var(name)), c).value;
      && d == c.(regs := d.regs, code := c.code + PrintCode([address], cached, c.caching))
      && Holding(d.regs, Some(address))
  {
    LoadsFirst(c, address, cached);
    hide GlobalLoad, Holding, PrintStatement;
    var (c1, r) := GlobalLoad(c, address).value;
    assert Expression(Var(name), c) == Success((c1, r));
    PrintsFirst(c1, address);
    assert PrintCode([address][1..], Some(address), c.caching) == [];
  }

  lemma LoadsFirst(c: Compiler, address: nat, cached: Option<nat>)
    requires Holding(c.regs, cached)
    ensures GlobalLoad(c, address).Success? && GlobalLoad(c, address).value.1 == 1
    ensures var d := GlobalLoad(c, address).value.0;
      && d == c.(regs := d.regs, code := d.code)
      && d.code == c.code + (if c.caching && cached == Some(address) then [] else [Plain(LOAD, 1, address, 0)])
      && d.regs == c.regs[1 := Descriptor(true, address, false)]
      && forall q | 2 <= q <= 11 :: !d.regs[q].inUse && d.regs[q].address == NO_MEMORY
  {
    assert FirstFree(c.regs, 1) == 1;
    assert FirstClean(c.regs, address, 1) == if cached == Some(address) then 1 else 12;
  }

  lemma PrintsFirst(c: Compiler, address: nat)
    requires c.regs[1] == Descriptor(true, address, false)
    requires forall q | 2 <= q <= 11 :: !c.regs[q].inUse && c.regs[q].address == NO_MEMORY
    ensures var d := PrintStatement(c, 1);
      d == c.(regs := d.regs, code := c.code + [Plain(PRI, 0, 1, 0)]) && Holding(d.regs, Some(address))
  {
  }

  // The exact code of consecutive prints of globals.
  lemma {:induction false} PrintsEmit(names: seq<string>, addresses: seq<nat>, c: Compiler, cached: Option<nat>)
    requires Holding(c.regs, cached) && Mean(c.symbols, names, addresses)
    ensures Statements(PrintsOf(names), c).Success?
    ensures var d := Statements(PrintsOf(names), c).value;
      d == c.(regs := d.regs, code := c.code + PrintCode(addresses, cached, c.caching))
    decreases |names|
  {
    hide Holding, Statement, PrintCode, Lookup;
    if names == [] {
      NoPrintCode(c, cached);
    } else {
      PrintRead(c, names[0], addresses[0], cached);
      var c1 := Statement(Print(Var(names[0])), c).value;
      PrintsEmit(names[1..], addresses[1..], c1, Some(addresses[0]));
      PrintCodeNext(addresses, cached, c.caching);
      Appended(c.code, PrintCode([addresses[0]], cached, c.caching),
        PrintCode(addresses[1..], Some(addresses[0]), c.caching));
    }
  }

  lemma NoPrintCode(c: Compiler, cached: Option<nat>)
    ensures c.code + PrintCode([], cached, c.caching) == c.code
  {
  }

  lemma Appended(a: seq<Raw>, b: seq<Raw>, c: seq<Raw>)
    ensures a + b + c == a + (b + c)
  {
  }

  lemma PrintCodeNext(addresses: seq<nat>, cached: Option<nat>, caching: bool)
    requires addresses != []
    ensures PrintCode(addresses, cached, caching)
      == PrintCode([addresses[0]], cached, caching) + PrintCode(addresses[1..], Some(addresses[0]), caching)
  {
    assert PrintCode([addresses[0]][1..], Some(addresses[0]), caching) == [];
  }

  function Loads(code: seq<Raw>): nat {
    if code == [] then 0 else (if code[0].op == LOAD then 1 else 0) + Loads(code[1..])
  }

  // How often the cell changes along the list.
  function Changes(addresses: seq<nat>, cached: Option<nat>): nat {
    if addresses == [] then 0
    else (if cached == Some(addresses[0]) then 0 else 1) + Changes(addresses[1..], Some(addresses[0]))
  }

  // With the cache there is one LOAD for every change of cell, without it one
  // for every print.
  lemma {:induction false} LoadsOfPrints(addresses: seq<nat>, cached: Option<nat>, caching: bool)
    ensures var code := PrintCode(addresses, cached, caching);
      && Loads(code) == (if caching then Changes(addresses, cached) else |addresses|)
      && |code| == Loads(code) + |addresses|
    decreases |addresses|
  {
    if addresses != [] {
      var rest := PrintCode(addresses[1..], Some(addresses[0]), caching);
      var code := PrintCode(addresses, cached, caching);
      LoadsOfPrints(addresses[1..], Some(addresses[0]), caching);
      if caching && cached == Some(addresses[0]) {
        assert code == [Plain(PRI, 0, 1, 0)] + rest;
        assert code[1..] == rest;
      } else {
        assert code == [Plain(LOAD, 1, addresses[0], 0)] + ([Plain(PRI, 0, 1, 0)] + rest);
        assert code[1..] == [Plain(PRI, 0, 1, 0)] + rest;
        assert code[1..][1..] == rest;
      }
    }
  }

  // ---------- a program ----------

  function Same(n: nat): seq<string> {
    seq(n, _ => "g")
  }

  function Cells(n: nat): seq<nat> {
    seq(n, _ => 0)
  }

  // let g = v; main { print(g); ... print(g); }
  function Repeating(v: int, n: nat): Program {
    Program([Let("g", Num(v))], [], PrintsOf(Same(n)))
  }

  function Preamble(v: int): seq<Raw> {
    [Plain(AFC, 1, v, 0), Plain(STR, 0, 1, 0), Raw(J, Value(0), Ref(3), Value(0), false, ""),
     Plain(NOP, 0, 0, 0).(comment := "main"), Plain(AFC, REG_SP, 255, 0), Plain(COP, REG_FP, REG_SP, 0)]
  }

  lemma RepeatingGlobals(v: int, caching: bool)
    ensures Globals(Repeating(v, 0).globals, Start(caching)).Success?
    ensures var c := Globals(Repeating(v, 0).globals, Start(caching)).value;
      && c == Start(caching).(regs := c.regs, nextGlobal := 1, symbols := [Symbol("g", Global(0))],
                              code := [Plain(AFC, 1, v, 0), Plain(STR, 0, 1, 0)])
  {
    var ds := [Let("g", Num(v))];
    var start := Start(caching);
    assert ds[..0] == [] && Globals(ds[..0], start) == Success(start);
    assert FirstFree(start.regs, 1) == 1;
    var (c1, r) := Expression(Num(v), start).value;
    ProgramSim.StoreGlobalShape(c1.(nextGlobal := 1, symbols := [Symbol("g", Global(0))]), 0, 1);
    hide StoreGlobal;
    assert Globals(ds, start) == Success(DeclareGlobal(c1, "g", 1));
  }

  lemma RepeatingMain(c: Compiler, n: nat)
    requires c.regs == INITIAL && c.nextLocal == 0 && c.symbols == [Symbol("g", Global(0))]
    ensures BlockOf(PrintsOf(Same(n)), c).Success?
    ensures BlockOf(PrintsOf(Same(n)), c).value.0.code == c.code + PrintCode(Cells(n), None, c.caching)
  {
    var b := BeginBlock(c);
    assert Lookup(b.symbols, "g") == Some(Global(0));
    InitialUnbound();
    assert Holding(b.regs, None);
    PrintsEmit(Same(n), Cells(n), b, None);
    var d := Statements(PrintsOf(Same(n)), b).value;
    assert StackPops(d, 0) == d;
    hide Statements;
    assert BlockOf(PrintsOf(Same(n)), c) == Success(EndBlock(d));
  }

  // A global printed n times is loaded once with the cache and n times without.
  lemma RepeatedReads(v: int, n: nat, caching: bool)
    ensures CompileProgram(Repeating(v, n), caching).Success?
    ensures var code := CompileProgram(Repeating(v, n), caching).value.code;
      && code == Preamble(v) + PrintCode(Cells(n), None, caching)
      && Loads(PrintCode(Cells(n), None, caching)) == (if n == 0 then 0 else if caching then 1 else n)
      && |code| == 6 + n + (if n == 0 then 0 else if caching then 1 else n)
  {
    hide Globals, BlockOf, PrintsOf, BeginMain, ProgramStart, PrintCode, Preamble;
    RepeatingGlobals(v, caching);
    var c1 := Globals(Repeating(v, n).globals, Start(caching)).value;
    var c2 := ProgramStart(c1);
    MainStarts(c1, v);
    RepeatingMain(BeginMain(c2, |c1.code|), n);
    LoadsOfPrints(Cells(n), None, caching);
    ChangesOnce(n);
    assert Functions([], c2) == Success(c2);
  }

  lemma MainStarts(c: Compiler, v: int)
    requires c.code == [Plain(AFC, 1, v, 0), Plain(STR, 0, 1, 0)]
    ensures var d := BeginMain(ProgramStart(c), |c.code|);
      && d.code == Preamble(v) && |d.code| == 6
      && d == c.(regs := INITIAL, code := d.code, inside := true, nextLocal := 0)
  {
  }

  lemma ChangesOnce(n: nat)
    ensures Changes(Cells(n), None) == if n == 0 then 0 else 1
  {
    if n > 0 {
      NoChange(n - 1);
      assert Cells(n)[1..] == Cells(n - 1);
    }
  }

  lemma {:induction false} NoChange(n: nat)
    ensures Changes(Cells(n), Some(0)) == 0
    decreases n
  {
    if n > 0 {
      NoChange(n - 1);
      assert Cells(n)[1..] == Cells(n - 1);
    }
  }
}
