// Whole programs: global initialisers, the jump over the functions, and main.
module ProgramSim {
  import opened Wrappers
  import opened Machine
  import opened Instructions
  import opened RegisterTable
  import opened Symbols
  import opened Syntax
  import opened Codegen
  import opened Shape
  import opened Execution
  import opened Source
  import opened Relation
  import opened ExpressionSim
  import opened StatementSim
  import opened Linking
  import opened Preservation

  // ---------- what compiling the globals leaves ----------

  // The compiler between two global declarations.
  ghost predicate GlobalPoint(c: Compiler, names: seq<string>) {
    && c == Start(c.caching).(regs := c.regs, symbols := c.symbols, nextGlobal := |names|, code := c.code)
    && Idle(c.regs) && Visible(c, GlobalEnv(names)) && |names| <= |c.code|
  }

  lemma StoreGlobalShape(c: Compiler, address: int, r: int)
    ensures var d := StoreGlobal(c, address, r);
      && d == c.(regs := d.regs, code := c.code + [Plain(STR, address, r, 0)])
      && forall q | IsGeneral(q) :: d.regs[q].inUse == (c.regs[q].inUse && q != r)
  {
  }

  lemma GlobalDeclared(c: Compiler, c1: Compiler, r: int, names: seq<string>, name: string)
    requires GlobalPoint(c, names) && Delivers(c, c1, r)
    ensures GlobalPoint(DeclareGlobal(c1, name, r), names + [name])
    ensures Extends(c, DeclareGlobal(c1, name, r)) && DeclareGlobal(c1, name, r).caching == c.caching
    ensures DeclareGlobal(c1, name, r) == VariableDeclaration(c1, name, r)
  {
    var b := c1.(nextGlobal := c1.nextGlobal + 1, symbols := c1.symbols + [Symbol(name, Global(c1.nextGlobal))]);
    StoreGlobalShape(b, c1.nextGlobal, r);
    hide StoreGlobal, GlobalEnv;
    var d := DeclareGlobal(c1, name, r);
    VisibleBind(c, d, GlobalEnv(names), name, Global(|names|));
    GlobalEnvNext(names, name);
  }

  lemma GlobalEnvNext(names: seq<string>, name: string)
    ensures GlobalEnv(names + [name]) == GlobalEnv(names)[name := Known(Global(|names|))]
  {
    assert (names + [name])[..|names|] == names;
  }

  lemma {:induction false} GlobalZerosShape(zeros: seq<string>, c: Compiler, names: seq<string>)
    requires GlobalPoint(c, names) && LetZeros(zeros, c).Success?
    ensures GlobalPoint(LetZeros(zeros, c).value, names + Backwards(zeros)) && Extends(c, LetZeros(zeros, c).value)
    ensures LetZeros(zeros, c).value.caching == c.caching
    decreases |zeros|
  {
    hide DeclareGlobal, GlobalPoint, Extends, Delivers, ConstantLoad;
    if zeros == [] {
      assert names + [] == names;
      ExtendsReflexive(c);
    } else {
      var name := zeros[|zeros| - 1];
      var rest := zeros[..|zeros| - 1];
      ZeroDelivered(c);
      var (b, r) := ConstantLoad(c, 0).value;
      GlobalDeclared(c, b, r, names, name);
      var c1 := DeclareGlobal(b, name, r);
      GlobalZerosShape(rest, c1, names + [name]);
      assert names + Backwards(zeros) == names + [name] + Backwards(rest);
      ExtendsTransitive(c, c1, LetZeros(rest, c1).value);
    }
  }

  lemma ZeroDelivered(c: Compiler)
    requires ConstantLoad(c, 0).Success?
    ensures Delivers(c, ConstantLoad(c, 0).value.0, ConstantLoad(c, 0).value.1)
  {
  }

  lemma ExtendsReflexive(c: Compiler)
    ensures Extends(c, c)
  {
  }

  lemma ExtendsTransitive(c: Compiler, d: Compiler, e: Compiler)
    requires Extends(c, d) && Extends(d, e)
    ensures Extends(c, e)
  {
  }

  lemma GlobalDeclarationShape(d: Decl, c: Compiler, names: seq<string>)
    requires GlobalPoint(c, names) && Declaration(d, c).Success?
    ensures GlobalPoint(Declaration(d, c).value, names + DeclaredNames(d)) && Extends(c, Declaration(d, c).value)
    ensures Declaration(d, c).value.caching == c.caching
  {
    match d
    case Let(name, init) =>
      ExpressionShape(init, c);
      var (c1, r) := Expression(init, c).value;
      GlobalDeclared(c, c1, r, names, name);
    case LetZero(zeros) => GlobalZerosShape(zeros, c, names);
  }

  lemma {:induction false} GlobalsShape(ds: seq<Decl>, caching: bool)
    requires Globals(ds, Start(caching)).Success?
    ensures GlobalPoint(Globals(ds, Start(caching)).value, GlobalNames(ds))
    ensures Globals(ds, Start(caching)).value.caching == caching
    decreases |ds|
  {
    if ds == [] {
      InitialUnbound();
    } else {
      hide Declaration, GlobalPoint;
      var before := ds[..|ds| - 1];
      GlobalsShape(before, caching);
      GlobalDeclarationShape(ds[|ds| - 1], Globals(before, Start(caching)).value, GlobalNames(before));
    }
  }

  // ---------- running the globals ----------

  // The machine while globals are initialised: sp and fp are still 0 and the
  // live cells are exactly those of the globals so far.
  ghost predicate Initialising(c: Compiler, m: State, st: Memory) {
    && Matches(c, 0, m, st)
    && forall a :: a in st.cells <==> 0 <= a < c.nextGlobal
  }

  // The outcome of running initialisers up to the compiler at d.
  ghost predicate Initialised(image: Image, d: Compiler, m: State, t: nat, fuel: nat, outcome: Outcome<()>) {
    match outcome
    case Done(_, st) => Initialising(d, Run(image, m, t), st)
    case Timeout(output) => Running(image, m, t, fuel, output)
    case Fault => true
  }

  lemma GlobalStoreSim(image: Image, c: Compiler, c1: Compiler, r: int, name: string, names: seq<string>, m: State,
                       m1: State,
                       st: Memory, st1: Memory, v: byte) returns (t: nat)
    requires GlobalPoint(c, names) && Initialising(c, m, st)
    requires OperandReady(c, c1, r, 0, m, m1, st, st1, v)
    requires Emitted(image, c1, DeclareGlobal(c1, name, r)) && |names| < 256
    ensures Initialising(DeclareGlobal(c1, name, r), Run(image, m1, t), st1.(cells := st1.cells[|names| := v]))
  {
    hide Step, GlobalPoint, StoreGlobal, Holds, Coherent;
    var address := c1.nextGlobal;
    var b := c1.(nextGlobal := address + 1, symbols := c1.symbols + [Symbol(name, Global(address))]);
    StoreGlobalShape(b, address, r);
    NextGlobal(c, names);
    t := RunStore(image, b, address, r, m1);
    GlobalStored(c, c1, b, r, m, m1, st, st1, v);
  }

  lemma NextGlobal(c: Compiler, names: seq<string>)
    requires GlobalPoint(c, names)
    ensures c.nextGlobal == |names|
  {
  }

  lemma RunStore(image: Image, b: Compiler, address: nat, r: int, m: State) returns (t: nat)
    requires Emitted(image, b, StoreGlobal(b, address, r)) && m.pc == |b.code| && address < 256 && IsGeneral(r)
    ensures Run(image, m, t) == m.(mem := m.mem[address := m.regs[r]], pc := m.pc + 1)
  {
    StoreGlobalShape(b, address, r);
    hide StoreGlobal;
    assert image[m.pc] == Instr(STR, address, r, 0);
    t := RunOne(image, m);
  }

  // The register written is a clean copy of the new global.
  lemma GlobalStored(c: Compiler, c1: Compiler, b: Compiler, r: int, m: State, m1: State, st: Memory, st1: Memory,
                     v: byte)
    requires Initialising(c, m, st) && OperandReady(c, c1, r, 0, m, m1, st, st1, v) && c1.nextGlobal < 256
    requires var address := c1.nextGlobal; b == c1.(nextGlobal := address + 1, symbols := b.symbols)
    ensures var address := c1.nextGlobal;
      Initialising(StoreGlobal(b, address, r), m1.(mem := m1.mem[address := m1.regs[r]], pc := m1.pc + 1),
        st1.(cells := st1.cells[address := v]))
  {
  }

  lemma {:induction false} ZerosRun(image: Image, zeros: seq<string>, c: Compiler, names: seq<string>, m: State,
                                    st: Memory) returns (t: nat)
    requires GlobalPoint(c, names) && LetZeros(zeros, c).Success? && Emitted(image, c, LetZeros(zeros, c).value)
    requires |image| <= 255 && Initialising(c, m, st)
    ensures Initialising(LetZeros(zeros, c).value, Run(image, m, t), InitZeros(zeros, |names|, st))
    decreases |zeros|
  {
    hide Step, DeclareGlobal, Visible, GlobalEnv, Initialising, Emitted, Extends;
    if zeros == [] {
      t := 0;
    } else {
      var name := zeros[|zeros| - 1];
      var rest := zeros[..|zeros| - 1];
      ZeroDelivered(c);
      var (b, r) := ConstantLoad(c, 0).value;
      GlobalDeclared(c, b, r, names, name);
      var c1 := DeclareGlobal(b, name, r);
      GlobalZerosShape(rest, c1, names + [name]);
      ZeroSplit(image, c, b, c1, LetZeros(rest, c1).value);
      var t1 := ZeroRun(image, c, b, r, name, names, m, st);
      var t2 := ZerosRun(image, rest, c1, names + [name], Run(image, m, t1), st.(cells := st.cells[|names| := 0]));
      t := Compose(image, m, t1, t2);
    }
  }

  lemma ZeroSplit(image: Image, c: Compiler, b: Compiler, c1: Compiler, d: Compiler)
    requires Emitted(image, c, d) && Extends(c, c1) && Extends(c1, d)
    ensures Emitted(image, c, c1) && Emitted(image, c1, d)
  {
    EmittedSplit(image, c, c1, d);
  }

  lemma ZeroRun(image: Image, c: Compiler, b: Compiler, r: int, name: string, names: seq<string>, m: State, st: Memory)
    returns (t: nat)
    requires GlobalPoint(c, names) && ConstantLoad(c, 0) == Success((b, r)) && Delivers(c, b, r)
    requires Emitted(image, c, DeclareGlobal(b, name, r)) && |image| <= 255 && Initialising(c, m, st)
    ensures Initialising(DeclareGlobal(b, name, r), Run(image, m, t), st.(cells := st.cells[|names| := 0]))
  {
    GlobalExtends(b, name, r);
    hide Step, DeclareGlobal, Visible, GlobalEnv, ConstantLoad;
    EmittedSplit(image, c, b, DeclareGlobal(b, name, r));
    var t1 := ConstantSim(image, c, 0, 0, m, st);
    var t2 := GlobalStoreSim(image, c, b, r, name, names, m, Run(image, m, t1), st, st, 0);
    t := Compose(image, m, t1, t2);
  }

  lemma GlobalExtends(c: Compiler, name: string, r: int)
    ensures Extends(c, DeclareGlobal(c, name, r))
  {
  }

  lemma {:induction false} GlobalsRun(p: Program, c0: Compiler, image: Image, ds: seq<Decl>, caching: bool, fuel: nat)
    returns (t: nat)
    requires Linked(p, c0, image)
    requires Globals(ds, Start(caching)).Success?
    requires Emitted(image, Start(caching), Globals(ds, Start(caching)).value)
    ensures Initialised(image, Globals(ds, Start(caching)).value, RESET, t, fuel, InitGlobals(p, ds, fuel))
    decreases |ds|
  {
    hide Step, FunctionLinked, GlobalPoint, Declaration, Extends, Emitted, Initialising, GlobalEnv, GlobalNames, Eval;
    if ds == [] {
      t := 0;
      AtReset(caching);
    } else {
      var before := ds[..|ds| - 1];
      var c := Globals(before, Start(caching)).value;
      var last := ds[|ds| - 1];
      GlobalsShape(before, caching);
      GlobalDeclarationShape(last, c, GlobalNames(before));
      var d := Declaration(last, c).value;
      GlobalsSplit(image, Start(caching), c, d);
      t := GlobalsRun(p, c0, image, before, caching, fuel);
      match InitGlobals(p, before, fuel)
      case Done(_, st) =>
        var m := Run(image, RESET, t);
        var u := GlobalRun(p, c0, image, last, c, GlobalNames(before), m, st, fuel);
        t := Compose(image, RESET, t, u);
      case _ =>
    }
  }

  lemma GlobalsSplit(image: Image, s: Compiler, c: Compiler, d: Compiler)
    requires s.code == [] && Extends(c, d) && Emitted(image, s, d)
    ensures Emitted(image, s, c) && Emitted(image, c, d)
  {
    EmittedSplit(image, s, c, d);
  }

  lemma AtReset(caching: bool)
    ensures Initialising(Globals([], Start(caching)).value, RESET, Memory(map[], []))
  {
    InitialUnbound();
  }

  // What initialising one more global declaration does to the store.
  function InitOne(p: Program, d: Decl, names: seq<string>, st: Memory, fuel: nat): Outcome<()> {
    match d
    case Let(_, init) =>
      var (v, st1) :- Eval(Setting(p, 0, 0, true), init, GlobalEnv(names), 0, st, fuel);
      Done((), st1.(cells := st1.cells[|names| := v]))
    case LetZero(zeros) => Done((), InitZeros(zeros, |names|, st))
  }

  lemma GlobalRun(p: Program, c0: Compiler, image: Image, d: Decl, c: Compiler, names: seq<string>, m: State,
                  st: Memory, fuel: nat) returns (t: nat)
    requires Linked(p, c0, image) && GlobalPoint(c, names)
    requires Declaration(d, c).Success? && Emitted(image, c, Declaration(d, c).value)
    requires Initialising(c, m, st)
    ensures Initialised(image, Declaration(d, c).value, m, t, fuel, InitOne(p, d, names, st, fuel))
  {
    hide Step, FunctionLinked, Visible, GlobalEnv, Eval, Coherent, Emitted, Extends, DeclareGlobal, Expression;
    match d
    case LetZero(zeros) => t := ZerosRun(image, zeros, c, names, m, st);
    case Let(name, init) =>
      var x := Setting(p, 0, 0, true);
      var env := GlobalEnv(names);
      var c1, r := GlobalParts(image, name, init, c, names);
      IdleBelow(x, c);
      t := OperandOf(p, c0, image, x, init, env, c, m, st, fuel);
      match Eval(x, init, env, 0, st, fuel) {
        case Done(v, st1) =>
          var u := GlobalStoreSim(image, c, c1, r, name, names, m, Run(image, m, t), st, st1, v);
          t := Compose(image, m, t, u);
        case _ =>
      }
  }

  lemma GlobalParts(image: Image, name: string, init: Expr, c: Compiler, names: seq<string>)
    returns (c1: Compiler, r: int)
    requires GlobalPoint(c, names) && |image| <= 255
    requires Declaration(Let(name, init), c).Success? && Emitted(image, c, Declaration(Let(name, init), c).value)
    ensures Expression(init, c) == Success((c1, r)) && Emitted(image, c, c1) && Delivers(c, c1, r)
    ensures Declaration(Let(name, init), c).value == DeclareGlobal(c1, name, r)
    ensures Emitted(image, c1, DeclareGlobal(c1, name, r)) && |names| < 256
  {
    ExpressionShape(init, c);
    c1, r := Expression(init, c).value.0, Expression(init, c).value.1;
    GlobalExtends(c1, name, r);
    hide Expression, DeclareGlobal;
    EmittedSplit(image, c, c1, DeclareGlobal(c1, name, r));
  }
}
