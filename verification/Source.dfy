// The meaning of source programs: a big-step interpreter over memory cells.
//
// Variables live in cells (a global at its address, a local at fp minus its
// offset), so &x and *p need nothing else. Only cells of live variables are in
// the store; touching any other cell is a Fault, and so is a name that means
// something else to the compiler than to the reader, the address of an unknown
// name, a frame that would reach the globals, and a return outside a function.
// An unknown name reads as 0 and an assignment to it does nothing.
// Fuel bounds the depth of calls and loop iterations: Timeout carries what was
// printed until the fuel ran out.
module Source {
  import opened Wrappers
  import opened Machine
  import opened Symbols
  import opened Syntax

  // A name is known by its location, or hidden: the compiler's table has the
  // name, but not for a variable this function may use.
  datatype Binding = Known(location: Location) | Hidden

  // A name outside the environment is undeclared.
  type Env = map<string, Binding>

  datatype Memory = Memory(cells: map<int, byte>, output: seq<byte>)

  datatype Outcome<+T> = Done(value: T, store: Memory) | Timeout(output: seq<byte>) | Fault {
    predicate IsFailure() {
      !Done?
    }

    function PropagateFailure<U>(): Outcome<U>
      requires !Done?
    {
      match this
      case Timeout(output) => Timeout(output)
      case Fault => Fault
    }

    function Extract(): (T, Memory)
      requires Done?
    {
      (value, store)
    }
  }

  // How a statement ends: it falls through with an environment and a number of
  // locals in the frame, or it returns from the function.
  datatype Control = Next(env: Env, locals: nat) | Back(value: byte)

  // The static surroundings of an activation: `visible` functions are declared
  // so far, `fp` is the frame base.
  datatype Setting = Setting(p: Program, visible: nat, fp: int, inMain: bool)

  // ---------- names ----------

  function DeclaredNames(d: Decl): seq<string> {
    match d
    case Let(name, _) => [name]
    case LetZero(names) => Backwards(names)
  }

  function Backwards(names: seq<string>): seq<string> {
    if names == [] then [] else [names[|names| - 1]] + Backwards(names[..|names| - 1])
  }

  // Global names in address order.
  function GlobalNames(ds: seq<Decl>): seq<string> {
    if ds == [] then [] else GlobalNames(ds[..|ds| - 1]) + DeclaredNames(ds[|ds| - 1])
  }

  function GlobalEnv(names: seq<string>): Env {
    if names == [] then map[] else GlobalEnv(names[..|names| - 1])[names[|names| - 1] := Known(Global(|names| - 1))]
  }

  function GlobalCount(p: Program): nat {
    |GlobalNames(p.globals)|
  }

  function FreeInExpr(e: Expr): set<string> {
    match e
    case Num(_) => {}
    case Var(name) => {name}
    case Binary(_, left, right) => FreeInExpr(left) + FreeInExpr(right)
    case Not(operand) => FreeInExpr(operand)
    case AddressOf(name) => {name}
    case Deref(operand) => FreeInExpr(operand)
    case Call(_, args) => FreeInArgs(args)
  }

  function FreeInArgs(args: Args): set<string> {
    match args
    case NoArgs => {}
    case Arg(first, rest) => FreeInExpr(first) + FreeInArgs(rest)
  }

  function FreeInStmt(s: Stmt): set<string> {
    match s
    case Block(body) => FreeInStmts(body)
    case Declare(Let(_, init)) => FreeInExpr(init)
    case Declare(LetZero(_)) => {}
    case Assign(name, value) => {name} + FreeInExpr(value)
    case Store(target, value) => FreeInExpr(target) + FreeInExpr(value)
    case Return(value) => FreeInExpr(value)
    case Print(value) => FreeInExpr(value)
    case Discard(value) => FreeInExpr(value)
    case If(branch) => FreeInIf(branch)
    case While(cond, body) => FreeInExpr(cond) + FreeInStmts(body)
  }

  function FreeInIf(i: IfStmt): set<string> {
    match i
    case IfThen(cond, thn) => FreeInExpr(cond) + FreeInStmts(thn)
    case IfElse(cond, thn, els) => FreeInExpr(cond) + FreeInStmts(thn) + FreeInStmts(els)
    case IfElseIf(cond, thn, rest) => FreeInExpr(cond) + FreeInStmts(thn) + FreeInIf(rest)
  }

  function FreeInStmts(ss: Stmts): set<string> {
    match ss
    case Nil => {}
    case Cons(head, tail) =>
      var bound := match head case Declare(d) => (set x | x in DeclaredNames(d)) case _ => {};
      FreeInStmt(head) + (FreeInStmts(tail) - bound)
  }

  // Function number |p.functions| is main.
  function Body(p: Program, j: nat): Stmts {
    if j < |p.functions| then p.functions[j].body else p.main
  }

  function Parameters(p: Program, j: nat): seq<string> {
    if j < |p.functions| then p.functions[j].parameters else []
  }

  // The globals that function `j` mentions.
  function GlobalsSeen(p: Program, j: nat): Env {
    var env := GlobalEnv(GlobalNames(p.globals));
    map x | x in env && x in FreeInStmts(Body(p, j)) && x !in Parameters(p, j) :: env[x]
  }

  // The parameters of the first j functions.
  function ParametersBefore(p: Program, j: nat): set<string>
    requires j <= |p.functions|
  {
    set i, x | 0 <= i < j && x in p.functions[i].parameters :: x
  }

  // The names function `j` finds declared: the globals it mentions are known,
  // other globals and what earlier parameter lists left behind are hidden.
  function EntryEnv(p: Program, j: nat): Env
    requires j <= |p.functions|
  {
    var seen := GlobalsSeen(p, j);
    map x | x in GlobalEnv(GlobalNames(p.globals)).Keys + ParametersBefore(p, j) ::
      if x in seen then seen[x] else Hidden
  }

  // Parameter i is local i of its frame.
  function BindParameters(env: Env, names: seq<string>): Env {
    if names == [] then env
    else BindParameters(env, names[..|names| - 1])[names[|names| - 1] := Known(Local(|names| - 1))]
  }

  // The newest of the first `visible` functions with that name.
  function FindFunction(fs: seq<Function>, visible: nat, name: string): (r: Option<nat>)
    requires visible <= |fs|
    ensures r.Some? ==> r.value < visible && fs[r.value].name == name
  {
    if visible == 0 then None
    else if fs[visible - 1].name == name then Some(visible - 1)
    else FindFunction(fs, visible - 1, name)
  }

  // ---------- expressions ----------

  function Apply(op: BinaryOp, x: byte, y: byte): byte {
    match op
    case Or => if x != 0 || y != 0 then 1 else 0
    case And => if x != 0 && y != 0 then 1 else 0
    case Gt => if x > y then 1 else 0
    case Lt => if x < y then 1 else 0
    case Geq => if x >= y then 1 else 0
    case Leq => if x <= y then 1 else 0
    case Equal => if x == y then 1 else 0
    case NotEqual => if x != y then 1 else 0
    case Divide => if y == 0 then 0 else Byte(x / y)
    case Minus => Byte(x - y)
    case Times => Byte(x * y)
    case Plus => Byte(x + y)
  }

  function Cell(location: Location, fp: int): int {
    match location
    case Global(address) => address
    case Local(offset) => fp - offset
  }

  // The cell of a known name that is live.
  predicate Live(name: string, env: Env, fp: int, st: Memory) {
    name in env && env[name].Known? && Cell(env[name].location, fp) in st.cells
  }

  function Restrict(st: Memory, cells: set<int>): Memory {
    st.(cells := map a | a in st.cells && a in cells :: st.cells[a])
  }

  // `sp` is the highest cell below the frame's locals and the operands that
  // the surrounding expression holds; a call's frame goes there.
  function Eval(x: Setting, e: Expr, env: Env, sp: int, st: Memory, fuel: nat): (r: Outcome<byte>)
    requires x.visible <= |x.p.functions|
    ensures r.Done? ==> r.store.cells.Keys == st.cells.Keys
    decreases fuel, e
  {
    match e
    case Num(n) => Done(Byte(n), st)
    case Var(name) =>
      if name !in env then Done(0, st)
      else if Live(name, env, x.fp, st) then Done(st.cells[Cell(env[name].location, x.fp)], st)
      else Fault
    case Binary(op, left, right) =>
      var (v, st1) :- Eval(x, left, env, sp, st, fuel);
      var (w, st2) :- Eval(x, right, env, sp - 1, st1, fuel);
      Done(Apply(op, v, w), st2)
    case Not(operand) =>
      var (v, st1) :- Eval(x, operand, env, sp, st, fuel);
      Done(if v == 0 then 1 else 0, st1)
    case AddressOf(name) =>
      if name in env && env[name].Known? then Done(Byte(Cell(env[name].location, x.fp)), st) else Fault
    case Deref(operand) =>
      var (a, st1) :- Eval(x, operand, env, sp, st, fuel);
      if a in st1.cells then Done(st1.cells[a], st1) else Fault
    case Call(name, args) =>
      var (vs, st1) :- EvalArgs(x, args, env, sp, st, fuel);
      match FindFunction(x.p.functions, x.visible, name)
      case None => Fault
      case Some(j) =>
        if |vs| != |x.p.functions[j].parameters| || !FrameFits(x.p, sp, |vs|) then Fault
        else if fuel == 0 then Timeout(st1.output)
        else Activate(x.p, j, vs, sp, st1, fuel - 1)
  }

  // Arguments from left to right; each value stays held while the rest is evaluated.
  function EvalArgs(x: Setting, args: Args, env: Env, sp: int, st: Memory, fuel: nat): (r: Outcome<seq<byte>>)
    requires x.visible <= |x.p.functions|
    ensures r.Done? ==> r.store.cells.Keys == st.cells.Keys && |r.value| == Length(args)
    decreases fuel, args
  {
    match args
    case NoArgs => Done([], st)
    case Arg(first, rest) =>
      var (v, st1) :- Eval(x, first, env, sp, st, fuel);
      var (vs, st2) :- EvalArgs(x, rest, env, sp - 1, st1, fuel);
      Done([v] + vs, st2)
  }

  // The cells a call with n arguments uses down to the callee's last
  // parameter: n pushed arguments, ra, fp and n parameters.
  predicate FrameFits(p: Program, sp: int, n: nat) {
    sp - 2 * n - 1 >= GlobalCount(p)
  }

  function FrameBase(sp: int, n: nat): int {
    sp - n - 2
  }

  // The cells of a new frame: parameter i is at the base minus i.
  function ParameterCells(base: int, vs: seq<byte>): map<int, byte> {
    if vs == [] then map[]
    else ParameterCells(base, vs[..|vs| - 1])[base - |vs| + 1 := vs[|vs| - 1]]
  }

  function Activate(p: Program, j: nat, vs: seq<byte>, sp: int, st: Memory, fuel: nat): (r: Outcome<byte>)
    requires j < |p.functions|
    ensures r.Done? ==> r.store.cells.Keys == st.cells.Keys
    decreases fuel
  {
    var fp := FrameBase(sp, |vs|);
    var x := Setting(p, j + 1, fp, false);
    var entered := st.(cells := st.cells + ParameterCells(fp, vs));
    var (control, st1) :- ExecBlock(x, p.functions[j].body,
                                    BindParameters(EntryEnv(p, j), p.functions[j].parameters), |vs|, entered, fuel);
    Done(match control case Next(_, _) => 0 case Back(v) => v, Restrict(st1, st.cells.Keys))
  }

  // ---------- statements ----------

  // What a fall-through leaves: the cells there were, and those of new locals.
  ghost predicate Extended(x: Setting, locals: nat, st: Memory, control: Control, st1: Memory) {
    && st.cells.Keys <= st1.cells.Keys
    && (forall a | a in st1.cells && a !in st.cells :: a <= x.fp - locals)
    && (control.Next? ==> locals <= control.locals && forall a | a in st1.cells
      && a !in st.cells :: x.fp - control.locals < a)
  }

  function DeclareLocal(x: Setting, name: string, v: byte, env: Env, locals: nat, st: Memory): (r: Outcome<Control>)
    ensures r.Done? ==> Extended(x, locals, st, r.value, r.store)
    ensures r.Done? ==> r.value.Next?
  {
    if x.fp - locals < GlobalCount(x.p) then Fault
    else Done(Next(env[name := Known(Local(locals))], locals + 1), st.(cells := st.cells[x.fp - locals := v]))
  }

  function DeclareZeros(x: Setting, names: seq<string>, env: Env, locals: nat, st: Memory): (r: Outcome<Control>)
    ensures r.Done? ==> Extended(x, locals, st, r.value, r.store)
    ensures r.Done? ==> r.value.Next?
    decreases |names|
  {
    if names == [] then Done(Next(env, locals), st) else
    var (control, st1) :- DeclareLocal(x, names[|names| - 1], 0, env, locals, st);
    DeclareZeros(x, names[..|names| - 1], control.env, control.locals, st1)
  }

  function Exec(x: Setting, s: Stmt, env: Env, locals: nat, st: Memory, fuel: nat): (r: Outcome<Control>)
    requires x.visible <= |x.p.functions|
    ensures r.Done? ==> Extended(x, locals, st, r.value, r.store)
    decreases fuel, s
  {
    var sp := x.fp - locals;
    var next := Next(env, locals);
    match s
    case Block(body) => ExecBlock(x, body, env, locals, st, fuel)
    case Declare(Let(name, init)) =>
      var (v, st1) :- Eval(x, init, env, sp, st, fuel);
      DeclareLocal(x, name, v, env, locals, st1)
    case Declare(LetZero(names)) => DeclareZeros(x, names, env, locals, st)
    case Assign(name, value) =>
      var (v, st1) :- Eval(x, value, env, sp, st, fuel);
      if name !in env then Done(next, st1)
      else if Live(name, env, x.fp, st1)
      then Done(next, st1.(cells := st1.cells[Cell(env[name].location, x.fp) := v]))
      else Fault
    case Store(target, value) =>
      var (a, st1) :- Eval(x, target, env, sp, st, fuel);
      var (v, st2) :- Eval(x, value, env, sp - 1, st1, fuel);
      if a in st2.cells then Done(next, st2.(cells := st2.cells[a := v])) else Fault
    case Return(value) =>
      var (v, st1) :- Eval(x, value, env, sp, st, fuel);
      if x.inMain then Fault else Done(Back(v), st1)
    case Print(value) =>
      var (v, st1) :- Eval(x, value, env, sp, st, fuel);
      Done(next, st1.(output := st1.output + [v]))
    case Discard(value) =>
      var (_, st1) :- Eval(x, value, env, sp, st, fuel);
      Done(next, st1)
    case If(branch) => ExecIf(x, branch, env, locals, st, fuel)
    case While(cond, body) =>
      if fuel == 0 then Timeout(st.output) else
      var (v, st1) :- Eval(x, cond, env, sp, st, fuel);
      if v == 0 then Done(next, st1) else
      var (control, st2) :- ExecBlock(x, body, env, locals, st1, fuel);
      if control.Back? then Done(control, st2) else Exec(x, s, env, locals, st2, fuel - 1)
  }

  function ExecIf(x: Setting, i: IfStmt, env: Env, locals: nat, st: Memory, fuel: nat): (r: Outcome<Control>)
    requires x.visible <= |x.p.functions|
    ensures r.Done? ==> Extended(x, locals, st, r.value, r.store)
    decreases fuel, i
  {
    var (v, st1) :- Eval(x, i.cond, env, x.fp - locals, st, fuel);
    if v != 0 then ExecBlock(x, i.thn, env, locals, st1, fuel) else
    match i
    case IfThen(_, _) => Done(Next(env, locals), st1)
    case IfElse(_, _, els) => ExecBlock(x, els, env, locals, st1, fuel)
    case IfElseIf(_, _, rest) => ExecIf(x, rest, env, locals, st1, fuel)
  }

  // Leaving a block drops its names, its locals and their cells.
  function ExecBlock(x: Setting, body: Stmts, env: Env, locals: nat, st: Memory, fuel: nat): (r: Outcome<Control>)
    requires x.visible <= |x.p.functions|
    ensures r.Done? ==> r.store.cells.Keys == st.cells.Keys
    ensures r.Done? && r.value.Next? ==> r.value == Next(env, locals)
    decreases fuel, body, 1
  {
    var (control, st1) :- ExecAll(x, body, env, locals, st, fuel);
    Done(if control.Next? then Next(env, locals) else control, Restrict(st1, st.cells.Keys))
  }

  function ExecAll(x: Setting, ss: Stmts, env: Env, locals: nat, st: Memory, fuel: nat): (r: Outcome<Control>)
    requires x.visible <= |x.p.functions|
    ensures r.Done? ==> Extended(x, locals, st, r.value, r.store)
    decreases fuel, ss, 0
  {
    match ss
    case Nil => Done(Next(env, locals), st)
    case Cons(head, tail) =>
      var (control, st1) :- Exec(x, head, env, locals, st, fuel);
      match control
      case Back(_) => Done(control, st1)
      case Next(env1, locals1) => ExecAll(x, tail, env1, locals1, st1, fuel)
  }

  // ---------- statements that always return ----------

  // No run of the statements reaches their end.
  predicate AlwaysReturns(ss: Stmts)
    decreases ss
  {
    ss.Cons? && (StmtReturns(ss.head) || AlwaysReturns(ss.tail))
  }

  predicate StmtReturns(s: Stmt)
    decreases s
  {
    match s
    case Return(_) => true
    case Block(body) => AlwaysReturns(body)
    case If(branch) => IfReturns(branch)
    case _ => false
  }

  predicate IfReturns(i: IfStmt)
    decreases i
  {
    && AlwaysReturns(i.thn)
    && match i
       case IfThen(_, _) => false
       case IfElse(_, _, els) => AlwaysReturns(els)
       case IfElseIf(_, _, rest) => IfReturns(rest)
  }

  lemma {:induction false} ReturnsLeave(x: Setting, ss: Stmts, env: Env, locals: nat, st: Memory, fuel: nat)
    requires x.visible <= |x.p.functions| && AlwaysReturns(ss)
    ensures var r := ExecAll(x, ss, env, locals, st, fuel); r.Done? ==> r.value.Back?
    ensures var r := ExecBlock(x, ss, env, locals, st, fuel); r.Done? ==> r.value.Back?
    decreases ss
  {
    if StmtReturns(ss.head) {
      StmtLeaves(x, ss.head, env, locals, st, fuel);
    }
    match Exec(x, ss.head, env, locals, st, fuel)
    case Done(Next(env1, locals1), st1) => ReturnsLeave(x, ss.tail, env1, locals1, st1, fuel);
    case _ =>
  }

  lemma {:induction false} StmtLeaves(x: Setting, s: Stmt, env: Env, locals: nat, st: Memory, fuel: nat)
    requires x.visible <= |x.p.functions| && StmtReturns(s)
    ensures var r := Exec(x, s, env, locals, st, fuel); r.Done? ==> r.value.Back?
    decreases s
  {
    match s
    case Return(_) =>
    case Block(body) => ReturnsLeave(x, body, env, locals, st, fuel);
    case If(branch) => IfLeaves(x, branch, env, locals, st, fuel);
  }

  lemma {:induction false} IfLeaves(x: Setting, i: IfStmt, env: Env, locals: nat, st: Memory, fuel: nat)
    requires x.visible <= |x.p.functions| && IfReturns(i)
    ensures var r := ExecIf(x, i, env, locals, st, fuel); r.Done? ==> r.value.Back?
    decreases i
  {
    match Eval(x, i.cond, env, x.fp - locals, st, fuel)
    case Done(v, st1) =>
      if v != 0 {
        ReturnsLeave(x, i.thn, env, locals, st1, fuel);
      } else {
        match i
        case IfElse(_, _, els) => ReturnsLeave(x, els, env, locals, st1, fuel);
        case IfElseIf(_, _, rest) => IfLeaves(x, rest, env, locals, st1, fuel);
      }
    case _ =>
  }

  // ---------- programs ----------

  function InitZeros(names: seq<string>, declared: nat, st: Memory): Memory
    decreases |names|
  {
    if names == [] then st
    else InitZeros(names[..|names| - 1], declared + 1, st.(cells := st.cells[declared := 0]))
  }

  // The initialisers run in order; each sees the globals before it and no function.
  function InitGlobals(p: Program, ds: seq<Decl>, fuel: nat): Outcome<()>
    decreases |ds|
  {
    if ds == [] then Done((), Memory(map[], [])) else
    var before := ds[..|ds| - 1];
    var (_, st) :- InitGlobals(p, before, fuel);
    var names := GlobalNames(before);
    match ds[|ds| - 1]
    case Let(_, init) =>
      var (v, st1) :- Eval(Setting(p, 0, 0, true), init, GlobalEnv(names), 0, st, fuel);
      Done((), st1.(cells := st1.cells[|names| := v]))
    case LetZero(zeros) => Done((), InitZeros(zeros, |names|, st))
  }

  const STACK_TOP := 255

  // A whole run; Done carries everything printed.
  function RunProgram(p: Program, fuel: nat): Outcome<()>
  {
    var (_, st) :- InitGlobals(p, p.globals, fuel);
    var main := |p.functions|;
    var (_, st1) :- ExecBlock(Setting(p, main, STACK_TOP, true), p.main, EntryEnv(p, main), 0, st, fuel);
    Done((), st1)
  }
}
