// The code generator as functions over its whole state, one per generator
// action and composed in the order the grammar runs the actions.
module Codegen {
  import opened Wrappers
  import opened Machine
  import opened Instructions
  import opened RegisterTable
  import opened Symbols
  import opened Syntax

  const MAX_FUNCTION_PARAMETERS := 16
  const MAX_CALL_DEPTH := 16
  const MAX_FUNCTIONS := 64

  // The reasons for which the compiler calls exit(1).
  datatype Error =
    | OutOfRegisters
    | TooManyParameters
    | TooManyCalls
    | TooManyArguments
    | TooManyFunctions
    | UnknownFunction
    | WrongArgumentCount
    | OutsideCall

  // A scope: what it restores on exit and the position of its first instruction.
  datatype Scope = Scope(symbolBase: nat, offsetBase: nat, start: nat)

  datatype Entry = Entry(name: string, address: int, arity: nat)

  // `code` lists every instruction emitted so far, whichever open scope holds
  // it, in emission order. `caching` is true in the real compiler; false
  // describes one that loads a global at every read.
  datatype Compiler = Compiler(
    regs: Table,
    symbols: seq<Symbol>,
    nextGlobal: nat,
    inside: bool,
    nextLocal: nat,
    code: seq<Raw>,
    scope: Scope,
    outer: seq<Scope>,
    functions: seq<Entry>,
    pending: seq<seq<int>>,
    caching: bool)

  function Start(caching: bool): Compiler {
    Compiler(INITIAL, [], 0, false, 0, [], Scope(0, 0, 0), [], [], [], caching)
  }

  // ---------- code_core.c ----------

  function Emit(c: Compiler, i: Raw): Compiler {
    c.(code := c.code + [i])
  }

  function Emit1(c: Compiler, op: Op, x: int): Compiler {
    match op
    case J | JI | PRI => Emit(c, Plain(op, 0, x, 0))
    case _ => Emit(c, Plain(op, x, 0, 0))
  }

  function Emit2(c: Compiler, op: Op, x: int, y: int): Compiler {
    match op
    case JF | STI => Emit(c, Plain(op, 0, x, y))
    case _ => Emit(c, Plain(op, x, y, 0))
  }

  function Emit3(c: Compiler, op: Op, x: int, y: int, z: int): Compiler {
    Emit(c, Plain(op, x, y, z))
  }

  function Reset(c: Compiler): Compiler {
    c.(regs := INITIAL)
  }

  function Label(c: Compiler, comment: string): Compiler {
    Emit(c, Plain(NOP, 0, 0, 0).(comment := comment))
  }

  function StackPush(c: Compiler): Compiler {
    Emit3(Emit2(c, AFC, REG_TMP, 1), SOU, REG_SP, REG_SP, REG_TMP)
  }

  function StackPop(c: Compiler): Compiler {
    Emit3(Emit2(c, AFC, REG_TMP, 1), ADD, REG_SP, REG_SP, REG_TMP)
  }

  function StackPops(c: Compiler, n: int): Compiler
    decreases n
  {
    if n <= 0 then c else StackPops(StackPop(c), n - 1)
  }

  function LocalAddress(c: Compiler, offset: int): Compiler {
    Emit3(Emit2(c, AFC, REG_TMP, offset), SOU, REG_TMP, REG_FP, REG_TMP)
  }

  function BeginBlock(c: Compiler): Compiler {
    c.(scope := Scope(|c.symbols|, c.nextLocal, |c.code|), outer := c.outer + [c.scope])
  }

  // scope_flush: a scope without a parent stays.
  function Flush(c: Compiler): Compiler {
    if c.outer == [] then c
    else c.(scope := c.outer[|c.outer| - 1], outer := c.outer[..|c.outer| - 1])
  }

  // The instructions the current scope holds.
  function ScopeCount(c: Compiler): int {
    |c.code| - c.scope.start
  }

  function EndBlock(c: Compiler): (Compiler, int) {
    var popped := StackPops(c, c.nextLocal - c.scope.offsetBase);
    var left := popped.(symbols := Restore(c.symbols, c.scope.symbolBase), nextLocal := c.scope.offsetBase);
    (Flush(Reset(left)), ScopeCount(popped))
  }

  // ---------- code_expressions.c ----------

  function AllocRegister(c: Compiler): Result<(Compiler, int), Error> {
    match Alloc(c.regs)
    case None => Failure(OutOfRegisters)
    case Some((t, r)) => Success((c.(regs := t), r))
  }

  function FreeRegister(c: Compiler, r: int): Compiler {
    c.(regs := Free(c.regs, r))
  }

  function Temporary(c: Compiler, r: int): Compiler {
    c.(regs := MarkTemporary(c.regs, r))
  }

  function ConstantLoad(c: Compiler, value: int): Result<(Compiler, int), Error> {
    var (c1, r) :- AllocRegister(c);
    Success((Temporary(Emit2(c1, AFC, r, value), r), r))
  }

  function LocalLoad(c: Compiler, offset: int): Result<(Compiler, int), Error> {
    var (c1, r) :- AllocRegister(c);
    Success((Temporary(Emit2(LocalAddress(c1, offset), LDI, r, REG_TMP), r), r))
  }

  function GlobalLoad(c: Compiler, address: int): Result<(Compiler, int), Error> {
    match if c.caching then FindMemory(c.regs, address) else None
    case Some((t, r)) => Success((c.(regs := t), r))
    case None =>
      var (c1, r) :- AllocRegister(c);
      var c2 := Emit2(c1, LOAD, r, address);
      Success((c2.(regs := BindMemory(c2.regs, r, address)), r))
  }

  // An unknown name is reported and compiled as the constant 0.
  function VariableLoad(c: Compiler, name: string): Result<(Compiler, int), Error> {
    match Lookup(c.symbols, name)
    case None => ConstantLoad(c, 0)
    case Some(Local(offset)) => LocalLoad(c, offset)
    case Some(Global(address)) => GlobalLoad(c, address)
  }

  function Opcode(op: BinaryOp): Op {
    match op
    case Or => OR case And => AND
    case Gt => GT case Lt => LT case Geq => GEQ case Leq => LEQ
    case Equal => EQ case NotEqual => NEQ
    case Divide => DIV case Minus => SOU case Times => MUL case Plus => ADD
  }

  function BinaryExpression(c: Compiler, op: BinaryOp, left: int, right: int): Compiler {
    Temporary(FreeRegister(Emit3(c, Opcode(op), left, left, right), right), left)
  }

  function UnaryExpression(c: Compiler, op: Op, r: int): Compiler {
    Temporary(Emit2(c, op, r, r), r)
  }

  // An unknown name is reported and nothing is emitted for it.
  function VariableAddress(c: Compiler, name: string): Result<(Compiler, int), Error> {
    var (c1, r) :- AllocRegister(c);
    match Lookup(c.symbols, name)
    case None => Success((c1, r))
    case Some(Local(offset)) =>
      Success((Temporary(Emit3(Emit2(c1, AFC, r, offset), SOU, r, REG_FP, r), r), r))
    case Some(Global(address)) =>
      Success((Temporary(Emit2(c1, AFC, r, address), r), r))
  }

  function DiscardExpression(c: Compiler, r: int): Compiler {
    Reset(FreeRegister(c, r))
  }

  function PointerStore(c: Compiler, address: int, value: int): Compiler {
    Reset(FreeRegister(FreeRegister(Emit2(c, STI, address, value), address), value))
  }

  function StoreGlobal(c: Compiler, address: int, r: int): Compiler {
    var c1 := Emit2(c.(regs := ForgetMemory(c.regs, address)), STR, address, r);
    FreeRegister(c1.(regs := BindMemory(c1.regs, r, address)), r)
  }

  // A register's value to a local.
  function StoreLocal(c: Compiler, offset: int, r: int): Compiler {
    Emit2(LocalAddress(c, offset), STI, REG_TMP, r)
  }

  function DeclareLocal(c: Compiler, name: string, r: int): Compiler {
    var offset := c.nextLocal;
    var c1 := c.(nextLocal := offset + 1, symbols := c.symbols + [Symbol(name, Local(offset))]);
    Reset(FreeRegister(StackPush(StoreLocal(c1, offset, r)), r))
  }

  function DeclareGlobal(c: Compiler, name: string, r: int): Compiler {
    var address := c.nextGlobal;
    StoreGlobal(c.(nextGlobal := address + 1, symbols := c.symbols + [Symbol(name, Global(address))]), address, r)
  }

  function VariableDeclaration(c: Compiler, name: string, r: int): Compiler {
    if c.inside then DeclareLocal(c, name, r) else DeclareGlobal(c, name, r)
  }

  function EmptyDeclaration(c: Compiler, name: string): Result<Compiler, Error> {
    var (c1, r) :- ConstantLoad(c, 0);
    Success(VariableDeclaration(c1, name, r))
  }

  // An unknown name is reported and nothing is emitted for it.
  function VariableAssignment(c: Compiler, name: string, r: int): Compiler {
    match Lookup(c.symbols, name)
    case None => FreeRegister(c, r)
    case Some(Local(offset)) => Reset(FreeRegister(StoreLocal(c, offset, r), r))
    case Some(Global(address)) => StoreGlobal(c, address, r)
  }

  function PrintStatement(c: Compiler, r: int): Compiler {
    FreeRegister(Emit1(c, PRI, r), r)
  }

  // ---------- code_functions.c ----------

  function BeginArguments(c: Compiler): Result<Compiler, Error> {
    if |c.pending| >= MAX_CALL_DEPTH then Failure(TooManyCalls)
    else Success(c.(pending := c.pending + [[]]))
  }

  // The argument list of the call being prepared.
  function Arguments(c: Compiler): seq<int> {
    if c.pending == [] then [] else c.pending[|c.pending| - 1]
  }

  function AddArgument(c: Compiler, r: int): Result<Compiler, Error> {
    if c.pending == [] then Failure(OutsideCall)
    else if |Arguments(c)| >= MAX_FUNCTION_PARAMETERS then Failure(TooManyArguments)
    else Success(c.(pending := c.pending[|c.pending| - 1 := Arguments(c) + [r]]))
  }

  // Newest first, as function_get_entry and function_get_parameter_count search.
  function FindFunction(functions: seq<Entry>, name: string): Option<Entry> {
    if functions == [] then None
    else if functions[|functions| - 1].name == name then Some(functions[|functions| - 1])
    else FindFunction(functions[..|functions| - 1], name)
  }

  // The registers in use from `r` on that are not arguments of this call, in order.
  function Saved(t: Table, args: seq<int>, r: int): seq<int>
    requires 1 <= r <= 12
    decreases 12 - r
  {
    if r == 12 then []
    else if t[r].inUse && r !in args then [r] + Saved(t, args, r + 1)
    else Saved(t, args, r + 1)
  }

  function PushRegister(c: Compiler, r: int): Compiler {
    StackPush(Emit2(c, STI, REG_SP, r))
  }

  function PushRegisters(c: Compiler, list: seq<int>): Compiler
    decreases |list|
  {
    if list == [] then c else PushRegisters(PushRegister(c, list[0]), list[1..])
  }

  function PushArguments(c: Compiler, args: seq<int>): Compiler
    decreases |args|
  {
    if args == [] then c else PushArguments(FreeRegister(PushRegister(c, args[0]), args[0]), args[1..])
  }

  function RestoreRegister(c: Compiler, r: int): Compiler {
    Emit2(StackPop(c), LDI, r, REG_SP)
  }

  // Restored from the last saved to the first.
  function RestoreRegisters(c: Compiler, list: seq<int>): Compiler
    decreases |list|
  {
    if list == [] then c
    else RestoreRegisters(RestoreRegister(c, list[|list| - 1]), list[..|list| - 1])
  }

  function JumpTo(c: Compiler, target: int): Compiler {
    Emit(c, Raw(J, Value(0), Ref(target), Value(0), false, ""))
  }

  // Everything code_add_function_call emits up to and including the J.
  function CallSequence(c: Compiler, entry: int): Compiler {
    var pushed := PushArguments(PushRegisters(c, Saved(c.regs, Arguments(c), 1)), Arguments(c));
    JumpTo(Emit2(pushed, AFC, REG_RA, |pushed.code| + 2), entry)
  }

  // The instructions after the J: argument pops, then the saved registers.
  function ReturnSequence(c: Compiler, saved: seq<int>, args: nat): Compiler {
    RestoreRegisters(StackPops(c, args), saved)
  }

  // What a call emits between its arguments and the copy of its result.
  function CallCode(c: Compiler, entry: int): Compiler {
    ReturnSequence(CallSequence(c, entry), Saved(c.regs, Arguments(c), 1), |Arguments(c)|)
  }

  // The copy of the callee's result.
  function ResultLoad(c: Compiler): Result<(Compiler, int), Error> {
    var (c1, r) :- AllocRegister(c);
    Success((Temporary(Emit2(c1, COP, r, REG_RETURN), r), r))
  }

  function FunctionCall(c: Compiler, name: string): Result<(Compiler, int), Error> {
    match FindFunction(c.functions, name)
    case None => Failure(UnknownFunction)
    case Some(entry) =>
      if c.pending == [] then Failure(OutsideCall) else
      if |Arguments(c)| != entry.arity then Failure(WrongArgumentCount) else
      var c1 := CallCode(c, entry.address);
      var c2 := c1.(regs := ForgetAvailable(c1.regs),
                    pending := c.pending[..|c.pending| - 1]);
      ResultLoad(c2)
  }

  function FunctionPrefix(c: Compiler): Compiler {
    Emit2(PushRegister(PushRegister(c, REG_RA), REG_FP), COP, REG_FP, REG_SP)
  }

  function FunctionSuffix(c: Compiler): Compiler {
    var c1 := Emit2(StackPop(Emit2(c, COP, REG_SP, REG_FP)), LDI, REG_FP, REG_SP);
    Emit1(Emit2(StackPop(c1), LDI, REG_RA, REG_SP), JI, REG_RA)
  }

  // The cell `source` above the frame base.
  function FetchArgument(c: Compiler, source: int, r: int): Compiler {
    Emit2(Emit3(Emit2(c, AFC, REG_TMP, source), ADD, REG_TMP, REG_FP, REG_TMP), LDI, r, REG_TMP)
  }

  function CopyArgument(c: Compiler, source: int, offset: int, r: int): Compiler {
    FreeRegister(StackPush(StoreLocal(FetchArgument(c, source, r), offset, r)), r)
  }

  // One round of the loop in code_add_parameter_locals for parameter `i` of `count`.
  function ParameterLocal(c: Compiler, name: string, i: nat, count: nat): Result<Compiler, Error> {
    var offset := c.nextLocal;
    var (c0, r) :- AllocRegister(c.(nextLocal := offset + 1));
    Success(CopyArgument(c0.(symbols := c.symbols + [Symbol(name, Local(offset))]), count - i + 2, offset, r))
  }

  function ParameterLocals(c: Compiler, names: seq<string>, i: nat): Result<Compiler, Error>
    requires i <= |names|
    decreases |names| - i
  {
    if i == |names| then Success(c) else
    var c1 :- ParameterLocal(c, names[i], i, |names|);
    ParameterLocals(c1, names, i + 1)
  }

  // The comment on a function's first instruction: a buffer of 128 characters,
  // the last of them the terminator.
  function Titled(name: string): string {
    if |name| > 127 then name[..127] else name
  }

  // The function's first instruction and its row in the function table.
  function EnterFunction(c: Compiler, name: string, arity: nat): Compiler {
    Label(c, Titled(name)).(functions := c.functions + [Entry(name, |c.code|, arity)], inside := true, nextLocal := 0)
  }

  function BeginFunction(c: Compiler, name: string, parameters: seq<string>): Result<Compiler, Error> {
    if |parameters| > MAX_FUNCTION_PARAMETERS then Failure(TooManyParameters)
    else if |c.functions| >= MAX_FUNCTIONS then Failure(TooManyFunctions)
    else
      var c1 :- ParameterLocals(FunctionPrefix(EnterFunction(c, name, |parameters|)), parameters, 0);
      Success(Reset(c1))
  }

  function EndFunction(c: Compiler): Compiler {
    Reset(FunctionSuffix(Emit2(c, AFC, REG_RETURN, 0)).(inside := false))
  }

  function ReturnStatement(c: Compiler, r: int): Compiler {
    Reset(FunctionSuffix(FreeRegister(Emit2(c, COP, REG_RETURN, r), r)))
  }

  // ---------- code_jumps.c ----------

  // The placeholder is the last instruction of the result.
  function ConditionalJump(c: Compiler, r: int): Compiler {
    Reset(FreeRegister(Emit(c, Plain(JF, 0, r, 0).(relative := true)), r))
  }

  function UnconditionalJump(c: Compiler): Compiler {
    Reset(Emit(c, Plain(J, 0, 0, 0).(relative := true)))
  }

  function PatchConditional(c: Compiler, at: nat, offset: int): Compiler {
    Reset(if at < |c.code| then c.(code := c.code[at := c.code[at].(z := Value(offset))]) else c)
  }

  function PatchUnconditional(c: Compiler, at: nat, offset: int): Compiler {
    Reset(if at < |c.code| then c.(code := c.code[at := c.code[at].(y := Value(offset))]) else c)
  }

  function LoopBack(c: Compiler, target: int): Compiler {
    Reset(JumpTo(c, target))
  }

  // ---------- the grammar's actions ----------

  function Expression(e: Expr, c: Compiler): Result<(Compiler, int), Error>
    decreases e
  {
    match e
    case Num(n) => ConstantLoad(c, n)
    case Var(name) => VariableLoad(c, name)
    case Binary(op, left, right) =>
      var (c1, l) :- Expression(left, c);
      var (c2, r) :- Expression(right, c1);
      Success((BinaryExpression(c2, op, l, r), l))
    case Not(operand) =>
      var (c1, r) :- Expression(operand, c);
      Success((UnaryExpression(c1, NOT, r), r))
    case AddressOf(name) => VariableAddress(c, name)
    case Deref(operand) =>
      var (c1, r) :- Expression(operand, c);
      Success((UnaryExpression(c1, LDI, r), r))
    case Call(name, args) =>
      var c1 :- BeginArguments(c);
      var c2 :- ArgumentList(args, c1);
      FunctionCall(c2, name)
  }

  function ArgumentList(args: Args, c: Compiler): Result<Compiler, Error>
    decreases args
  {
    match args
    case NoArgs => Success(c)
    case Arg(first, rest) =>
      var (c1, r) :- Expression(first, c);
      var c2 :- AddArgument(c1, r);
      ArgumentList(rest, c2)
  }

  function LetZeros(names: seq<string>, c: Compiler): Result<Compiler, Error> {
    if names == [] then Success(c) else
    var c1 :- EmptyDeclaration(c, names[|names| - 1]);
    LetZeros(names[..|names| - 1], c1)
  }

  function Declaration(d: Decl, c: Compiler): Result<Compiler, Error> {
    match d
    case Let(name, init) =>
      var (c1, r) :- Expression(init, c);
      Success(VariableDeclaration(c1, name, r))
    case LetZero(names) => LetZeros(names, c)
  }

  function Statement(s: Stmt, c: Compiler): Result<Compiler, Error>
    decreases s
  {
    match s
    case Block(body) =>
      var (c1, _) :- BlockOf(body, c);
      Success(c1)
    case Declare(d) => Declaration(d, c)
    case Assign(name, value) =>
      var (c1, r) :- Expression(value, c);
      Success(VariableAssignment(c1, name, r))
    case Store(target, value) =>
      var (c1, a) :- Expression(target, c);
      var (c2, r) :- Expression(value, c1);
      Success(PointerStore(c2, a, r))
    case Return(value) =>
      var (c1, r) :- Expression(value, c);
      Success(ReturnStatement(c1, r))
    case Print(value) =>
      var (c1, r) :- Expression(value, c);
      Success(PrintStatement(c1, r))
    case Discard(value) =>
      var (c1, r) :- Expression(value, c);
      Success(DiscardExpression(c1, r))
    case If(branch) =>
      var (c1, _) :- IfStatement(branch, c);
      Success(c1)
    case While(cond, body) =>
      // first_instruction_after of the scope's last instruction, NULL if it has none
      var head := if ScopeCount(c) > 0 then |c.code| else NO_TARGET;
      var (c1, _) :- Conditional(cond, body, Reset(c), 2);
      Success(LoopBack(c1, head))
  }

  // A condition, the conditional jump and the block it guards; the jump is
  // patched to the block's count plus `extra`.
  function Conditional(cond: Expr, body: Stmts, c: Compiler, extra: int): Result<(Compiler, int), Error>
    decreases body, 2
  {
    var (c1, r) :- Expression(cond, c);
    var (c2, count) :- BlockOf(body, ConditionalJump(c1, r));
    Success((PatchConditional(c2, |c1.code|, count + extra), count))
  }

  // The jump over an else block and that block; the jump is patched to the
  // block's count plus one.
  function Alternative(els: Stmts, c: Compiler): Result<(Compiler, int), Error>
    decreases els, 2
  {
    var (c1, count) :- BlockOf(els, UnconditionalJump(c));
    Success((PatchUnconditional(c1, |c.code|, count + 1), count))
  }

  // The same over an if statement, with the count that statement reports.
  function AlternativeIf(rest: IfStmt, c: Compiler): Result<(Compiler, int), Error>
    decreases rest, 1
  {
    var (c1, count) :- IfStatement(rest, UnconditionalJump(c));
    Success((PatchUnconditional(c1, |c.code|, count + 1), count))
  }

  // The second component is the grammar's $$: the count it takes for the
  // number of instructions of the statement.
  function IfStatement(i: IfStmt, c: Compiler): Result<(Compiler, int), Error>
    decreases i, 0
  {
    match i
    case IfThen(cond, thn) =>
      var (c1, count) :- Conditional(cond, thn, c, 1);
      Success((c1, count + 1))
    case IfElse(cond, thn, els) =>
      var (c1, taken) :- Conditional(cond, thn, c, 2);
      var (c2, count) :- Alternative(els, c1);
      Success((c2, taken + 1 + count + 1))
    case IfElseIf(cond, thn, rest) =>
      var (c1, taken) :- Conditional(cond, thn, c, 2);
      var (c2, count) :- AlternativeIf(rest, c1);
      Success((c2, taken + 1 + count + 1))
  }

  function BlockOf(body: Stmts, c: Compiler): Result<(Compiler, int), Error>
    decreases body, 1
  {
    var c1 :- Statements(body, BeginBlock(c));
    Success(EndBlock(c1))
  }

  function Statements(ss: Stmts, c: Compiler): Result<Compiler, Error>
    decreases ss, 0
  {
    match ss
    case Nil => Success(c)
    case Cons(head, tail) =>
      var c1 :- Statement(head, c);
      Statements(tail, c1)
  }

  function Globals(ds: seq<Decl>, c: Compiler): Result<Compiler, Error> {
    if ds == [] then Success(c) else
    var c1 :- Globals(ds[..|ds| - 1], c);
    Declaration(ds[|ds| - 1], c1)
  }

  function ProgramStart(c: Compiler): Compiler {
    Reset(JumpTo(c, NO_TARGET))
  }

  function FunctionDefinition(f: Function, c: Compiler): Result<Compiler, Error> {
    var c1 :- BeginFunction(c, f.name, f.parameters);
    var (c2, _) :- BlockOf(f.body, c1);
    Success(EndFunction(c2))
  }

  function Functions(fs: seq<Function>, c: Compiler): Result<Compiler, Error> {
    if fs == [] then Success(c) else
    var c1 :- Functions(fs[..|fs| - 1], c);
    FunctionDefinition(fs[|fs| - 1], c1)
  }

  // `start` is the position of the jump ProgramStart emitted.
  function BeginMain(c: Compiler, start: nat): Compiler {
    var c1 := Label(c, "main");
    var c2 := if start < |c1.code| then c1.(code := c1.code[start := c1.code[start].(y := Ref(|c.code|))]) else c1;
    Reset(Emit2(Emit2(c2.(inside := true, nextLocal := 0), AFC, REG_SP, 255), COP, REG_FP, REG_SP))
  }

  function EndMain(c: Compiler): Compiler {
    Flush(Reset(c.(inside := false)))
  }

  function CompileProgram(p: Syntax.Program, caching: bool): Result<Compiler, Error> {
    var c1 :- Globals(p.globals, Start(caching));
    var c2 :- Functions(p.functions, ProgramStart(c1));
    var (c3, _) :- BlockOf(p.main, BeginMain(c2, |c1.code|));
    Success(EndMain(c3))
  }
}
