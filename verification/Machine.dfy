// The target: the 16-register, 256-cell byte machine whose meaning is the
// interpreter's step function (web/app.js).
module Machine {

  type byte = v: int | 0 <= v < 256

  const REG_RETURN := 0
  const REG_FIRST_GENERAL := 1
  const REG_LAST_GENERAL := 11
  const REG_TMP := 12
  const REG_SP := 13
  const REG_FP := 14
  const REG_RA := 15

  // Reduction to a byte. The interpreter writes ((v % 256) + 256) % 256 with a
  // truncating remainder, which is the Euclidean remainder.
  function Byte(v: int): byte {
    v % 256
  }

  function Up(v: byte): byte {
    Byte(v + 1)
  }

  function Down(v: byte): byte {
    Byte(v - 1)
  }

  datatype Op =
    | NOP | AFC | COP
    | ADD | MUL | SOU | DIV
    | NOT | AND | OR
    | BNOT | BAND | BOR
    | LOAD | STR | LDI | STI
    | J | JF | JI
    | LT | GT | EQ | LEQ | GEQ | NEQ
    | PRI

  // A loaded instruction: operands sit where the interpreter reads them.
  datatype Instr = Instr(op: Op, a: int, b: int, c: int)

  type Image = seq<Instr>

  datatype RawState = State(regs: seq<byte>, mem: seq<byte>, pc: nat, output: seq<byte>)

  type State = m: RawState | |m.regs| == 16 && |m.mem| == 256
    witness State(seq(16, i => 0), seq(256, i => 0), 0, [])

  // The state after a reset: every register and cell holds zero.
  function ResetState(): State {
    State(seq(16, i => 0), seq(256, i => 0), 0, [])
  }

  const RESET: State := ResetState()

  predicate IsRegister(r: int) {
    0 <= r < 16
  }

  predicate IsTernary(op: Op) {
    match op
    case ADD | MUL | SOU | DIV | AND | OR | BAND | BOR => true
    case LT | GT | EQ | LEQ | GEQ | NEQ => true
    case _ => false
  }

  // Every operand used as a register names one of the sixteen.
  predicate Executable(i: Instr) {
    match i.op
    case NOP | J => true
    case AFC | LOAD | JF | JI | PRI => IsRegister(i.a)
    case STR => IsRegister(i.b)
    case COP | NOT | BNOT | LDI | STI => IsRegister(i.a) && IsRegister(i.b)
    case _ => IsRegister(i.a) && IsRegister(i.b) && IsRegister(i.c)
  }

  function Truth(b: bool): byte {
    if b then 1 else 0
  }

  // The operators & and | on natural numbers, from the last binary digit up.
  function BitAnd(x: nat, y: nat): nat {
    if x == 0 || y == 0 then 0
    else 2 * BitAnd(x / 2, y / 2) + (if x % 2 == 1 && y % 2 == 1 then 1 else 0)
  }

  function BitOr(x: nat, y: nat): nat {
    if x == 0 then y else if y == 0 then x
    else 2 * BitOr(x / 2, y / 2) + (if x % 2 == 1 || y % 2 == 1 then 1 else 0)
  }

  // The three-register operations.
  function Alu(op: Op, x: byte, y: byte): byte
    requires IsTernary(op)
  {
    match op
    case ADD => Byte(x + y)
    case MUL => Byte(x * y)
    case SOU => Byte(x - y)
    case DIV => if y == 0 then 0 else Byte(x / y)
    case AND => Truth(x != 0 && y != 0)
    case OR => Truth(x != 0 || y != 0)
    case BAND => Byte(BitAnd(x, y))
    case BOR => Byte(BitOr(x, y))
    case LT => Truth(x < y)
    case GT => Truth(x > y)
    case EQ => Truth(x == y)
    case LEQ => Truth(x <= y)
    case GEQ => Truth(x >= y)
    case NEQ => Truth(x != y)
  }

  function SetReg(m: State, r: int, v: byte): State
    requires IsRegister(r)
  {
    m.(regs := m.regs[r := v], pc := m.pc + 1)
  }

  function SetMem(m: State, a: byte, v: byte): State {
    m.(mem := m.mem[a := v], pc := m.pc + 1)
  }

  // The effect of one instruction.
  function Effect(i: Instr, m: State): State
    requires Executable(i)
  {
    var r := m.regs;
    match i.op
    case NOP => m.(pc := m.pc + 1)
    case AFC => SetReg(m, i.a, Byte(i.b))
    case COP => SetReg(m, i.a, r[i.b])
    case NOT => SetReg(m, i.a, Truth(r[i.b] == 0))
    case BNOT => SetReg(m, i.a, 255 - r[i.b])
    case LOAD => SetReg(m, i.a, m.mem[Byte(i.b)])
    case STR => SetMem(m, Byte(i.a), r[i.b])
    case LDI => SetReg(m, i.a, m.mem[r[i.b]])
    case STI => SetMem(m, r[i.a], r[i.b])
    case J => m.(pc := Byte(i.a))
    case JF => m.(pc := if r[i.a] == 0 then Byte(i.b) else m.pc + 1)
    case JI => m.(pc := r[i.a])
    case PRI => m.(output := m.output + [r[i.a]], pc := m.pc + 1)
    case _ => SetReg(m, i.a, Alu(i.op, r[i.b], r[i.c]))
  }

  predicate Halted(p: Image, m: State) {
    m.pc >= |p|
  }

  // One call of step. A halted machine stays as it is, and so does one whose
  // next instruction names a register that does not exist.
  function Step(p: Image, m: State): State {
    if Halted(p, m) || !Executable(p[m.pc]) then m else Effect(p[m.pc], m)
  }

  function Run(p: Image, m: State, t: nat): State
    decreases t
  {
    if t == 0 then m else Run(p, Step(p, m), t - 1)
  }

  lemma {:induction false} RunAdd(p: Image, m: State, t: nat, u: nat)
    ensures Run(p, m, t + u) == Run(p, Run(p, m, t), u)
    decreases t
  {
    if t != 0 {
      RunAdd(p, Step(p, m), t - 1, u);
    }
  }

  lemma Run1(p: Image, m: State)
    ensures Run(p, m, 1) == Step(p, m)
  {
    assert Run(p, Step(p, m), 0) == Step(p, m);
  }

  lemma Run2(p: Image, m: State)
    ensures Run(p, m, 2) == Step(p, Step(p, m))
  {
    Run1(p, Step(p, m));
  }

  lemma Run3(p: Image, m: State)
    ensures Run(p, m, 3) == Step(p, Step(p, Step(p, m)))
  {
    Run2(p, Step(p, m));
  }

  // A halted machine never moves again.
  lemma {:induction false} HaltedStays(p: Image, m: State, t: nat)
    requires Halted(p, m)
    ensures Run(p, m, t) == m
    decreases t
  {
    if t != 0 {
      HaltedStays(p, m, t - 1);
    }
  }

  // Hence a machine still inside its program after t steps was inside it at
  // every earlier moment.
  lemma RunningBefore(p: Image, m: State, t: nat, u: nat)
    requires u <= t
    requires !Halted(p, Run(p, m, t))
    ensures !Halted(p, Run(p, m, u))
  {
    RunAdd(p, m, u, t - u);
    if Halted(p, Run(p, m, u)) {
      HaltedStays(p, Run(p, m, u), t - u);
    }
  }
}
