// The compiler's instruction records (instruction.c): resolution of jump
// references (scope.c) and the four-byte encoding.
module Instructions {
  import opened Machine

  // The C union argument_t. A reference names the instruction object by its
  // position in emission order; NO_TARGET is the NULL pointer.
  const NO_TARGET := -1

  datatype Argument = Value(value: int) | Ref(target: int)

  datatype Raw = Raw(op: Op, x: Argument, y: Argument, z: Argument,
                     relative: bool, comment: string)

  function Plain(op: Op, x: int, y: int, z: int): Raw {
    Raw(op, Value(x), Value(y), Value(z), false, "")
  }

  // The C constants 0x00..0x1A, which app.js shares.
  function OpByte(op: Op): byte {
    match op
    case NOP => 0x00 case AFC => 0x01 case COP => 0x02
    case ADD => 0x03 case MUL => 0x04 case SOU => 0x05 case DIV => 0x06
    case NOT => 0x07 case AND => 0x08 case OR => 0x09
    case BNOT => 0x0A case BAND => 0x0B case BOR => 0x0C
    case LOAD => 0x0D case STR => 0x0E case LDI => 0x0F case STI => 0x10
    case J => 0x11 case JF => 0x12 case JI => 0x13
    case LT => 0x14 case GT => 0x15 case EQ => 0x16
    case LEQ => 0x17 case GEQ => 0x18 case NEQ => 0x19
    case PRI => 0x1A
  }

  // The numeric operand of a jump once addresses are known: a relative jump
  // adds its own address, another takes its target's address, and the NULL
  // reference becomes 0.
  function ResolveArgument(a: Argument, relative: bool, address: int): Argument {
    match a
    case Value(v) => if relative then Value(address + v) else Value(0)
    case Ref(t) => if t == NO_TARGET then Value(0) else Value(t)
  }

  function Resolve(i: Raw, address: int): Raw {
    match i.op
    case J => i.(y := ResolveArgument(i.y, i.relative, address))
    case JF => i.(z := ResolveArgument(i.z, i.relative, address))
    case _ => i
  }

  function ResolveAll(code: seq<Raw>): (r: seq<Raw>) {
    seq(|code|, i requires 0 <= i < |code| => Resolve(code[i], i))
  }

  function Operand(a: Argument): int {
    match a
    case Value(v) => v
    case Ref(_) => 0
  }

  // OP A B C, each reduced by the cast to unsigned char.
  function Bytes(i: Raw): seq<byte> {
    [OpByte(i.op), Byte(Operand(i.x)), Byte(Operand(i.y)), Byte(Operand(i.z))]
  }

  // The operand placement decodeBinary undoes: jumps, STI, JI and PRI keep
  // their operands one slot to the right.
  function DecodeOperands(op: Op, a: byte, b: byte, c: byte): Instr {
    match op
    case J => Instr(op, b, 0, 0)
    case JF => Instr(op, b, c, 0)
    case STI => Instr(op, b, c, 0)
    case JI => Instr(op, b, 0, 0)
    case PRI => Instr(op, b, 0, 0)
    case _ => Instr(op, a, b, c)
  }

  // What the machine holds at `address` when `i` was emitted there.
  function Assemble(i: Raw, address: int): Instr {
    var r := Resolve(i, address);
    DecodeOperands(r.op, Byte(Operand(r.x)), Byte(Operand(r.y)), Byte(Operand(r.z)))
  }

  function AssembleAll(code: seq<Raw>): (p: Image) {
    seq(|code|, i requires 0 <= i < |code| => Assemble(code[i], i))
  }
}
