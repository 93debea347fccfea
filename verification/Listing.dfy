// What the compiler writes for a resolved instruction (instruction.c): a line
// of assembly text and four bytes.
module Listing {
  import opened Machine
  import opened Instructions
  import opened Strings

  function OpName(op: Op): string {
    match op
    case NOP => "NOP" case AFC => "AFC" case COP => "COP"
    case ADD => "ADD" case MUL => "MUL" case SOU => "SOU" case DIV => "DIV"
    case NOT => "NOT" case AND => "AND" case OR => "OR"
    case BNOT => "BNOT" case BAND => "BAND" case BOR => "BOR"
    case LOAD => "LOAD" case STR => "STR" case LDI => "LDI" case STI => "STI"
    case J => "J" case JF => "JF" case JI => "JI"
    case LT => "LT" case GT => "GT" case EQ => "EQ"
    case LEQ => "LEQ" case GEQ => "GEQ" case NEQ => "NEQ"
    case PRI => "PRI"
  }

  // print_register: nothing for a number that names no register.
  function RegisterName(r: int): string {
    if 0 <= r <= 12 then "r" + Numeral(r, 10)
    else if r == 13 then "sp" else if r == 14 then "fp" else if r == 15 then "ra" else ""
  }

  // C's % truncates toward zero.
  function Remainder(v: int, d: nat): int
    requires d > 0
  {
    if v >= 0 then v % d else 0 - ((0 - v) % d)
  }

  // The number print_hex writes.
  function Printable(v: int): (r: nat)
    ensures Byte(r) == Byte(v)
  {
    if v < 0 then Remainder(Remainder(v, 256) + 256, 256) else v
  }

  function Hex(v: int): string {
    "0x" + Numeral(Printable(v), 16)
  }

  // The words of an instruction.
  function Tokens(op: Op, x: int, y: int, z: int): (words: seq<string>)
    ensures words != []
  {
    var name := OpName(op);
    match op
    case NOP => [name]
    case AFC | LOAD => [name, RegisterName(x), Hex(y)]
    case COP | NOT | BNOT | LDI => [name, RegisterName(x), RegisterName(y)]
    case STI => [name, RegisterName(y), RegisterName(z)]
    case STR => [name, Hex(x), RegisterName(y)]
    case JF => [name, RegisterName(y), Hex(z)]
    case J => [name, Hex(y)]
    case JI | PRI => [name, RegisterName(y)]
    case _ => [name, RegisterName(x), RegisterName(y), RegisterName(z)]
  }

  function Comment(comment: string): string {
    if comment == "" then "" else seq(10, _ => ' ') + "% " + comment
  }

  // instruction_write
  function Line(op: Op, x: int, y: int, z: int, comment: string, address: nat): string {
    "0x" + Padded(address, 16, 4) + ":  " + Join(Tokens(op, x, y, z)) + Comment(comment) + "\n"
  }

  function LineOf(i: Raw, address: nat): string {
    Line(i.op, Operand(i.x), Operand(i.y), Operand(i.z), i.comment, address)
  }

  // scope_write_instructions, from the instruction at `address` on
  function Text(code: seq<Raw>, address: nat): string {
    if code == [] then "" else LineOf(code[0], address) + Text(code[1..], address + 1)
  }

  // scope_write_binary
  function Packed(code: seq<Raw>): seq<byte> {
    if code == [] then [] else Bytes(code[0]) + Packed(code[1..])
  }
}
