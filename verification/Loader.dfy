// How the web interface reads programs (web/app.js): assembly text, binary
// images, and the text it shows for a decoded instruction.
module Loader {
  import opened Wrappers
  import opened Machine
  import opened Instructions
  import opened Strings
  import opened Listing

  datatype LoadError =
    | UnknownInstruction(name: string)
    | BadNumber(token: string)
    | BadRegister(token: string)
    | RegisterOutOfRange(token: string)
    | MissingRegister
    | BadLength
    | UnknownOpcode(code: byte)

  // ---------- words ----------

  function UpperChar(c: char): char {
    if 'a' <= c <= 'z' then (c as int - 32) as char else c
  }

  function LowerChar(c: char): char {
    if 'A' <= c <= 'Z' then (c as int + 32) as char else c
  }

  function Upper(s: string): string {
    seq(|s|, i requires 0 <= i < |s| => UpperChar(s[i]))
  }

  function Lower(s: string): string {
    seq(|s|, i requires 0 <= i < |s| => LowerChar(s[i]))
  }

  // OPCODES
  function Named(name: string): Option<Op> {
    if name == "NOP" then Some(NOP) else if name == "AFC" then Some(AFC) else if name == "COP" then Some(COP)
    else if name == "ADD" then Some(ADD) else if name == "MUL" then Some(MUL) else if name == "SOU" then Some(SOU)
    else if name == "DIV" then Some(DIV) else if name == "NOT" then Some(NOT) else if name == "AND" then Some(AND)
    else if name == "OR" then Some(OR) else if name == "BNOT" then Some(BNOT) else if name == "BAND" then Some(BAND)
    else if name == "BOR" then Some(BOR) else if name == "LOAD" then Some(LOAD) else if name == "STR" then Some(STR)
    else if name == "LDI" then Some(LDI) else if name == "STI" then Some(STI) else if name == "J" then Some(J)
    else if name == "JF" then Some(JF) else if name == "JI" then Some(JI) else if name == "LT" then Some(LT)
    else if name == "GT" then Some(GT) else if name == "EQ" then Some(EQ) else if name == "LEQ" then Some(LEQ)
    else if name == "GEQ" then Some(GEQ) else if name == "NEQ" then Some(NEQ) else if name == "PRI" then Some(PRI)
    else None
  }

  // parts[i], which may be undefined
  function Part(parts: seq<string>, i: nat): Option<string> {
    if i < |parts| then Some(parts[i]) else None
  }

  function Unprefixed(s: string, c: char): string {
    if s != "" && s[0] == c then s[1..] else s
  }

  // parseNumber
  function ParseNumber(token: Option<string>): Result<int, LoadError> {
    if token.None? || token.value == "" then Success(0) else
    var text := Unprefixed(Trim(token.value), '@');
    var body := Unprefixed(text, '-');
    var sign := if body == text then 1 else -1;
    if |body| > 2 && body[0] == '0' && (body[1] == 'x' || body[1] == 'X') && AreDigits(body[2..], 16)
    then Success(sign * ValueOf(body[2..], 16))
    else if AreDigits(body, 10) then Success(sign * ValueOf(body, 10))
    else Failure(BadNumber(token.value))
  }

  // parseRegister
  function ParseRegister(token: Option<string>): Result<int, LoadError> {
    if token.None? then Failure(MissingRegister) else
    var text := Lower(Trim(token.value));
    if text == "_" then Success(0)
    else if text == "sp" then Success(13)
    else if text == "fp" then Success(14)
    else if text == "ra" then Success(15)
    else if text == "" || text[0] != 'r' || !AreDigits(text[1..], 10) then Failure(BadRegister(token.value))
    else if ValueOf(text[1..], 10) > 15 then Failure(RegisterOutOfRange(token.value))
    else Success(ValueOf(text[1..], 10))
  }

  // ---------- lines ----------

  function CleanLine(line: string): string {
    Trim(Cut(Cut(line, '%'), ';'))
  }

  // How many hexadecimal digits s begins with.
  function HexRun(s: string): (n: nat)
    ensures n <= |s|
  {
    if s == "" || DigitOf(s[0]) == 16 then 0 else 1 + HexRun(s[1..])
  }

  // Without a leading "0x...:".
  function Unaddressed(line: string): string {
    if |line| > 2 && line[0] == '0' && (line[1] == 'x' || line[1] == 'X') then
      var n := HexRun(line[2..]);
      if n > 0 && 2 + n < |line| && line[2 + n] == ':' then Trim(line[3 + n..]) else line
    else line
  }

  function ParseWords(parts: seq<string>): Result<Instr, LoadError>
    requires parts != []
  {
    var name := Upper(parts[0]);
    match Named(name)
    case None => Failure(UnknownInstruction(name))
    case Some(op) =>
      match op
      case NOP => Success(Instr(op, 0, 0, 0))
      case COP | NOT | BNOT | LDI | STI =>
        var a :- ParseRegister(Part(parts, 1));
        var b :- ParseRegister(Part(parts, 2));
        Success(Instr(op, a, b, 0))
      case AFC | LOAD | JF =>
        var a :- ParseRegister(Part(parts, 1));
        var b :- ParseNumber(Part(parts, 2));
        Success(Instr(op, a, b, 0))
      case STR =>
        var a :- ParseNumber(Part(parts, 1));
        var b :- ParseRegister(Part(parts, 2));
        Success(Instr(op, a, b, 0))
      case J =>
        var a :- ParseNumber(Part(parts, 1));
        Success(Instr(op, a, 0, 0))
      case JI | PRI =>
        var a :- ParseRegister(Part(parts, 1));
        Success(Instr(op, a, 0, 0))
      case _ =>
        var a :- ParseRegister(Part(parts, 1));
        var b :- ParseRegister(Part(parts, 2));
        var c :- ParseRegister(Part(parts, 3));
        Success(Instr(op, a, b, c))
  }

  // One round of parseAssembly's loop: an instruction, or nothing on a blank line.
  function ParseLine(raw: string): Result<seq<Instr>, LoadError> {
    var line := CleanLine(raw);
    if line == "" then Success([]) else
    var i :- ParseWords(Words(Unaddressed(line)));
    Success([i])
  }

  function ParseLines(lines: seq<string>): Result<Image, LoadError> {
    if lines == [] then Success([]) else
    var first :- ParseLine(lines[0]);
    var rest :- ParseLines(lines[1..]);
    Success(first + rest)
  }

  // parseAssembly
  method ParseAssembly(text: string) returns (r: Result<Image, LoadError>)
    ensures r == ParseLines(Lines(text))
  {
    hide ParseLine;
    var instructions := [];
    var lines := Lines(text);
    assert lines[0..] == lines && forall rest: Image :: [] + rest == rest;
    for i := 0 to |lines|
      invariant ParseLines(lines) == match ParseLines(lines[i..])
        case Failure(e) => Failure(e)
        case Success(rest) => Success(instructions + rest)
    {
      assert lines[i..][1..] == lines[i + 1..];
      var read :- ParseLine(lines[i]);
      ghost var before := instructions;
      instructions := instructions + read;
      assert forall rest: Image :: before + (read + rest) == instructions + rest;
    }
    assert instructions + [] == instructions;
    return Success(instructions);
  }

  // ---------- binary images ----------

  // OPCODE_NAMES
  function Decoded(code: byte): Option<Op> {
    match code
    case 0x00 => Some(NOP) case 0x01 => Some(AFC) case 0x02 => Some(COP)
    case 0x03 => Some(ADD) case 0x04 => Some(MUL) case 0x05 => Some(SOU) case 0x06 => Some(DIV)
    case 0x07 => Some(NOT) case 0x08 => Some(AND) case 0x09 => Some(OR)
    case 0x0A => Some(BNOT) case 0x0B => Some(BAND) case 0x0C => Some(BOR)
    case 0x0D => Some(LOAD) case 0x0E => Some(STR) case 0x0F => Some(LDI) case 0x10 => Some(STI)
    case 0x11 => Some(J) case 0x12 => Some(JF) case 0x13 => Some(JI)
    case 0x14 => Some(LT) case 0x15 => Some(GT) case 0x16 => Some(EQ)
    case 0x17 => Some(LEQ) case 0x18 => Some(GEQ) case 0x19 => Some(NEQ)
    case 0x1A => Some(PRI)
    case _ => None
  }

  function DecodeWord(code: byte, a: byte, b: byte, c: byte): Result<Instr, LoadError> {
    match Decoded(code)
    case None => Failure(UnknownOpcode(code))
    case Some(op) => Success(DecodeOperands(op, a, b, c))
  }

  function DecodeAll(bytes: seq<byte>): Result<Image, LoadError>
    requires |bytes| % 4 == 0
  {
    if bytes == [] then Success([]) else
    var first :- DecodeWord(bytes[0], bytes[1], bytes[2], bytes[3]);
    var rest :- DecodeAll(bytes[4..]);
    Success([first] + rest)
  }

  // decodeBinary
  method DecodeBinary(bytes: seq<byte>) returns (r: Result<Image, LoadError>)
    ensures r == if |bytes| % 4 != 0 then Failure(BadLength) else DecodeAll(bytes)
  {
    hide DecodeWord;
    if |bytes| % 4 != 0 {
      return Failure(BadLength);
    }
    var instructions := [];
    var i := 0;
    assert bytes[0..] == bytes && forall rest: Image :: [] + rest == rest;
    while i < |bytes|
      invariant 0 <= i <= |bytes| && i % 4 == 0
      invariant DecodeAll(bytes) == match DecodeAll(bytes[i..])
        case Failure(e) => Failure(e)
        case Success(rest) => Success(instructions + rest)
    {
      assert bytes[i..][4..] == bytes[i + 4..];
      var read :- DecodeWord(bytes[i], bytes[i + 1], bytes[i + 2], bytes[i + 3]);
      ghost var before := instructions;
      instructions := instructions + [read];
      assert forall rest: Image :: before + ([read] + rest) == instructions + rest;
      i := i + 4;
    }
    assert instructions + [] == instructions;
    return Success(instructions);
  }

  // ---------- the text shown for an instruction ----------

  // regName
  function ShownRegister(r: int): string {
    if 0 <= r < 16 then RegisterName(r)
    else if r >= 16 then "r" + Numeral(r, 10) else "r-" + Numeral(0 - r, 10)
  }

  // hex
  function ShownHex(v: int): string {
    "0x" + Padded(Byte(v), 16, 2)
  }

  function ShownWords(i: Instr): (words: seq<string>)
    ensures words != []
  {
    var name := OpName(i.op);
    match i.op
    case NOP => [name]
    case AFC | LOAD | JF => [name, ShownRegister(i.a), ShownHex(i.b)]
    case COP | NOT | BNOT | LDI | STI => [name, ShownRegister(i.a), ShownRegister(i.b)]
    case STR => [name, ShownHex(i.a), ShownRegister(i.b)]
    case J => [name, ShownHex(i.a)]
    case JI | PRI => [name, ShownRegister(i.a)]
    case _ => [name, ShownRegister(i.a), ShownRegister(i.b), ShownRegister(i.c)]
  }

  // formatInstruction
  function Format(i: Instr): string {
    Join(ShownWords(i))
  }
}
