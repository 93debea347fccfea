// The two outputs of the compiler denote the same program, and the web
// interface reads back what it shows.
module Encodings {
  import opened Wrappers
  import opened Machine
  import opened Instructions
  import opened Strings
  import opened Listing
  import opened Loader

  // ---------- words ----------

  predicate AllHarmless(s: string) {
    forall i | 0 <= i < |s| :: Harmless(s[i])
  }

  // A token: not empty, and free of white space and separators.
  predicate IsToken(s: string) {
    s != "" && AllHarmless(s)
  }

  lemma TokenTrims(s: string)
    requires IsToken(s)
    ensures IsWord(s) && Trim(s) == s
  {
    assert Harmless(s[0]) && Harmless(s[|s| - 1]);
    TrimBoth(s);
  }

  lemma NameReads(op: Op)
    ensures Named(OpName(op)) == Some(op)
  {
    hide Named, OpName;
    if OpByte(op) < 10 {
      EarlyNameReads(op);
    } else if OpByte(op) < 18 {
      MiddleNameReads(op);
    } else {
      LateNameReads(op);
    }
  }

  lemma EarlyNameReads(op: Op)
    requires OpByte(op) < 10
    ensures Named(OpName(op)) == Some(op)
  {
  }

  lemma MiddleNameReads(op: Op)
    requires 10 <= OpByte(op) < 18
    ensures Named(OpName(op)) == Some(op)
  {
  }

  lemma LateNameReads(op: Op)
    requires 18 <= OpByte(op)
    ensures Named(OpName(op)) == Some(op)
  {
  }

  lemma UpperName(op: Op)
    ensures Upper(OpName(op)) == OpName(op)
  {
  }

  lemma NameIsToken(op: Op)
    ensures IsToken(OpName(op)) && OpName(op)[0] != '0'
  {
  }

  lemma DigitsLower(s: string)
    requires AreDigits(s, 10)
    ensures Lower(s) == s
  {
    forall i | 0 <= i < |s|
      ensures LowerChar(s[i]) == s[i]
    {
      assert DigitOf(s[i]) < 10;
    }
  }

  lemma NumberedRegister(r: nat)
    ensures var s := "r" + Numeral(r, 10);
      IsToken(s) && ParseRegister(Some(s)) == if r <= 15 then Success(r) else Failure(RegisterOutOfRange(s))
  {
    hide Numeral, Trim, ValueOf, DigitOf, IsSpace;
    NumeralRoundTrip(r, 10);
    var s := "r" + Numeral(r, 10);
    LetterR();
    assert IsToken(s) by {
      assert forall i | 0 < i < |s| :: s[i] == Numeral(r, 10)[i - 1];
    }
    TokenTrims(s);
    DigitsLower(Numeral(r, 10));
    assert Lower(s) == s by {
      assert forall i | 0 < i < |s| :: Lower(s)[i] == Lower(Numeral(r, 10))[i - 1];
    }
    assert s[1..] == Numeral(r, 10);
    assert s[1] == Numeral(r, 10)[0] && DigitOf(s[1]) < 10;
    NotADigit();
  }

  lemma LetterR()
    ensures Harmless('r') && LowerChar('r') == 'r'
  {
  }

  lemma NotADigit()
    ensures DigitOf('a') == 10
  {
  }

  lemma NamedRegister(r: int)
    requires 13 <= r <= 15
    ensures IsToken(RegisterName(r)) && ParseRegister(Some(RegisterName(r))) == Success(r)
  {
    TokenTrims(RegisterName(r));
    assert Lower(RegisterName(r)) == RegisterName(r);
  }

  // A register's name is read back as its number; a number past the last
  // register is refused.
  lemma RegisterReads(r: nat)
    ensures var s := ShownRegister(r);
      IsToken(s) && ParseRegister(Some(s)) == if r <= 15 then Success(r) else Failure(RegisterOutOfRange(s))
  {
    if r <= 12 || r > 15 {
      NumberedRegister(r);
    } else {
      NamedRegister(r);
    }
  }

  lemma HexadecimalReads(digits: string)
    requires AreDigits(digits, 16) && AllHarmless(digits)
    ensures var s := "0x" + digits; IsToken(s) && ParseNumber(Some(s)) == Success(ValueOf(digits, 16))
  {
    hide Trim, ValueOf, IsSpace;
    var s := "0x" + digits;
    ZeroX();
    assert IsToken(s) by {
      assert forall i | 2 <= i < |s| :: s[i] == digits[i - 2];
    }
    TokenTrims(s);
    assert s[2..] == digits;
    assert s[0] == '0' && s[1] == 'x';
  }

  lemma ZeroX()
    ensures Harmless('0') && Harmless('x')
  {
  }

  // The number the compiler prints is read back.
  lemma HexReads(v: int)
    ensures IsToken(Hex(v)) && ParseNumber(Some(Hex(v))) == Success(Printable(v))
  {
    NumeralRoundTrip(Printable(v), 16);
    HexadecimalReads(Numeral(Printable(v), 16));
  }

  lemma ShownHexReads(v: int)
    ensures IsToken(ShownHex(v)) && ParseNumber(Some(ShownHex(v))) == Success(Byte(v))
  {
    PaddedRoundTrip(Byte(v), 16, 2);
    HexadecimalReads(Padded(Byte(v), 16, 2));
  }

  // ---------- instructions ----------

  // Every operand that instruction_write prints as a register names one.
  predicate Encodable(i: Raw) {
    var (x, y, z) := (IsRegister(Operand(i.x)), IsRegister(Operand(i.y)), IsRegister(Operand(i.z)));
    match i.op
    case NOP | J => true
    case AFC | LOAD => x
    case STR | JF | JI | PRI => y
    case COP | NOT | BNOT | LDI => x && y
    case STI => y && z
    case _ => x && y && z
  }

  // What the text of an instruction is read as.
  function Read(op: Op, x: int, y: int, z: int): Instr {
    match op
    case NOP => Instr(op, 0, 0, 0)
    case AFC | LOAD => Instr(op, x, Printable(y), 0)
    case COP | NOT | BNOT | LDI => Instr(op, x, y, 0)
    case STI => Instr(op, y, z, 0)
    case STR => Instr(op, Printable(x), y, 0)
    case JF => Instr(op, y, Printable(z), 0)
    case J => Instr(op, Printable(y), 0, 0)
    case JI | PRI => Instr(op, y, 0, 0)
    case _ => Instr(op, x, y, z)
  }

  predicate AreTokens(words: seq<string>) {
    words != [] && forall i | 0 <= i < |words| :: IsToken(words[i])
  }

  lemma PrintedRegister(r: int)
    requires IsRegister(r)
    ensures IsToken(RegisterName(r)) && ParseRegister(Some(RegisterName(r))) == Success(r)
  {
    RegisterReads(r);
  }

  lemma TokensRead(i: Raw)
    requires Encodable(i)
    ensures var (x, y, z) := (Operand(i.x), Operand(i.y), Operand(i.z));
      AreTokens(Tokens(i.op, x, y, z)) && ParseWords(Tokens(i.op, x, y, z)) == Success(Read(i.op, x, y, z))
  {
    hide RegisterName, Hex, ParseRegister, ParseNumber, IsToken, OpName, Upper, Named, Printable, Operand;
    var (x, y, z) := (Operand(i.x), Operand(i.y), Operand(i.z));
    NameReads(i.op);
    UpperName(i.op);
    NameIsToken(i.op);
    HexReads(x);
    HexReads(y);
    HexReads(z);
    if IsRegister(x) {
      PrintedRegister(x);
    }
    if IsRegister(y) {
      PrintedRegister(y);
    }
    if IsRegister(z) {
      PrintedRegister(z);
    }
  }

  // The operands the machine ignores, cleared.
  function Canonical(i: Instr): Instr {
    match i.op
    case NOP => Instr(i.op, 0, 0, 0)
    case J | JI | PRI => i.(b := 0, c := 0)
    case AFC | LOAD | STR | JF | COP | NOT | BNOT | LDI | STI => i.(c := 0)
    case _ => i
  }

  predicate ByteOperands(i: Instr) {
    0 <= i.a < 256 && 0 <= i.b < 256 && 0 <= i.c < 256
  }

  // A shown instruction is read back, unless it names a register the machine
  // does not have.
  lemma ShownWordsRead(i: Instr)
    requires ByteOperands(i)
    ensures AreTokens(ShownWords(i))
    ensures Executable(i) ==> ParseWords(ShownWords(i)) == Success(Canonical(i))
    ensures !Executable(i) ==> ParseWords(ShownWords(i)).Failure? && ParseWords(ShownWords(i)).error.RegisterOutOfRange?
  {
    hide ShownRegister, ShownHex, ParseRegister, ParseNumber, IsToken, OpName, Upper, Named;
    NameReads(i.op);
    UpperName(i.op);
    NameIsToken(i.op);
    RegisterReads(i.a);
    RegisterReads(i.b);
    RegisterReads(i.c);
    ShownHexReads(i.a);
    ShownHexReads(i.b);
  }

  // ---------- lines ----------

  lemma {:induction false} JoinIsHarmless(words: seq<string>)
    requires AreTokens(words)
    ensures '%' !in Join(words) && ';' !in Join(words) && '\n' !in Join(words) && '\r' !in Join(words)
    decreases |words|
  {
    var w := words[0];
    assert IsToken(w);
    assert forall c: char | c in w :: Harmless(c);
    if |words| > 1 {
      JoinIsHarmless(words[1..]);
    }
  }

  lemma TokensJoin(words: seq<string>)
    requires AreTokens(words)
    ensures Words(Join(words)) == words && Join(words) != ""
    ensures !IsSpace(Join(words)[0]) && !IsSpace(Join(words)[|Join(words)| - 1])
  {
    hide IsSpace;
    forall i | 0 <= i < |words|
      ensures IsWord(words[i])
    {
      TokenTrims(words[i]);
    }
    WordsOfJoin(words);
  }

  lemma {:induction false} HexRunAt(digits: string, rest: string)
    requires forall i | 0 <= i < |digits| :: DigitOf(digits[i]) < 16
    requires rest != "" && DigitOf(rest[0]) == 16
    ensures HexRun(digits + rest) == |digits|
    decreases |digits|
  {
    if digits == "" {
      assert digits + rest == rest;
    } else {
      assert (digits + rest)[1..] == digits[1..] + rest;
      HexRunAt(digits[1..], rest);
    }
  }

  function Prefix(address: nat): string {
    "0x" + Padded(address, 16, 4) + ":  "
  }

  lemma ColonIsNoDigit()
    ensures DigitOf(':') == 16
  {
  }

  // The address in front of an instruction is skipped.
  lemma AddressSkipped(address: nat, body: string)
    requires body != "" && !IsSpace(body[0]) && !IsSpace(body[|body| - 1])
    ensures Unaddressed(Prefix(address) + body) == body
  {
    hide IsSpace, Padded, Trim;
    PaddedRoundTrip(address, 16, 4);
    ColonIsNoDigit();
    var digits := Padded(address, 16, 4);
    var line := Prefix(address) + body;
    assert line[2..] == digits + (":  " + body);
    HexRunAt(digits, ":  " + body);
    assert line[3 + |digits|..] == seq(2, _ => ' ') + body;
    TwoSpaces(body);
  }

  lemma TwoSpaces(body: string)
    requires body != "" && !IsSpace(body[0]) && !IsSpace(body[|body| - 1])
    ensures Trim(seq(2, _ => ' ') + body) == body
  {
    TrimPadded(body, 2);
    TrimBoth(body);
  }

  lemma PrefixIsHarmless(address: nat)
    ensures var s := Prefix(address); s[0] == '0' && '%' !in s && ';' !in s && '\n' !in s && '\r' !in s
  {
    hide Padded, IsSpace;
    PaddedRoundTrip(address, 16, 4);
    var digits := Padded(address, 16, 4);
    assert forall c: char | c in digits :: Harmless(c);
  }

  // Comments and trailing blanks do not matter.
  lemma CommentDropped(body: string, comment: string)
    requires body != "" && !IsSpace(body[0]) && !IsSpace(body[|body| - 1]) && '%' !in body && ';' !in body
    ensures CleanLine(body + Comment(comment)) == body
  {
    hide IsSpace, Trim;
    if comment == "" {
      assert body + "" == body;
      CutFree(body, '%');
      CutFree(body, ';');
      TrimBoth(body);
    } else {
      var blanks := seq(10, _ => ' ');
      assert body + Comment(comment) == (body + blanks) + ['%'] + (" " + comment);
      CutAt(body + blanks, '%', " " + comment);
      CutFree(body + blanks, ';');
      TrimPadded(body, 10);
    }
  }

  // A line of the listing without its line end.
  function Body(i: Raw, address: nat): string {
    Prefix(address) + Join(Tokens(i.op, Operand(i.x), Operand(i.y), Operand(i.z))) + Comment(i.comment)
  }

  lemma LineReads(i: Raw, address: nat)
    requires Encodable(i)
    ensures ParseLine(Body(i, address)) == Success([Read(i.op, Operand(i.x), Operand(i.y), Operand(i.z))])
  {
    hide IsSpace, Trim, Cut, Comment, Tokens, ParseWords, Read, Words, Join, Unaddressed, CleanLine;
    var words := Tokens(i.op, Operand(i.x), Operand(i.y), Operand(i.z));
    var body := Join(words);
    TokensRead(i);
    TokensJoin(words);
    JoinIsHarmless(words);
    PrefixIsHarmless(address);
    ZeroX();
    var line := Prefix(address) + body;
    assert line[|line| - 1] == body[|body| - 1];
    CommentDropped(line, i.comment);
    AddressSkipped(address, body);
  }

  // No line end inside a comment.
  predicate OneLine(s: string) {
    '\n' !in s && '\r' !in s
  }

  lemma LineEnds(i: Raw, address: nat, rest: string)
    requires Encodable(i) && OneLine(i.comment)
    ensures Lines(LineOf(i, address) + rest) == [Body(i, address)] + Lines(rest)
  {
    hide IsSpace, Tokens, Join;
    var words := Tokens(i.op, Operand(i.x), Operand(i.y), Operand(i.z));
    TokensRead(i);
    JoinIsHarmless(words);
    PrefixIsHarmless(address);
    LinesCons(Body(i, address), rest);
    assert LineOf(i, address) + rest == Body(i, address) + "\n" + rest;
  }

  predicate AllEncodable(code: seq<Raw>) {
    forall k | 0 <= k < |code| :: Encodable(code[k]) && OneLine(code[k].comment)
  }

  function ReadAll(code: seq<Raw>): Image {
    seq(|code|, k requires 0 <= k < |code| => Read(code[k].op, Operand(code[k].x), Operand(code[k].y),
      Operand(code[k].z)))
  }

  // The printed program is read back instruction by instruction.
  lemma {:induction false} ListingReads(code: seq<Raw>, address: nat)
    requires AllEncodable(code)
    ensures ParseLines(Lines(Text(code, address))) == Success(ReadAll(code))
    decreases |code|
  {
    hide ParseLine, Lines, LineOf, Body, Encodable, Read;
    if code == [] {
      BlankEnd();
    } else {
      var rest := code[1..];
      ListingReads(rest, address + 1);
      LineEnds(code[0], address, Text(rest, address + 1));
      LineReads(code[0], address);
      var lines := [Body(code[0], address)] + Lines(Text(rest, address + 1));
      assert lines[1..] == Lines(Text(rest, address + 1));
      assert ReadAll(code) == [ReadAll(code)[0]] + ReadAll(rest);
    }
  }

  // What follows the last line end is blank.
  lemma BlankEnd()
    ensures ParseLines(Lines("")) == Success([])
  {
    assert Lines("") == [""];
    assert ParseLine("") == Success([]);
    assert [""][1..] == [] && ParseLines([]) == Success([]);
    var none: Image := [];
    assert none + none == none;
  }

  // ---------- binary ----------

  lemma DecodedByte(op: Op)
    ensures Decoded(OpByte(op)) == Some(op)
  {
  }

  function DecodedInstr(i: Raw): Instr {
    DecodeOperands(i.op, Byte(Operand(i.x)), Byte(Operand(i.y)), Byte(Operand(i.z)))
  }

  function DecodedCode(code: seq<Raw>): Image {
    seq(|code|, k requires 0 <= k < |code| => DecodedInstr(code[k]))
  }

  lemma WordReads(i: Raw)
    ensures var w := Bytes(i); |w| == 4 && DecodeWord(w[0], w[1], w[2], w[3]) == Success(DecodedInstr(i))
  {
    hide OpByte, Decoded, DecodeOperands;
    DecodedByte(i.op);
  }

  // The binary program decodes to what the machine runs.
  lemma {:induction false} BinaryReads(code: seq<Raw>)
    ensures |Packed(code)| == 4 * |code| && DecodeAll(Packed(code)) == Success(DecodedCode(code))
    decreases |code|
  {
    hide DecodeWord, Bytes, DecodedInstr;
    if code != [] {
      var rest := code[1..];
      BinaryReads(rest);
      WordReads(code[0]);
      var word := Bytes(code[0]);
      var bytes := Packed(code);
      assert bytes == word + Packed(rest);
      assert bytes[4..] == Packed(rest);
      assert DecodedCode(code) == [DecodedInstr(code[0])] + DecodedCode(rest);
    } else {
      assert DecodedCode(code) == [];
    }
  }

  // What the machine loads is the binary form of the resolved program.
  lemma AssembledIsDecoded(code: seq<Raw>)
    ensures AssembleAll(code) == DecodedCode(ResolveAll(code))
  {
    hide Resolve, DecodeOperands;
  }

  // ---------- the two outputs ----------

  // The same operation on the same registers, with immediates equal as bytes.
  predicate Alike(s: Instr, t: Instr) {
    s.op == t.op &&
    match s.op
    case NOP => true
    case AFC | LOAD | JF => s.a == t.a && Byte(s.b) == Byte(t.b)
    case STR => Byte(s.a) == Byte(t.a) && s.b == t.b
    case J => Byte(s.a) == Byte(t.a)
    case JI | PRI => s.a == t.a
    case COP | NOT | BNOT | LDI | STI => s.a == t.a && s.b == t.b
    case _ => s.a == t.a && s.b == t.b && s.c == t.c
  }

  lemma AlikeSteps(s: Instr, t: Instr, m: State)
    requires Alike(s, t) && Executable(s)
    ensures Executable(t) && Effect(s, m) == Effect(t, m)
  {
    hide SetReg, SetMem, Alu, Byte;
  }

  lemma ByteOfRegister(r: int)
    requires IsRegister(r)
    ensures Byte(r) == r
  {
  }

  lemma ByteOfByte(v: int)
    ensures Byte(Byte(v)) == Byte(v)
  {
  }

  lemma ReadAlike(i: Raw)
    requires Encodable(i)
    ensures var text := Read(i.op, Operand(i.x), Operand(i.y), Operand(i.z));
      Executable(text) && Alike(text, DecodedInstr(i))
  {
    hide Printable, Byte, Operand;
    var (x, y, z) := (Operand(i.x), Operand(i.y), Operand(i.z));
    ByteOfByte(x);
    ByteOfByte(y);
    ByteOfByte(z);
    if IsRegister(x) {
      ByteOfRegister(x);
    }
    if IsRegister(y) {
      ByteOfRegister(y);
    }
    if IsRegister(z) {
      ByteOfRegister(z);
    }
  }

  lemma SameInstruction(i: Raw, m: State)
    requires Encodable(i)
    ensures var text := Read(i.op, Operand(i.x), Operand(i.y), Operand(i.z));
      Executable(text) && Executable(DecodedInstr(i)) && Effect(text, m) == Effect(DecodedInstr(i), m)
  {
    hide Effect, Read, Executable, Alike, DecodedInstr;
    ReadAlike(i);
    AlikeSteps(Read(i.op, Operand(i.x), Operand(i.y), Operand(i.z)), DecodedInstr(i), m);
  }

  // Text and binary denote the same program: each loads, and from every state
  // one step of either is the same.
  lemma OutputsAgree(code: seq<Raw>, m: State)
    requires AllEncodable(code)
    ensures ParseLines(Lines(Text(code, 0))).Success? && |Packed(code)| % 4 == 0 && DecodeAll(Packed(code)).Success?
    ensures Step(ParseLines(Lines(Text(code, 0))).value, m) == Step(DecodeAll(Packed(code)).value, m)
  {
    hide Text, Packed, Lines, ParseLines, DecodeAll, Effect, Executable, Read, DecodedInstr, Encodable;
    ListingReads(code, 0);
    BinaryReads(code);
    if m.pc < |code| {
      SameInstruction(code[m.pc], m);
    }
  }

  // ---------- what the web interface shows ----------

  lemma ShownLineReads(i: Instr)
    requires ByteOperands(i)
    ensures Executable(i) ==> ParseLine(Format(i)) == Success([Canonical(i)])
    ensures !Executable(i) ==> ParseLine(Format(i)).Failure? && ParseLine(Format(i)).error.RegisterOutOfRange?
  {
    hide IsSpace, Trim, Cut, ShownRegister, ShownHex, Canonical, ParseWords, Words, CleanLine, Executable, OpName;
    var words := ShownWords(i);
    ShownWordsRead(i);
    TokensJoin(words);
    JoinIsHarmless(words);
    NameIsToken(i.op);
    var line := Join(words);
    assert line + Comment("") == line;
    CommentDropped(line, "");
    assert line[0] == OpName(i.op)[0];
    assert Unaddressed(line) == line;
  }

  function FormatAll(p: Image): seq<string> {
    seq(|p|, k requires 0 <= k < |p| => Format(p[k]))
  }

  function CanonicalAll(p: Image): Image {
    seq(|p|, k requires 0 <= k < |p| => Canonical(p[k]))
  }

  // A decoded program is read back from what is shown for it exactly when every
  // register it names exists.
  lemma {:induction false} ShownProgramReads(p: Image)
    requires forall k | 0 <= k < |p| :: ByteOperands(p[k])
    ensures ParseLines(FormatAll(p)).Success? <==> forall k | 0 <= k < |p| :: Executable(p[k])
    ensures ParseLines(FormatAll(p)).Success? ==> ParseLines(FormatAll(p)).value == CanonicalAll(p)
    decreases |p|
  {
    hide ParseLine, Format, Executable, Canonical, ByteOperands;
    if p == [] {
      assert FormatAll(p) == [] && CanonicalAll(p) == [];
    } else {
      ShownLineReads(p[0]);
      ShownProgramReads(p[1..]);
      assert FormatAll(p)[1..] == FormatAll(p[1..]);
      assert CanonicalAll(p) == [Canonical(p[0])] + CanonicalAll(p[1..]);
      assert forall k | 0 <= k < |p| - 1 :: p[1..][k] == p[k + 1];
      assert (forall k | 0 <= k < |p| :: Executable(p[k])) <==>
        Executable(p[0]) && forall k | 0 <= k < |p| - 1 :: Executable(p[1..][k]);
    }
  }

  // Clearing the operands the machine ignores changes no step.
  lemma CanonicalSteps(p: Image, m: State)
    ensures Step(CanonicalAll(p), m) == Step(p, m)
  {
    hide Effect, Byte;
    if m.pc < |p| {
      var i := p[m.pc];
      assert Executable(Canonical(i)) == Executable(i);
      if Executable(i) {
        AlikeSteps(i, Canonical(i), m);
      }
    }
  }

  // Everything decodeBinary accepts has byte operands.
  lemma {:induction false} DecodedAreBytes(bytes: seq<byte>)
    requires |bytes| % 4 == 0 && DecodeAll(bytes).Success?
    ensures var p := DecodeAll(bytes).value; forall k | 0 <= k < |p| :: ByteOperands(p[k])
    decreases |bytes|
  {
    hide Decoded;
    if bytes != [] {
      DecodedAreBytes(bytes[4..]);
    }
  }
}
