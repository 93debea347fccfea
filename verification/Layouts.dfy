// Assembly text as it may be laid out: which words are which instruction, where
// white space, addresses, comments and line ends may be, and which error a text
// with a mistake gives.
module Layouts {
  import opened Wrappers
  import opened Machine
  import opened Instructions
  import opened Strings
  import opened Listing
  import opened Loader
  import opened Encodings
  import opened Acceptance

  // ---------- instructions ----------

  ghost predicate NumberAt(words: seq<string>, k: nat, v: int) {
    if k < |words| then SpellsNumber(words[k], v) else v == 0
  }

  ghost predicate RegisterAt(words: seq<string>, k: nat, r: int) {
    k < |words| && SpellsRegister(words[k], r)
  }

  // The words name the operation, in letters of either case, and spell its
  // operands in order; words past them are ignored.
  ghost predicate Spells(words: seq<string>, i: Instr)
    requires words != []
  {
    && Upper(words[0]) == OpName(i.op)
    && match i.op
       case NOP => i == Instr(i.op, 0, 0, 0)
       case J => NumberAt(words, 1, i.a) && i == Instr(i.op, i.a, 0, 0)
       case JI | PRI => RegisterAt(words, 1, i.a) && i == Instr(i.op, i.a, 0, 0)
       case AFC | LOAD | JF => RegisterAt(words, 1, i.a) && NumberAt(words, 2, i.b) && i.c == 0
       case STR => NumberAt(words, 1, i.a) && RegisterAt(words, 2, i.b) && i.c == 0
       case COP | NOT | BNOT | LDI | STI => RegisterAt(words, 1, i.a) && RegisterAt(words, 2, i.b) && i.c == 0
       case _ => RegisterAt(words, 1, i.a) && RegisterAt(words, 2, i.b) && RegisterAt(words, 3, i.c)
  }

  predicate AreWords(words: seq<string>) {
    words != [] && forall k | 0 <= k < |words| :: IsWord(words[k])
  }

  lemma NamedIs(name: string)
    requires Named(name).Some?
    ensures OpName(Named(name).value) == name
  {
    hide OpName;
    NamesOfCodes();
  }

  lemma NamesOfCodes()
    ensures OpName(NOP) == "NOP" && OpName(AFC) == "AFC" && OpName(COP) == "COP" && OpName(ADD) == "ADD"
    ensures OpName(MUL) == "MUL" && OpName(SOU) == "SOU" && OpName(DIV) == "DIV" && OpName(NOT) == "NOT"
    ensures OpName(AND) == "AND" && OpName(OR) == "OR" && OpName(BNOT) == "BNOT" && OpName(BAND) == "BAND"
    ensures OpName(BOR) == "BOR" && OpName(LOAD) == "LOAD" && OpName(STR) == "STR" && OpName(LDI) == "LDI"
    ensures OpName(STI) == "STI" && OpName(J) == "J" && OpName(JF) == "JF" && OpName(JI) == "JI"
    ensures OpName(LT) == "LT" && OpName(GT) == "GT" && OpName(EQ) == "EQ" && OpName(LEQ) == "LEQ"
    ensures OpName(GEQ) == "GEQ" && OpName(NEQ) == "NEQ" && OpName(PRI) == "PRI"
  {
    hide OpName;
    EarlyNames();
    MiddleNames();
    LateNames();
  }

  lemma EarlyNames()
    ensures OpName(NOP) == "NOP" && OpName(AFC) == "AFC" && OpName(COP) == "COP" && OpName(ADD) == "ADD"
    ensures OpName(MUL) == "MUL" && OpName(SOU) == "SOU" && OpName(DIV) == "DIV" && OpName(NOT) == "NOT"
  {
  }

  lemma MiddleNames()
    ensures OpName(AND) == "AND" && OpName(OR) == "OR" && OpName(BNOT) == "BNOT" && OpName(BAND) == "BAND"
    ensures OpName(BOR) == "BOR" && OpName(LOAD) == "LOAD" && OpName(STR) == "STR" && OpName(LDI) == "LDI"
    ensures OpName(STI) == "STI" && OpName(J) == "J" && OpName(JF) == "JF" && OpName(JI) == "JI"
  {
  }

  lemma LateNames()
    ensures OpName(LT) == "LT" && OpName(GT) == "GT" && OpName(EQ) == "EQ" && OpName(LEQ) == "LEQ"
    ensures OpName(GEQ) == "GEQ" && OpName(NEQ) == "NEQ" && OpName(PRI) == "PRI"
  {
  }

  lemma OperandsAt(words: seq<string>, k: nat, v: int)
    requires AreWords(words)
    ensures ParseNumber(Part(words, k)) == Success(v) <==> NumberAt(words, k, v)
    ensures ParseRegister(Part(words, k)) == Success(v) <==> RegisterAt(words, k, v)
  {
    hide SpellsNumber, SpellsRegister, ParseNumber, ParseRegister;
    MissingRegisters();
    if k < |words| {
      NumbersAccepted(words[k], v);
      RegistersAccepted(words[k], v);
    } else {
      NumbersAccepted("0", v) by { TokenTrims("0") by { ZeroX(); } }
    }
  }

  lemma AllOperands(words: seq<string>, i: Instr)
    requires AreWords(words)
    ensures ParseNumber(Part(words, 1)) == Success(i.a) <==> NumberAt(words, 1, i.a)
    ensures ParseNumber(Part(words, 2)) == Success(i.b) <==> NumberAt(words, 2, i.b)
    ensures ParseRegister(Part(words, 1)) == Success(i.a) <==> RegisterAt(words, 1, i.a)
    ensures ParseRegister(Part(words, 2)) == Success(i.b) <==> RegisterAt(words, 2, i.b)
    ensures ParseRegister(Part(words, 3)) == Success(i.c) <==> RegisterAt(words, 3, i.c)
  {
    hide ParseNumber, ParseRegister, NumberAt, RegisterAt, Part;
    OperandsAt(words, 1, i.a);
    OperandsAt(words, 2, i.b);
    OperandsAt(words, 3, i.c);
  }

  // The words are read as an instruction exactly when they spell it.
  lemma InstructionsAccepted(words: seq<string>, i: Instr)
    requires AreWords(words)
    ensures ParseWords(words) == Success(i) <==> Spells(words, i)
  {
    hide Spells, ParseWords;
    if Spells(words, i) {
      SpelledIsRead(words, i);
    }
    if ParseWords(words) == Success(i) {
      ReadIsSpelled(words, i);
    }
  }

  lemma SpelledIsRead(words: seq<string>, i: Instr)
    requires AreWords(words) && Spells(words, i)
    ensures ParseWords(words) == Success(i)
  {
    hide ParseNumber, ParseRegister, NumberAt, RegisterAt, Named, OpName, Upper, Part, IsWord;
    NameReads(i.op);
    AllOperands(words, i);
  }

  lemma ReadIsSpelled(words: seq<string>, i: Instr)
    requires AreWords(words) && ParseWords(words) == Success(i)
    ensures Spells(words, i)
  {
    hide ParseNumber, ParseRegister, NumberAt, RegisterAt, Named, OpName, Upper, Part, IsWord;
    NamedIs(Upper(words[0]));
    AllOperands(words, i);
  }

  // ---------- white space ----------

  predicate Blank(s: string) {
    forall k | 0 <= k < |s| :: IsSpace(s[k])
  }

  // Starts and ends with visible characters.
  predicate Solid(s: string) {
    s != "" && !IsSpace(s[0]) && !IsSpace(s[|s| - 1])
  }

  lemma {:induction false} TrimStartBlank(b: string, s: string)
    requires Blank(b) && (s == "" || !IsSpace(s[0]))
    ensures TrimStart(b + s) == s
    decreases |b|
  {
    hide IsSpace;
    if b == "" {
      assert b + s == s;
    } else {
      assert (b + s)[1..] == b[1..] + s;
      TrimStartBlank(b[1..], s);
    }
  }

  lemma {:induction false} TrimEndBlank(s: string, b: string)
    requires Blank(b) && (s == "" || !IsSpace(s[|s| - 1]))
    ensures TrimEnd(s + b) == s
    decreases |b|
  {
    hide IsSpace;
    if b == "" {
      assert s + b == s;
    } else {
      var most := b[..|b| - 1];
      assert (s + b)[..|s + b| - 1] == s + most;
      assert (s + b)[|s + b| - 1] == b[|b| - 1];
      TrimEndBlank(s, most);
    }
  }

  lemma TrimBlanks(b: string, s: string, e: string)
    requires Blank(b) && Blank(e) && Solid(s)
    ensures Trim(b + s + e) == s
  {
    hide IsSpace, TrimStart, TrimEnd;
    assert b + s + e == b + (s + e);
    TrimStartBlank(b, s + e);
    TrimEndBlank(s, e);
  }

  // The words with a gap between each two.
  function Spread(words: seq<string>, gaps: seq<string>): string
    requires |words| == |gaps| + 1
  {
    if gaps == [] then words[0] else words[0] + gaps[0] + Spread(words[1..], gaps[1..])
  }

  predicate AreGaps(gaps: seq<string>) {
    forall k | 0 <= k < |gaps| :: gaps[k] != "" && Blank(gaps[k])
  }

  // Splitting at white space gives the words back, whatever the gaps.
  lemma {:induction false} WordsOfSpread(words: seq<string>, gaps: seq<string>)
    requires |words| == |gaps| + 1 && AreWords(words) && AreGaps(gaps)
    ensures Words(Spread(words, gaps)) == words && Solid(Spread(words, gaps))
    decreases |words|
  {
    hide IsSpace, Words;
    var w := words[0];
    assert IsWord(w);
    if gaps == [] {
      SingleWord(w);
      assert words == [w];
    } else {
      var rest := Spread(words[1..], gaps[1..]);
      WordsOfSpread(words[1..], gaps[1..]);
      assert gaps[0] != "" && Blank(gaps[0]);
      WordThen(w, gaps[0], rest);
      assert [w] + words[1..] == words;
    }
  }

  lemma WordThen(w: string, gap: string, rest: string)
    requires IsWord(w) && gap != "" && Blank(gap) && Solid(rest)
    ensures Words(w + gap + rest) == [w] + Words(rest)
    ensures Solid(w + gap + rest)
  {
    hide IsSpace;
    var s := w + gap + rest;
    assert s == w + (gap + rest);
    WordAt(w, gap + rest);
    assert s[|w| + 1..] == gap[1..] + rest;
    TrimStartBlank(gap[1..], rest);
  }

  // ---------- lines ----------

  // An address in front of an instruction: nothing, or 0x or 0X, hexadecimal
  // digits, a colon and white space.
  datatype Label = Bare | Address(capital: bool, digits: string, gap: string)

  predicate IsLabel(l: Label) {
    l.Address? ==> AreDigits(l.digits, 16) && Blank(l.gap)
  }

  function Shown(l: Label): string {
    match l
    case Bare => ""
    case Address(capital, digits, gap) => (if capital then "0X" else "0x") + digits + ":" + gap
  }

  predicate IsRemark(s: string) {
    s == "" || s[0] == '%' || s[0] == ';'
  }

  lemma {:induction false} CutPast(a: string, c: char, b: string)
    requires c !in a
    ensures Cut(a + b, c) == a + Cut(b, c)
    decreases |a|
  {
    if a == "" {
      assert a + b == b && a + Cut(b, c) == Cut(b, c);
    } else {
      assert (a + b)[1..] == a[1..] + b;
      CutPast(a[1..], c, b);
    }
  }

  // A comment of either kind is cut off.
  lemma RemarkCut(s: string, remark: string)
    requires '%' !in s && ';' !in s && IsRemark(remark)
    ensures Cut(Cut(s + remark, '%'), ';') == s
  {
    CutPast(s, '%', remark);
    CutPast(s, ';', Cut(remark, '%'));
    assert Cut(Cut(remark, '%'), ';') == "";
    assert s + "" == s;
  }

  predicate Unmarked(s: string) {
    '%' !in s && ';' !in s
  }

  lemma BlankIsUnmarked(s: string)
    requires Blank(s)
    ensures Unmarked(s) && ':' !in s
  {
    forall c: char | c in s
      ensures IsSpace(c)
    {
    }
  }

  lemma DigitsAreUnmarked(s: string)
    requires AreDigits(s, 16)
    ensures Unmarked(s)
  {
    forall c: char | c in s
      ensures DigitOf(c) < 16
    {
    }
  }

  lemma LabelIsUnmarked(l: Label)
    requires IsLabel(l)
    ensures Unmarked(Shown(l))
  {
    hide AreDigits, Blank;
    if l.Address? {
      DigitsAreUnmarked(l.digits);
      BlankIsUnmarked(l.gap);
    }
  }

  lemma {:induction false} SpreadIsUnmarked(words: seq<string>, gaps: seq<string>)
    requires |words| == |gaps| + 1 && AreTokens(words) && AreGaps(gaps)
    ensures Unmarked(Spread(words, gaps)) && ':' !in Spread(words, gaps)
    decreases |words|
  {
    hide Blank;
    assert IsToken(words[0]);
    assert forall c: char | c in words[0] :: Harmless(c);
    if gaps != [] {
      assert Blank(gaps[0]);
      BlankIsUnmarked(gaps[0]);
      SpreadIsUnmarked(words[1..], gaps[1..]);
    }
  }

  lemma AddressTaken(x: char, digits: string, rest: string)
    requires (x == 'x' || x == 'X') && AreDigits(digits, 16)
    ensures Unaddressed(['0', x] + digits + ":" + rest) == Trim(rest)
  {
    hide IsSpace, Trim, AreDigits, DigitOf;
    var line := ['0', x] + digits + ":" + rest;
    DigitValues(digits);
    ColonIsNoDigit();
    assert line[2..] == digits + (":" + rest);
    HexRunAt(digits, ":" + rest);
    assert line[3 + |digits|..] == rest;
  }

  // Taking off the label leaves the instruction.
  lemma LabelSkipped(l: Label, body: string)
    requires IsLabel(l) && Solid(body) && ':' !in body
    ensures Unaddressed(Shown(l) + body) == body
  {
    hide IsSpace, Trim, AreDigits, Blank, Solid;
    match l
    case Bare =>
      assert Shown(l) + body == body;
      assert forall k | 0 <= k < |body| :: body[k] != ':';
    case Address(capital, digits, gap) =>
      hide Unaddressed;
      var x := if capital then 'X' else 'x';
      AddressTaken(x, digits, gap + body);
      assert Shown(l) + body == ['0', x] + digits + ":" + (gap + body);
      BlankNothing();
      TrimBlanks(gap, body, "");
      assert gap + body + "" == gap + body;
  }

  lemma BlankNothing()
    ensures Blank("")
  {
  }

  lemma DigitValues(digits: string)
    requires AreDigits(digits, 16)
    ensures digits != "" && forall k | 0 <= k < |digits| :: DigitOf(digits[k]) < 16
  {
  }

  // An instruction line may be indented, carry an address, have any white space
  // between its words and end in white space and a comment of either kind.
  lemma LinesLaidOut(lead: string, l: Label, words: seq<string>, gaps: seq<string>, trail: string, remark: string)
    requires Blank(lead) && IsLabel(l) && AreTokens(words) && |words| == |gaps| + 1 && AreGaps(gaps)
    requires Blank(trail) && IsRemark(remark)
    ensures ParseLine(lead + (Shown(l) + Spread(words, gaps)) + trail + remark)
      == match ParseWords(words) case Success(i) => Success([i]) case Failure(e) => Failure(e)
  {
    hide IsSpace, Blank, IsToken, Trim, Cut, ParseWords, Words, Unaddressed, Shown;
    TokensAreWords(words);
    WordsOfSpread(words, gaps);
    SpreadIsUnmarked(words, gaps);
    LabelIsUnmarked(l);
    BlankIsUnmarked(lead);
    BlankIsUnmarked(trail);
    var core := Shown(l) + Spread(words, gaps);
    LabelledIsSolid(l, Spread(words, gaps));
    RemarkCut(lead + core + trail, remark);
    TrimBlanks(lead, core, trail);
    LabelSkipped(l, Spread(words, gaps));
  }

  lemma TokensAreWords(words: seq<string>)
    requires AreTokens(words)
    ensures AreWords(words)
  {
    hide IsToken, IsWord;
    forall k | 0 <= k < |words|
      ensures IsWord(words[k])
    {
      TokenTrims(words[k]);
    }
  }

  lemma LabelledIsSolid(l: Label, body: string)
    requires Solid(body)
    ensures Solid(Shown(l) + body)
  {
  }

  // Lines of white space and comments are passed over.
  lemma LinesPassedOver(lead: string, remark: string)
    requires Blank(lead) && IsRemark(remark)
    ensures ParseLine(lead + remark) == Success([])
  {
    hide IsSpace, Blank, Cut;
    BlankIsUnmarked(lead);
    RemarkCut(lead, remark);
    TrimStartBlank(lead, "");
    assert lead + "" == lead;
  }

  // ---------- texts ----------

  // Lines with a line end of either kind between each two.
  function Ended(lines: seq<string>, ends: seq<bool>): string
    requires |lines| == |ends| + 1
  {
    if ends == [] then lines[0] else lines[0] + (if ends[0] then "\r\n" else "\n") + Ended(lines[1..], ends[1..])
  }

  lemma {:induction false} LinesCarriage(line: string, rest: string)
    requires OneLine(line)
    ensures Lines(line + "\r\n" + rest) == [line] + Lines(rest)
    decreases |line|
  {
    var s := line + "\r\n" + rest;
    if line == "" {
      assert s[2..] == rest;
    } else {
      assert s[1..] == line[1..] + "\r\n" + rest;
      LinesCarriage(line[1..], rest);
      assert [line[0]] + line[1..] == line;
    }
  }

  lemma {:induction false} LastLine(line: string)
    requires OneLine(line)
    ensures Lines(line) == [line]
    decreases |line|
  {
    if line != "" {
      LastLine(line[1..]);
      assert [line[0]] + line[1..] == line;
    }
  }

  // A text comes apart into its lines, whatever their ends.
  lemma {:induction false} LinesOfEnded(lines: seq<string>, ends: seq<bool>)
    requires |lines| == |ends| + 1 && forall k | 0 <= k < |lines| :: OneLine(lines[k])
    ensures Lines(Ended(lines, ends)) == lines
    decreases |lines|
  {
    hide Lines, OneLine;
    if ends == [] {
      LastLine(lines[0]);
      assert lines == [lines[0]];
    } else {
      LinesOfEnded(lines[1..], ends[1..]);
      if ends[0] {
        LinesCarriage(lines[0], Ended(lines[1..], ends[1..]));
      } else {
        LinesCons(lines[0], Ended(lines[1..], ends[1..])) by { OneLineMeans(lines[0]); }
      }
      assert [lines[0]] + lines[1..] == lines;
    }
  }

  lemma OneLineMeans(s: string)
    requires OneLine(s)
    ensures '\n' !in s && '\r' !in s
  {
  }

  // What the lines hold, one after the other.
  function Flat(lines: seq<string>): Image
    requires forall k | 0 <= k < |lines| :: ParseLine(lines[k]).Success?
  {
    if lines == [] then [] else ParseLine(lines[0]).value + Flat(lines[1..])
  }

  // The first line with a mistake.
  ghost predicate FirstMistake(lines: seq<string>, k: nat, e: LoadError) {
    k < |lines| && ParseLine(lines[k]) == Failure(e) && forall i | 0 <= i < k :: ParseLine(lines[i]).Success?
  }

  // A text loads exactly when each of its lines does; if not, the error is that
  // of the first line with a mistake.
  lemma {:induction false} TextsAccepted(lines: seq<string>, e: LoadError)
    ensures ParseLines(lines).Success? <==> forall k | 0 <= k < |lines| :: ParseLine(lines[k]).Success?
    ensures ParseLines(lines).Success? ==> ParseLines(lines).value == Flat(lines)
    ensures ParseLines(lines) == Failure(e) <==> exists k :: FirstMistake(lines, k, e)
    decreases |lines|
  {
    hide ParseLine;
    if lines != [] {
      var rest := lines[1..];
      TextsAccepted(rest, e);
      assert forall k | 0 < k < |lines| :: lines[k] == rest[k - 1];
      if ParseLine(lines[0]).Failure? {
        if ParseLine(lines[0]) == Failure(e) {
          assert FirstMistake(lines, 0, e);
        }
      } else {
        if k: nat :| FirstMistake(rest, k, e) {
          assert FirstMistake(lines, k + 1, e);
        }
        if k: nat :| FirstMistake(lines, k, e) {
          assert FirstMistake(rest, k - 1, e);
        }
      }
    }
  }

  // ---------- bases ----------

  function Spelled(v: int, hex: bool): Spelling {
    Spelling(false, v < 0, hex, false, Numeral(if v < 0 then 0 - v else v, if hex then 16 else 10))
  }

  function NumberWord(v: int, hex: bool): string {
    Written(Spelled(v, hex))
  }

  lemma NumberWordSpells(v: int, hex: bool)
    ensures SpellsNumber(NumberWord(v, hex), v) && IsToken(NumberWord(v, hex))
  {
    hide Numeral, Harmless, AreDigits, ValueOf;
    var n := Spelled(v, hex);
    NumeralRoundTrip(if v < 0 then 0 - v else v, if hex then 16 else 10);
    assert Proper(n) && Meant(n) == v;
    HarmlessMarks();
    assert Written(n) == (if v < 0 then "-" else "") + ((if hex then "0x" else "") + n.digits);
    assert n.digits != "" by { Nonempty(n); }
  }

  lemma HarmlessMarks()
    ensures Harmless('-') && Harmless('0') && Harmless('x')
  {
  }

  // The words of an instruction with its immediates in base 16 or in base 10.
  function InstrWords(i: Instr, hex: bool): (words: seq<string>)
    ensures words != []
  {
    var name := OpName(i.op);
    match i.op
    case NOP => [name]
    case J => [name, NumberWord(i.a, hex)]
    case JI | PRI => [name, RegisterName(i.a)]
    case AFC | LOAD | JF => [name, RegisterName(i.a), NumberWord(i.b, hex)]
    case STR => [name, NumberWord(i.a, hex), RegisterName(i.b)]
    case COP | NOT | BNOT | LDI | STI => [name, RegisterName(i.a), RegisterName(i.b)]
    case _ => [name, RegisterName(i.a), RegisterName(i.b), RegisterName(i.c)]
  }

  lemma RegisterWord(r: int)
    requires IsRegister(r)
    ensures SpellsRegister(RegisterName(r), r) && IsToken(RegisterName(r))
  {
    hide SpellsRegister, RegisterName, IsToken, ParseRegister;
    PrintedRegister(r);
    TokenTrims(RegisterName(r));
    RegistersAccepted(RegisterName(r), r);
  }

  lemma InstrWordsSpell(i: Instr, hex: bool)
    requires Executable(i)
    ensures AreTokens(InstrWords(i, hex)) && Spells(InstrWords(i, hex), Canonical(i))
  {
    hide SpellsRegister, SpellsNumber, RegisterName, NumberWord, IsToken, OpName, Upper;
    UpperName(i.op);
    NameIsToken(i.op);
    NumberWordSpells(i.a, hex);
    NumberWordSpells(i.b, hex);
    if IsRegister(i.a) {
      RegisterWord(i.a);
    }
    if IsRegister(i.b) {
      RegisterWord(i.b);
    }
    if IsRegister(i.c) {
      RegisterWord(i.c);
    }
  }

  lemma InstrLine(i: Instr, hex: bool)
    requires Executable(i)
    ensures ParseLine(Join(InstrWords(i, hex))) == Success([Canonical(i)])
  {
    hide AreTokens, Spells, ParseWords, Canonical, InstrWords, ParseLine, Executable, Join, Spread;
    var words := InstrWords(i, hex);
    InstrWordsSpell(i, hex);
    TokensAreWords(words);
    InstructionsAccepted(words, Canonical(i));
    JoinIsSpread(words);
    SingleSpaces(|words| - 1);
    BlankNothing();
    LinesLaidOut("", Bare, words, Spaces(|words| - 1), "", "");
    assert "" + (Shown(Bare) + Join(words)) + "" + "" == Join(words);
  }

  function Spaces(n: nat): (gaps: seq<string>)
    ensures |gaps| == n
  {
    seq(n, _ => " ")
  }

  lemma SingleSpaces(n: nat)
    ensures AreGaps(Spaces(n))
  {
  }

  lemma {:induction false} JoinIsSpread(words: seq<string>)
    requires words != []
    ensures Join(words) == Spread(words, Spaces(|words| - 1))
    decreases |words|
  {
    if |words| > 1 {
      JoinIsSpread(words[1..]);
      assert Spaces(|words| - 1)[1..] == Spaces(|words| - 2);
    }
  }

  function ProgramLines(p: Image, hex: bool): seq<string> {
    seq(|p|, k requires 0 <= k < |p| => Join(InstrWords(p[k], hex)))
  }

  // A program written with decimal immediates loads as the same program as with
  // hexadecimal ones, and both are the program written.
  lemma {:induction false} BasesAgree(p: Image, hex: bool)
    requires forall k | 0 <= k < |p| :: Executable(p[k])
    ensures ParseLines(ProgramLines(p, hex)) == Success(CanonicalAll(p))
    decreases |p|
  {
    hide ParseLine, Executable, Canonical, InstrWords, Join;
    if p == [] {
      assert ProgramLines(p, hex) == [] && CanonicalAll(p) == [];
    } else {
      InstrLine(p[0], hex);
      BasesAgree(p[1..], hex);
      assert ProgramLines(p, hex)[1..] == ProgramLines(p[1..], hex);
      assert CanonicalAll(p) == [Canonical(p[0])] + CanonicalAll(p[1..]);
    }
  }
}
