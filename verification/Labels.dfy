// The addresses and comments the listing shows.
module Labels {
  import opened Wrappers
  import opened Machine
  import opened RegisterTable
  import opened Instructions
  import opened Strings
  import opened Listing
  import opened Loader
  import opened Encodings
  import opened Syntax
  import opened Codegen
  import opened Shape
  import opened Linking
  import opened Correctness
  import opened FunctionSim
  import opened StatementSim

  // ---------- addresses ----------

  predicate UpperDigit(c: char) {
    '0' <= c <= '9' || 'A' <= c <= 'F'
  }

  // The line starts with 0x, upper-case hexadecimal digits that spell k, four
  // of them unless more are needed, and a colon.
  ghost predicate Labelled(line: string, k: nat) {
    exists digits: string, rest: string {:trigger "0x" + digits + ":" + rest} ::
      && line == "0x" + digits + ":" + rest
      && (forall i | 0 <= i < |digits| :: UpperDigit(digits[i]))
      && |digits| >= 4 && (|digits| > 4 ==> digits[0] != '0')
      && ValueOf(digits, 16) == k
  }

  lemma DigitIsUpper(d: nat)
    requires d < 16
    ensures UpperDigit(DigitChar(d)) && (DigitChar(d) == '0' <==> d == 0)
  {
  }

  lemma {:induction false} NumeralIsUpper(n: nat)
    ensures var s := Numeral(n, 16); s != "" && forall i | 0 <= i < |s| :: UpperDigit(s[i])
    ensures n > 0 ==> Numeral(n, 16)[0] != '0'
    decreases n
  {
    hide DigitChar, UpperDigit;
    DigitIsUpper(n % 16);
    if n >= 16 {
      NumeralIsUpper(n / 16);
    }
  }

  lemma ZeroIsUpper()
    ensures UpperDigit('0')
  {
  }

  lemma PrefixLabels(k: nat, rest: string)
    ensures Labelled(Prefix(k) + rest, k)
  {
    hide Numeral, ValueOf, UpperDigit, DigitOf;
    PaddedRoundTrip(k, 16, 4);
    NumeralIsUpper(k);
    ZeroIsUpper();
    if k == 0 {
      assert |Numeral(k, 16)| == 1 by { ZeroNumeral(); }
    }
    var digits := Padded(k, 16, 4);
    assert forall i | 0 <= i < |digits| :: UpperDigit(digits[i]);
    assert Prefix(k) + rest == "0x" + digits + ":" + ("  " + rest);
  }

  lemma ZeroNumeral()
    ensures |Numeral(0, 16)| == 1
  {
  }

  // The listing has one line for each instruction, in order, and a blank end.
  lemma {:induction false} LinesOfText(code: seq<Raw>, address: nat)
    requires AllEncodable(code)
    ensures var lines := Lines(Text(code, address));
      |lines| == |code| + 1 && forall k | 0 <= k < |code| :: lines[k] == Body(code[k], address + k)
    decreases |code|
  {
    hide LineOf, Body, Encodable;
    if code != [] {
      var rest := code[1..];
      LinesOfText(rest, address + 1);
      LineEnds(code[0], address, Text(rest, address + 1));
      var lines := Lines(Text(code, address));
      assert lines == [Body(code[0], address)] + Lines(Text(rest, address + 1));
      forall k | 0 <= k < |code|
        ensures lines[k] == Body(code[k], address + k)
      {
        if k > 0 {
          assert rest[k - 1] == code[k];
        }
      }
    }
  }

  // Every line carries the address of its instruction.
  lemma ListingAddresses(code: seq<Raw>, k: nat)
    requires AllEncodable(code) && k < |code|
    ensures |Lines(Text(code, 0))| == |code| + 1
    ensures Labelled(Lines(Text(code, 0))[k], k)
  {
    hide Lines, Text, Labelled, Prefix;
    LinesOfText(code, 0);
    var words := Tokens(code[k].op, Operand(code[k].x), Operand(code[k].y), Operand(code[k].z));
    PrefixLabels(k, Join(words) + Comment(code[k].comment));
    assert Body(code[k], k) == Prefix(k) + (Join(words) + Comment(code[k].comment));
  }

  // What a jump's line shows is the address on the line it leads to.
  lemma ShownTargets(code: seq<Raw>, k: nat, target: nat)
    requires AllEncodable(code) && k < |code| && target < |code|
    requires (code[k].op == J && Operand(code[k].y) == target) || (code[k].op == JF && Operand(code[k].z) == target)
    ensures var lines := Lines(Text(code, 0));
      && |lines| == |code| + 1 && Labelled(lines[target], target)
      && ParseLine(lines[k])
        == Success([if code[k].op == J then Instr(J, target, 0, 0) else Instr(JF, Operand(code[k].y), target, 0)])
  {
    hide Lines, Text, Labelled, ParseLine, Body;
    LinesOfText(code, 0);
    ListingAddresses(code, target);
    LineReads(code[k], k);
  }

  // ---------- comments ----------

  // A line without a comment has no percent sign; a comment is all that follows
  // the first one and a space.
  lemma ListingComments(code: seq<Raw>, k: nat)
    requires AllEncodable(code) && k < |code|
    ensures |Lines(Text(code, 0))| == |code| + 1
    ensures var line := Lines(Text(code, 0))[k];
      if code[k].comment == "" then '%' !in line
      else exists start: string :: '%' !in start && line == start + "% " + code[k].comment
  {
    hide Lines, Text, Prefix, Tokens, Join;
    LinesOfText(code, 0);
    TokensRead(code[k]);
    var words := Tokens(code[k].op, Operand(code[k].x), Operand(code[k].y), Operand(code[k].z));
    JoinIsHarmless(words);
    PrefixIsHarmless(k);
    var comment := code[k].comment;
    if comment != "" {
      var start := Prefix(k) + Join(words) + seq(10, _ => ' ');
      assert '%' !in start;
      assert Lines(Text(code, 0))[k] == start + "% " + comment;
    }
  }

  // Main's entry is a NOP that says "main", and the jump after the globals
  // leads there.
  lemma MainTitled(p: Program, caching: bool)
    requires Compiled(p, caching).Success?
    ensures var parts := Compiled(p, caching).value; var code := parts.end.code;
      && |parts.globals.code| < |parts.last.code| < |code|
      && code[|parts.last.code|].op == NOP && code[|parts.last.code|].comment == "main"
      && code[|parts.globals.code|].op == J
      && Resolve(code[|parts.globals.code|], |parts.globals.code|).y == Value(|parts.last.code|)
  {
    hide Globals, Functions, BlockOf, BeginMain;
    var parts := Compiled(p, caching).value;
    LastExtends(p, parts.first);
    MainKeeps(parts.last, |parts.globals.code|);
    EndExtends(p, parts);
    assert parts.last.code[|parts.globals.code|] == parts.first.code[|parts.globals.code|];
  }

  // The entry of every function is a NOP that carries its name, cut to the 127
  // characters the buffer holds.
  lemma EntriesTitled(p: Program, caching: bool, j: nat)
    requires Compiled(p, caching).Success? && j < |p.functions|
    ensures var parts := Compiled(p, caching).value; var code := parts.end.code;
      && Stage(p, parts.first, j).Success?
      && var at := |Stage(p, parts.first, j).value.code|;
      && at < |code| && code[at].op == NOP && code[at].comment <= p.functions[j].name
      && (code[at].comment == p.functions[j].name <==> |p.functions[j].name| <= 127)
      && (|p.functions[j].name| > 127 ==> |code[at].comment| == 127)
  {
    hide Globals, Functions, BlockOf, BeginMain, FunctionDefinition, Stage;
    var parts := Compiled(p, caching).value;
    var c0 := parts.first;
    assert p.functions[..|p.functions|] == p.functions;
    FullStage(p, c0);
    StagesExtend(p, c0, 0, j);
    StagesExtend(p, c0, j, j + 1);
    StagesExtend(p, c0, j + 1, |p.functions|);
    StageNext(p, c0, j);
    NoStage(p, c0);
    TitledEntry(p.functions[j], Stage(p, c0, j).value);
    var at := |Stage(p, c0, j).value.code|;
    MainKeeps(parts.last, |parts.globals.code|);
    EndExtends(p, parts);
    assert at > |parts.globals.code|;
  }

  lemma FullStage(p: Program, c0: Compiler)
    ensures Stage(p, c0, |p.functions|) == Functions(p.functions, c0)
  {
    assert p.functions[..|p.functions|] == p.functions;
  }

  lemma NoStage(p: Program, c0: Compiler)
    ensures Stage(p, c0, 0) == Success(c0)
  {
    assert p.functions[..0] == [];
  }

  lemma EndExtends(p: Program, parts: Parts)
    requires BlockOf(p.main, parts.main).Success? && BlockOf(p.main, parts.main).value.0 == parts.end
    requires parts.main.inside && parts.main.regs == INITIAL
    ensures Extends(parts.main, parts.end)
  {
    InitialUnbound();
    BlockShape(p.main, parts.main);
  }

  lemma TitledEntry(f: Function, c: Compiler)
    requires FunctionDefinition(f, c).Success?
    ensures var d := FunctionDefinition(f, c).value;
      |c.code| < |d.code| && d.code[|c.code|] == Plain(NOP, 0, 0, 0).(comment := Titled(f.name))
  {
    hide BlockOf, FunctionPrefix, ParameterLocals, EndFunction;
    BeginFunctionShape(c, f.name, f.parameters);
    FunctionSim.BeginUnfolds(c, f.name, f.parameters);
    var entered := EnterFunction(c, f.name, |f.parameters|);
    PrefixShape(entered);
    ParameterLocalsShape(FunctionPrefix(entered), f.parameters, 0);
    var c1 := BeginFunction(c, f.name, f.parameters).value;
    InitialUnbound();
    BlockShape(f.body, c1);
    EndFunctionShape(BlockOf(f.body, c1).value.0);
    hide BeginFunction;
  }
}
