// A small program followed from its tree to the two files, byte for byte.
module Sample {
  import opened Wrappers
  import opened Machine
  import opened Instructions
  import opened Strings
  import opened Listing
  import opened Codegen
  import opened Caching

  // let g = 5; main { print(g); print(g); } in the order of its instructions;
  // the second print finds the global in r1.
  function SampleCode(): seq<Raw> {
    [Plain(AFC, 1, 5, 0), Plain(STR, 0, 1, 0), Raw(J, Value(0), Value(3), Value(0), false, ""),
     Plain(NOP, 0, 0, 0).(comment := "main"), Plain(AFC, 13, 255, 0), Plain(COP, 14, 13, 0),
     Plain(LOAD, 1, 0, 0), Plain(PRI, 0, 1, 0), Plain(PRI, 0, 1, 0)]
  }

  lemma SampleCompiles()
    ensures CompileProgram(Repeating(5, 2), true).Success?
    ensures ResolveAll(CompileProgram(Repeating(5, 2), true).value.code) == SampleCode()
  {
    hide CompileProgram, Repeating, PrintCode, Loads;
    RepeatedReads(5, 2, true);
    TwoPrints();
  }

  lemma TwoPrints()
    ensures PrintCode(Cells(2), None, true) == [Plain(LOAD, 1, 0, 0), Plain(PRI, 0, 1, 0), Plain(PRI, 0, 1, 0)]
  {
    assert Cells(2)[1..] == [0] && [0][1..] == [];
    assert PrintCode([], Some(0), true) == [];
    assert PrintCode([0], Some(0), true) == [Plain(PRI, 0, 1, 0)];
  }

  lemma Digits()
    ensures Padded(0, 16, 4) == "0000" && Padded(1, 16, 4) == "0001" && Padded(2, 16, 4) == "0002"
    ensures Padded(3, 16, 4) == "0003" && Padded(4, 16, 4) == "0004" && Padded(5, 16, 4) == "0005"
    ensures Padded(6, 16, 4) == "0006" && Padded(7, 16, 4) == "0007" && Padded(8, 16, 4) == "0008"
    ensures Hex(0) == "0x0" && Hex(3) == "0x3" && Hex(5) == "0x5" && Hex(255) == "0xFF"
    ensures Numeral(1, 10) == "1"
  {
    assert Zeros(3) == "000";
    assert Numeral(255, 16) == Numeral(15, 16) + [DigitChar(15)] == "FF";
  }

  // The ten blanks in front of a comment.
  lemma Blanks()
    ensures Comment("main") == "          % main" && Comment("") == ""
  {
    assert seq(10, _ => ' ') == "          ";
  }

  lemma Line0()
    ensures LineOf(Plain(AFC, 1, 5, 0), 0) == "0x0000:  AFC r1 0x5\n"
  {
    hide Padded, Hex, Comment, Numeral;
    Digits();
    Blanks();
  }

  lemma Line1()
    ensures LineOf(Plain(STR, 0, 1, 0), 1) == "0x0001:  STR 0x0 r1\n"
  {
    hide Padded, Hex, Comment, Numeral;
    Digits();
    Blanks();
  }

  lemma Line2()
    ensures LineOf(Raw(J, Value(0), Value(3), Value(0), false, ""), 2) == "0x0002:  J 0x3\n"
  {
    hide Padded, Hex, Comment, Numeral;
    Digits();
    Blanks();
  }

  lemma Line3()
    ensures LineOf(Plain(NOP, 0, 0, 0).(comment := "main"), 3) == "0x0003:  NOP          % main\n"
  {
    hide Padded, Hex, Comment, Numeral;
    Digits();
    Blanks();
  }

  lemma Line4()
    ensures LineOf(Plain(AFC, 13, 255, 0), 4) == "0x0004:  AFC sp 0xFF\n"
  {
    hide Padded, Hex, Comment, Numeral;
    Digits();
    Blanks();
  }

  lemma Line5()
    ensures LineOf(Plain(COP, 14, 13, 0), 5) == "0x0005:  COP fp sp\n"
  {
    hide Padded, Hex, Comment, Numeral;
    Digits();
    Blanks();
  }

  lemma Line6()
    ensures LineOf(Plain(LOAD, 1, 0, 0), 6) == "0x0006:  LOAD r1 0x0\n"
  {
    hide Padded, Hex, Comment, Numeral;
    Digits();
    Blanks();
  }

  lemma PrintLines()
    ensures LineOf(Plain(PRI, 0, 1, 0), 7) == "0x0007:  PRI r1\n"
    ensures LineOf(Plain(PRI, 0, 1, 0), 8) == "0x0008:  PRI r1\n"
  {
    hide Padded, Hex, Comment, Numeral;
    Digits();
    Blanks();
  }

  lemma TextFrom(code: seq<Raw>, k: nat)
    requires k < |code|
    ensures Text(code[k..], k) == LineOf(code[k], k) + Text(code[k + 1..], k + 1)
  {
    assert code[k..][1..] == code[k + 1..];
  }

  // The listing of the program, character for character.
  lemma SampleListing()
    ensures CompileProgram(Repeating(5, 2), true).Success?
    ensures Text(ResolveAll(CompileProgram(Repeating(5, 2), true).value.code), 0)
      == "0x0000:  AFC r1 0x5\n" + ("0x0001:  STR 0x0 r1\n" + ("0x0002:  J 0x3\n"
      + ("0x0003:  NOP          % main\n" + ("0x0004:  AFC sp 0xFF\n" + ("0x0005:  COP fp sp\n"
      + ("0x0006:  LOAD r1 0x0\n" + ("0x0007:  PRI r1\n" + "0x0008:  PRI r1\n")))))))
  {
    hide CompileProgram, Repeating, Text, LineOf, ResolveAll;
    SampleCompiles();
    var code := SampleCode();
    Line0();
    Line1();
    Line2();
    Line3();
    Line4();
    Line5();
    Line6();
    PrintLines();
    TextFrom(code, 0);
    TextFrom(code, 1);
    TextFrom(code, 2);
    TextFrom(code, 3);
    TextFrom(code, 4);
    TextFrom(code, 5);
    TextFrom(code, 6);
    TextFrom(code, 7);
    TextFrom(code, 8);
    assert code[0..] == code && code[9..] == [];
    EmptyText(9);
  }

  lemma EmptyText(k: nat)
    ensures Text([], k) == ""
  {
  }

  // And its bytes.
  lemma SampleBytes()
    ensures CompileProgram(Repeating(5, 2), true).Success?
    ensures Packed(ResolveAll(CompileProgram(Repeating(5, 2), true).value.code))
      == [0x01, 1, 5, 0] + ([0x0E, 0, 1, 0] + ([0x11, 0, 3, 0] + ([0x00, 0, 0, 0] + ([0x01, 13, 255, 0]
      + ([0x02, 14, 13, 0] + ([0x0D, 1, 0, 0] + ([0x1A, 0, 1, 0] + [0x1A, 0, 1, 0])))))))
  {
    hide CompileProgram, Repeating, Packed, Bytes, ResolveAll;
    SampleCompiles();
    var code := SampleCode();
    FirstBytes();
    LastBytes();
    PackedFrom(code, 0);
    PackedFrom(code, 1);
    PackedFrom(code, 2);
    PackedFrom(code, 3);
    PackedFrom(code, 4);
    PackedFrom(code, 5);
    PackedFrom(code, 6);
    PackedFrom(code, 7);
    PackedFrom(code, 8);
    assert code[0..] == code && code[9..] == [];
    NothingPacked();
  }

  lemma NothingPacked()
    ensures Packed([]) == []
  {
  }

  lemma PackedFrom(code: seq<Raw>, k: nat)
    requires k < |code|
    ensures Packed(code[k..]) == Bytes(code[k]) + Packed(code[k + 1..])
  {
    assert code[k..][1..] == code[k + 1..];
  }

  lemma FirstBytes()
    ensures var code := SampleCode();
      && Bytes(code[0]) == [0x01, 1, 5, 0] && Bytes(code[1]) == [0x0E, 0, 1, 0] && Bytes(code[2]) == [0x11, 0, 3, 0]
      && Bytes(code[3]) == [0x00, 0, 0, 0]
  {
  }

  lemma LastBytes()
    ensures var code := SampleCode();
      && Bytes(code[4]) == [0x01, 13, 255, 0] && Bytes(code[5]) == [0x02, 14, 13, 0]
      && Bytes(code[6]) == [0x0D, 1, 0, 0] && Bytes(code[7]) == [0x1A, 0, 1, 0] && code[8] == code[7]
  {
  }
}
