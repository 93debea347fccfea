// What the web interface's readers accept: every way to write a number, a
// register, an instruction, a line and a text, and what is refused.
module Acceptance {
  import opened Wrappers
  import opened Machine
  import opened Instructions
  import opened Strings
  import opened Listing
  import opened Loader
  import opened Encodings

  // ---------- numbers ----------

  // A number as it may be written: an optional @, an optional minus, and
  // digits in base 10, or in base 16 after 0x or 0X.
  datatype Spelling = Spelling(at: bool, minus: bool, hex: bool, upper: bool, digits: string)

  predicate Proper(n: Spelling) {
    AreDigits(n.digits, if n.hex then 16 else 10)
  }

  function Radix(n: Spelling): string {
    if !n.hex then "" else if n.upper then "0X" else "0x"
  }

  function Written(n: Spelling): string {
    (if n.at then "@" else "") + ((if n.minus then "-" else "") + (Radix(n) + n.digits))
  }

  function Meant(n: Spelling): int {
    var v := ValueOf(n.digits, if n.hex then 16 else 10);
    if n.minus then 0 - v else v
  }

  lemma DigitsAreVisible(s: string, base: nat)
    requires AreDigits(s, base) && base <= 16
    ensures Spaceless(s) && s[0] != '@' && s[0] != '-' && 'x' !in s && 'X' !in s
  {
    forall i | 0 <= i < |s|
      ensures !IsSpace(s[i])
    {
      assert DigitOf(s[i]) < 16;
    }
    assert DigitOf(s[0]) < 16;
    assert forall c: char | c in s :: DigitOf(c) < 16;
  }

  lemma MarksAreVisible()
    ensures !IsSpace('@') && !IsSpace('-') && !IsSpace('0') && !IsSpace('x') && !IsSpace('X')
    ensures DigitOf('x') == 16 && DigitOf('X') == 16
  {
  }

  lemma WrittenIsVisible(n: Spelling)
    requires Proper(n)
    ensures IsWord(Written(n)) && Trim(Written(n)) == Written(n)
  {
    hide IsSpace, AreDigits, Trim;
    assert AreDigits(n.digits, 16) || AreDigits(n.digits, 10);
    DigitsAreVisible(n.digits, if n.hex then 16 else 10);
    MarksAreVisible();
    assert n.digits != "" by { Nonempty(n); }
    assert Spaceless(Written(n));
    TrimBoth(Written(n));
  }

  lemma Nonempty(n: Spelling)
    requires Proper(n)
    ensures n.digits != ""
  {
  }

  // However it is written, the number is read as what it means.
  lemma NumberReads(n: Spelling)
    requires Proper(n)
    ensures ParseNumber(Some(Written(n))) == Success(Meant(n))
  {
    hide IsSpace, Trim, ValueOf, AreDigits, Radix;
    WrittenIsVisible(n);
    Stripped(n);
    BodyReads(n);
  }

  // Taking off the @ and the minus leaves the prefix and the digits.
  lemma Stripped(n: Spelling)
    requires Proper(n)
    ensures var text := Unprefixed(Written(n), '@'); var body := Unprefixed(text, '-');
      body == Radix(n) + n.digits && (body == text <==> !n.minus)
  {
    hide Radix;
    BodyStarts(n);
    var body := Radix(n) + n.digits;
    var signed := (if n.minus then "-" else "") + body;
    assert Unprefixed(Written(n), '@') == signed;
    assert Unprefixed(signed, '-') == body;
    assert n.minus ==> |signed| == |body| + 1;
  }

  lemma BodyStarts(n: Spelling)
    requires Proper(n)
    ensures var body := Radix(n) + n.digits; body != "" && body[0] != '@' && body[0] != '-'
  {
    DigitsAreVisible(n.digits, if n.hex then 16 else 10);
  }

  // The three tests of the body come out as its form says.
  lemma BodyReads(n: Spelling)
    requires Proper(n)
    ensures var body := Radix(n) + n.digits;
      && (n.hex ==> |body| > 2 && body[0] == '0' && (body[1] == 'x' || body[1] == 'X') && body[2..] == n.digits)
      && (!n.hex ==> body == n.digits && !(|body| > 2 && (body[1] == 'x' || body[1] == 'X')))
  {
    DigitsAreVisible(n.digits, if n.hex then 16 else 10);
  }

  // And nothing else is read as a number.
  lemma NumberIsWritten(s: string) returns (n: Spelling)
    requires IsWord(s) && ParseNumber(Some(s)).Success?
    ensures Proper(n) && Written(n) == s
  {
    hide AreDigits, ParseNumber, Unprefixed, IsSpace;
    var text := Unprefixed(s, '@');
    var body := Unprefixed(text, '-');
    OnlyNumbers(s);
    Unpacked(s, '@');
    Unpacked(text, '-');
    if IsHexadecimal(body) {
      n := Spelling(text != s, body != text, true, body[1] == 'X', body[2..]);
      assert body == [body[0], body[1]] + body[2..];
    } else {
      n := Spelling(text != s, body != text, false, false, body);
    }
    assert Radix(n) + n.digits == body;
  }

  predicate IsHexadecimal(body: string) {
    |body| > 2 && body[0] == '0' && (body[1] == 'x' || body[1] == 'X') && AreDigits(body[2..], 16)
  }

  lemma OnlyNumbers(s: string)
    requires IsWord(s) && ParseNumber(Some(s)).Success?
    ensures var body := Unprefixed(Unprefixed(s, '@'), '-'); IsHexadecimal(body) || AreDigits(body, 10)
  {
    hide IsSpace, Trim, AreDigits, ValueOf;
    TrimBoth(s);
  }

  lemma Unpacked(s: string, c: char)
    ensures s == (if Unprefixed(s, c) != s then [c] else "") + Unprefixed(s, c)
  {
  }

  ghost predicate SpellsNumber(s: string, v: int) {
    exists n :: Proper(n) && Written(n) == s && Meant(n) == v
  }

  // A word is read as a number exactly when it is written like one, and then
  // it is that number; a missing one is 0.
  lemma NumbersAccepted(s: string, v: int)
    requires IsWord(s)
    ensures ParseNumber(Some(s)) == Success(v) <==> SpellsNumber(s, v)
    ensures ParseNumber(Some(s)).Failure? ==> ParseNumber(Some(s)) == Failure(BadNumber(s))
    ensures ParseNumber(None) == Success(0)
  {
    hide ParseNumber, Proper, Written, Meant;
    if ParseNumber(Some(s)) == Success(v) {
      var n := NumberIsWritten(s);
      NumberReads(n);
    }
    if SpellsNumber(s, v) {
      var n :| Proper(n) && Written(n) == s && Meant(n) == v;
      NumberReads(n);
    }
    NumberErrors(s);
  }

  lemma NumberErrors(s: string)
    ensures ParseNumber(Some(s)).Failure? ==> ParseNumber(Some(s)) == Failure(BadNumber(s))
    ensures ParseNumber(None) == Success(0)
  {
  }

  lemma DigitCase(c: char)
    ensures DigitOf(LowerChar(c)) == DigitOf(c) == DigitOf(UpperChar(c))
  {
  }

  // Capital and small digits count alike.
  lemma {:induction false} CaseIsBlind(s: string)
    ensures ValueOf(Lower(s), 16) == ValueOf(s, 16) == ValueOf(Upper(s), 16)
    ensures AreDigits(Lower(s), 16) == AreDigits(s, 16) == AreDigits(Upper(s), 16)
    decreases |s|
  {
    hide DigitOf, LowerChar, UpperChar;
    forall i | 0 <= i < |s|
      ensures DigitOf(Lower(s)[i]) == DigitOf(s[i]) == DigitOf(Upper(s)[i])
    {
      DigitCase(s[i]);
    }
    if s != "" {
      var most := s[..|s| - 1];
      CaseIsBlind(most);
      assert Lower(s)[..|s| - 1] == Lower(most) && Upper(s)[..|s| - 1] == Upper(most);
    }
  }

  // ---------- registers ----------

  ghost predicate SpellsRegister(s: string, r: int) {
    || (r == 0 && s == "_")
    || (r == 13 && Lower(s) == "sp") || (r == 14 && Lower(s) == "fp") || (r == 15 && Lower(s) == "ra")
    || exists digits :: NumbersRegister(s, digits) && ValueOf(digits, 10) == r && r <= 15
  }

  // r or R and decimal digits
  predicate NumbersRegister(s: string, digits: string) {
    AreDigits(digits, 10) && (s == "r" + digits || s == "R" + digits)
  }

  lemma NumberedLower(s: string, digits: string)
    requires NumbersRegister(s, digits)
    ensures Lower(s) == "r" + digits && |s| > 1 && s[1] == digits[0] && DigitOf(s[1]) < 10
  {
    DigitsLower(digits);
    assert Lower(s)[1..] == Lower(digits);
  }

  lemma NumberedIs(s: string)
    requires s != "" && Lower(s)[0] == 'r' && AreDigits(Lower(s)[1..], 10)
    ensures NumbersRegister(s, s[1..]) && Lower(s)[1..] == s[1..]
  {
    var digits := s[1..];
    forall i | 0 <= i < |digits|
      ensures LowerChar(digits[i]) == digits[i] && DigitOf(digits[i]) < 10
    {
      assert Lower(s)[1..][i] == LowerChar(s[i + 1]);
      assert DigitOf(LowerChar(s[i + 1])) < 10;
      LowerDigit(s[i + 1]);
    }
    assert Lower(s)[1..] == digits;
    assert s == [s[0]] + digits;
    assert LowerChar(s[0]) == 'r';
  }

  lemma LowerDigit(c: char)
    requires DigitOf(LowerChar(c)) < 10
    ensures LowerChar(c) == c
  {
  }

  lemma UnderscoreLower(s: string)
    ensures Lower(s) == "_" <==> s == "_"
  {
    if Lower(s) == "_" {
      assert |s| == 1 && LowerChar(s[0]) == Lower(s)[0];
      assert s == [s[0]];
    }
  }

  predicate IsNumbered(text: string) {
    text != "" && text[0] == 'r' && AreDigits(text[1..], 10)
  }

  // Which words are numbered registers, told from their small letters.
  lemma NumberedWords(s: string)
    requires s != ""
    ensures IsNumbered(Lower(s)) <==> exists digits :: NumbersRegister(s, digits)
    ensures forall digits | NumbersRegister(s, digits) :: digits == Lower(s)[1..]
  {
    hide AreDigits;
    if IsNumbered(Lower(s)) {
      NumberedIs(s);
    }
    forall digits | NumbersRegister(s, digits)
      ensures Lower(s) == "r" + digits && Lower(s)[1..] == digits && AreDigits(digits, 10)
    {
      NumberedLower(s, digits);
      assert ("r" + digits)[1..] == digits;
    }
  }

  // parseRegister, case by case.
  lemma RegisterCases(s: string)
    requires IsWord(s)
    ensures var text := Lower(s); var v := ValueOf(text[1..], 10);
      && text != ""
      && ParseRegister(Some(s)) == (if text == "_" then Success(0) else if text == "sp" then Success(13)
        else if text == "fp" then Success(14) else if text == "ra" then Success(15)
        else if !IsNumbered(text) then Failure(BadRegister(s))
        else if v > 15 then Failure(RegisterOutOfRange(s)) else Success(v))
    ensures !IsNumbered("_") && !IsNumbered("sp") && !IsNumbered("fp") && !IsNumbered("ra")
  {
    hide IsSpace, Trim, ValueOf, DigitOf, LowerChar;
    TrimBoth(s);
    SpecialNames();
  }

  lemma SpecialNames()
    ensures !IsNumbered("_") && !IsNumbered("sp") && !IsNumbered("fp") && !IsNumbered("ra")
  {
    assert "ra"[1..][0] == 'a' && DigitOf('a') == 10;
  }

  // A word is read as a register exactly when it is one of the names of that
  // register: a number of any length, a special name in capital or small
  // letters, or the underscore.
  lemma RegistersAccepted(s: string, r: int)
    requires IsWord(s)
    ensures ParseRegister(Some(s)) == Success(r) <==> SpellsRegister(s, r)
  {
    hide ParseRegister, NumbersRegister, IsNumbered, ValueOf, Lower;
    UnderscoreLower(s);
    NumberedWords(s);
    RegisterCases(s);
  }

  // A register number past 15 is refused as such, everything else that is no
  // name of a register as a bad register.
  lemma RegistersRefused(s: string)
    requires IsWord(s)
    ensures ParseRegister(Some(s)) == Failure(RegisterOutOfRange(s))
      <==> exists digits :: NumbersRegister(s, digits) && ValueOf(digits, 10) > 15
    ensures ParseRegister(Some(s)).Failure? ==>
      ParseRegister(Some(s)).error == RegisterOutOfRange(s) || ParseRegister(Some(s)).error == BadRegister(s)
    ensures ParseRegister(None) == Failure(MissingRegister)
  {
    hide NumbersRegister, IsNumbered, ValueOf, Lower;
    NumberedWords(s);
    RegisterCases(s);
    hide ParseRegister;
    MissingRegisters();
  }

  lemma MissingRegisters()
    ensures ParseRegister(None) == Failure(MissingRegister)
  {
  }
}
