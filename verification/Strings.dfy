// The string operations the two text formats rely on: trimming, cutting,
// splitting on white space and on line ends, and numerals.
module Strings {

  // \s, which is also what trim removes.
  predicate IsSpace(c: char) {
    var n := c as int;
    9 <= n <= 13 || n == 32 || n == 160 || n == 5760 || 8192 <= n <= 8202 || n == 8232 || n == 8233
    || n == 8239 || n == 8287 || n == 12288 || n == 65279
  }

  predicate Spaceless(s: string) {
    forall i | 0 <= i < |s| :: !IsSpace(s[i])
  }

  predicate IsWord(s: string) {
    s != "" && Spaceless(s)
  }

  function TrimStart(s: string): string {
    if s != "" && IsSpace(s[0]) then TrimStart(s[1..]) else s
  }

  function TrimEnd(s: string): string {
    if s != "" && IsSpace(s[|s| - 1]) then TrimEnd(s[..|s| - 1]) else s
  }

  function Trim(s: string): string {
    TrimEnd(TrimStart(s))
  }

  // split(c)[0]
  function Cut(s: string, c: char): string {
    if s == "" || s[0] == c then "" else [s[0]] + Cut(s[1..], c)
  }

  // The characters up to the first white space.
  function Word(s: string): (w: string)
    ensures w <= s && Spaceless(w)
    ensures |w| < |s| ==> IsSpace(s[|w|])
  {
    if s == "" || IsSpace(s[0]) then "" else [s[0]] + Word(s[1..])
  }

  lemma {:induction false} TrimStartShorter(s: string)
    ensures |TrimStart(s)| <= |s|
    decreases |s|
  {
    if s != "" && IsSpace(s[0]) {
      TrimStartShorter(s[1..]);
    }
  }

  // split(/\s+/)
  function Words(s: string): seq<string>
    decreases |s|
  {
    var w := Word(s);
    if |w| == |s| then [w]
    else
      TrimStartShorter(s[|w| + 1..]);
      [w] + Words(TrimStart(s[|w| + 1..]))
  }

  // split(/\r?\n/)
  function Lines(s: string): (r: seq<string>)
    ensures r != []
  {
    if s == "" then [""]
    else if s[0] == '\n' then [""] + Lines(s[1..])
    else if s[0] == '\r' && |s| > 1 && s[1] == '\n' then [""] + Lines(s[2..])
    else
      var rest := Lines(s[1..]);
      [[s[0]] + rest[0]] + rest[1..]
  }

  function Join(words: seq<string>): string {
    if words == [] then "" else if |words| == 1 then words[0] else words[0] + " " + Join(words[1..])
  }

  lemma {:induction false} CutFree(a: string, c: char)
    requires c !in a
    ensures Cut(a, c) == a
    decreases |a|
  {
    if a != "" {
      CutFree(a[1..], c);
    }
  }

  lemma {:induction false} CutAt(a: string, c: char, b: string)
    requires c !in a
    ensures Cut(a + [c] + b, c) == a
    decreases |a|
  {
    if a != "" {
      assert (a + [c] + b)[1..] == a[1..] + [c] + b;
      CutAt(a[1..], c, b);
    }
  }

  lemma TrimBoth(s: string)
    requires s != "" && !IsSpace(s[0]) && !IsSpace(s[|s| - 1])
    ensures Trim(s) == s
  {
  }

  // Spaces at either end go.
  lemma {:induction false} TrimPadded(s: string, n: nat)
    requires s != "" && !IsSpace(s[0]) && !IsSpace(s[|s| - 1])
    ensures Trim(s + seq(n, _ => ' ')) == s && TrimStart(seq(n, _ => ' ') + s) == s
    decreases n
  {
    if n == 0 {
      assert s + seq(n, _ => ' ') == s && seq(n, _ => ' ') + s == s;
    } else {
      TrimPadded(s, n - 1);
      var front := s + seq(n, _ => ' ');
      assert front[..|front| - 1] == s + seq(n - 1, _ => ' ');
      var back := seq(n, _ => ' ') + s;
      assert back[1..] == seq(n - 1, _ => ' ') + s;
    }
  }

  lemma {:induction false} WordAt(w: string, rest: string)
    requires Spaceless(w) && (rest == "" || IsSpace(rest[0]))
    ensures Word(w + rest) == w
    decreases |w|
  {
    if w != "" {
      assert (w + rest)[1..] == w[1..] + rest;
      assert forall i | 0 <= i < |w| - 1 :: w[1..][i] == w[i + 1];
      WordAt(w[1..], rest);
    } else {
      assert w + rest == rest;
    }
  }

  lemma SpaceIsSpace()
    ensures IsSpace(' ')
  {
  }

  lemma WordsCons(w: string, rest: string)
    requires Spaceless(w) && rest != "" && !IsSpace(rest[0])
    ensures Words(w + " " + rest) == [w] + Words(rest)
  {
    hide IsSpace;
    SpaceIsSpace();
    var s := w + " " + rest;
    assert s == w + (" " + rest);
    WordAt(w, " " + rest);
    assert s[|w| + 1..] == rest;
    assert TrimStart(rest) == rest;
  }

  // Words joined by single spaces come apart again.
  lemma {:induction false} WordsOfJoin(words: seq<string>)
    requires words != [] && forall i | 0 <= i < |words| :: IsWord(words[i])
    ensures Words(Join(words)) == words
    ensures Join(words) != "" && !IsSpace(Join(words)[0]) && !IsSpace(Join(words)[|Join(words)| - 1])
    decreases |words|
  {
    hide IsSpace, Words;
    var w := words[0];
    assert IsWord(w);
    if |words| == 1 {
      SingleWord(w);
    } else {
      var rest := words[1..];
      WordsOfJoin(rest);
      WordsCons(w, Join(rest));
      assert [w] + rest == words;
    }
  }

  lemma SingleWord(w: string)
    requires Spaceless(w)
    ensures Words(w) == [w]
  {
    WordAt(w, "");
    assert w + "" == w;
  }

  // A line ends at its line end.
  lemma {:induction false} LinesCons(line: string, rest: string)
    requires '\n' !in line && '\r' !in line
    ensures Lines(line + "\n" + rest) == [line] + Lines(rest)
    decreases |line|
  {
    var s := line + "\n" + rest;
    if line == "" {
      assert s[1..] == rest;
    } else {
      assert s[1..] == line[1..] + "\n" + rest;
      LinesCons(line[1..], rest);
      assert [line[0]] + line[1..] == line;
    }
  }

  // ---------- numerals ----------

  // No character that ends a token, a line or an instruction.
  predicate Harmless(c: char) {
    !IsSpace(c) && c != '%' && c != ';' && c != '\n' && c != '\r' && c != ':'
  }

  function DigitChar(d: nat): (c: char)
    requires d < 16
    ensures DigitOf(c) == d && Harmless(c)
  {
    if d < 10 then '0' + d as char else 'A' + (d - 10) as char
  }

  // The value of a digit in either case; 16 if it is none.
  function DigitOf(c: char): nat {
    if '0' <= c <= '9' then c as int - '0' as int
    else if 'a' <= c <= 'f' then c as int - 'a' as int + 10
    else if 'A' <= c <= 'F' then c as int - 'A' as int + 10
    else 16
  }

  predicate AreDigits(s: string, base: nat) {
    s != "" && forall i | 0 <= i < |s| :: DigitOf(s[i]) < base
  }

  // Without leading zeros, as the C library prints numbers.
  function Numeral(n: nat, base: nat): string
    requires 2 <= base <= 16
  {
    if n < base then [DigitChar(n)] else Numeral(n / base, base) + [DigitChar(n % base)]
  }

  // parseInt
  function ValueOf(s: string, base: nat): nat {
    if s == "" then 0 else ValueOf(s[..|s| - 1], base) * base + DigitOf(s[|s| - 1])
  }

  lemma Quotient(n: nat, base: nat)
    requires base > 0
    ensures (n / base) * base + n % base == n
  {
  }

  lemma OneMoreDigit(most: string, d: nat, value: nat, base: nat)
    requires AreDigits(most, base) && ValueOf(most, base) == value && d < base <= 16
    requires forall i | 0 <= i < |most| :: Harmless(most[i])
    ensures var s := most + [DigitChar(d)];
      && AreDigits(s, base) && ValueOf(s, base) == value * base + d
      && forall i | 0 <= i < |s| :: Harmless(s[i])
  {
    hide DigitChar, DigitOf, Harmless;
    var s := most + [DigitChar(d)];
    assert s[..|s| - 1] == most;
  }

  lemma {:induction false} NumeralRoundTrip(n: nat, base: nat)
    requires 2 <= base <= 16
    ensures AreDigits(Numeral(n, base), base) && ValueOf(Numeral(n, base), base) == n
    ensures forall i | 0 <= i < |Numeral(n, base)| :: Harmless(Numeral(n, base)[i])
    decreases n
  {
    hide DigitChar, DigitOf, Harmless;
    if n >= base {
      var most := Numeral(n / base, base);
      NumeralRoundTrip(n / base, base);
      Quotient(n, base);
      OneMoreDigit(most, n % base, n / base, base);
    } else {
      var s := Numeral(n, base);
      assert s[..|s| - 1] == "";
      assert ValueOf("", base) == 0;
    }
  }

  function Zeros(k: nat): string {
    seq(k, _ => '0')
  }

  // Padded with zeros to a width, as %04X and padStart do.
  function Padded(n: nat, base: nat, width: nat): string
    requires 2 <= base <= 16
  {
    var s := Numeral(n, base);
    if |s| >= width then s else Zeros(width - |s|) + s
  }

  lemma {:induction false} LeadingZeros(k: nat, s: string, base: nat)
    ensures ValueOf(Zeros(k) + s, base) == ValueOf(s, base)
    decreases |s|, k
  {
    if s == "" {
      assert Zeros(k) + s == Zeros(k);
      if k > 0 {
        LeadingZeros(k - 1, s, base);
        assert Zeros(k)[..k - 1] == Zeros(k - 1) == Zeros(k - 1) + s;
      }
    } else {
      LeadingZeros(k, s[..|s| - 1], base);
      assert (Zeros(k) + s)[..|Zeros(k) + s| - 1] == Zeros(k) + s[..|s| - 1];
    }
  }

  lemma ZeroDigit()
    ensures DigitOf('0') == 0 && Harmless('0')
  {
  }

  lemma PaddedRoundTrip(n: nat, base: nat, width: nat)
    requires 2 <= base <= 16
    ensures var s := Padded(n, base, width);
      && AreDigits(s, base) && ValueOf(s, base) == n && |s| >= width
      && forall i | 0 <= i < |s| :: Harmless(s[i])
  {
    hide Numeral, DigitOf, Harmless, ValueOf;
    NumeralRoundTrip(n, base);
    ZeroDigit();
    var s := Numeral(n, base);
    if |s| < width {
      LeadingZeros(width - |s|, s, base);
    }
  }
}
