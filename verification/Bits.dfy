// The bitwise instructions, digit by digit.
module Bits {
  import opened Machine

  function Power(i: nat): (p: nat)
    ensures p > 0
  {
    if i == 0 then 1 else 2 * Power(i - 1)
  }

  // Binary digit i of x.
  function Bit(x: nat, i: nat): nat {
    (x / Power(i)) % 2
  }

  lemma HalfFirst(x: nat, d: nat)
    requires d > 0
    ensures x / (2 * d) == (x / 2) / d
  {
    var q := (x / 2) / d;
    var r := (x / 2) % d;
    assert x / 2 == q * d + r;
    var rest := 2 * r + x % 2;
    assert x == q * (2 * d) + rest && 0 <= rest < 2 * d;
    QuotientIs(x, 2 * d, q, rest);
  }

  lemma QuotientIs(x: nat, d: nat, q: nat, r: nat)
    requires d > 0 && x == q * d + r && r < d
    ensures x / d == q
  {
    var k := x / d - q;
    assert k * d == r - x % d;
    Multiple(k, d);
  }

  lemma Multiple(k: int, d: nat)
    ensures (k >= 1 ==> k * d >= d) && (k <= -1 ==> k * d <= 0 - d)
  {
  }

  lemma NextBit(x: nat, i: nat)
    ensures Bit(x, 0) == x % 2
    ensures Bit(x, i + 1) == Bit(x / 2, i)
  {
    HalfFirst(x, Power(i));
    assert Power(0) == 1;
  }

  lemma {:induction false} ZeroBits(i: nat)
    ensures Bit(0, i) == 0
    decreases i
  {
    if i > 0 {
      NextBit(0, i - 1);
      ZeroBits(i - 1);
    }
  }

  lemma {:induction false} AndBits(x: nat, y: nat, i: nat)
    ensures Bit(BitAnd(x, y), i) == 1 <==> Bit(x, i) == 1 && Bit(y, i) == 1
    decreases i
  {
    ZeroBits(i);
    var z := BitAnd(x, y);
    if x != 0 && y != 0 {
      assert z % 2 == (if x % 2 == 1 && y % 2 == 1 then 1 else 0) && z / 2 == BitAnd(x / 2, y / 2);
      if i == 0 {
        NextBit(x, 0);
        NextBit(y, 0);
        NextBit(z, 0);
      } else {
        NextBit(x, i - 1);
        NextBit(y, i - 1);
        NextBit(z, i - 1);
        AndBits(x / 2, y / 2, i - 1);
      }
    }
  }

  lemma {:induction false} OrBits(x: nat, y: nat, i: nat)
    ensures Bit(BitOr(x, y), i) == 1 <==> Bit(x, i) == 1 || Bit(y, i) == 1
    decreases i
  {
    ZeroBits(i);
    var z := BitOr(x, y);
    if x != 0 && y != 0 {
      assert z % 2 == (if x % 2 == 1 || y % 2 == 1 then 1 else 0) && z / 2 == BitOr(x / 2, y / 2);
      if i == 0 {
        NextBit(x, 0);
        NextBit(y, 0);
        NextBit(z, 0);
      } else {
        NextBit(x, i - 1);
        NextBit(y, i - 1);
        NextBit(z, i - 1);
        OrBits(x / 2, y / 2, i - 1);
      }
    }
  }

  // Digit i of the complement of x in n digits.
  lemma {:induction false} ComplementBits(x: nat, n: nat, i: nat)
    requires x < Power(n) && i < n
    ensures Bit(Power(n) - 1 - x, i) == 1 <==> Bit(x, i) == 0
    decreases i
  {
    var z := Power(n) - 1 - x;
    assert Power(n) == 2 * Power(n - 1);
    assert z % 2 == 1 - x % 2 && z / 2 == Power(n - 1) - 1 - x / 2;
    if i == 0 {
      NextBit(x, 0);
      NextBit(z, 0);
    } else {
      NextBit(x, i - 1);
      NextBit(z, i - 1);
      ComplementBits(x / 2, n - 1, i - 1);
    }
  }

  // What two numbers share and what they have together add up to their sum.
  lemma {:induction false} AndPlusOr(x: nat, y: nat)
    ensures BitAnd(x, y) + BitOr(x, y) == x + y
    decreases x
  {
    if x != 0 && y != 0 {
      AndPlusOr(x / 2, y / 2);
    }
  }

  lemma {:induction false} OrStaysBelow(x: nat, y: nat, n: nat)
    requires x < Power(n) && y < Power(n)
    ensures BitOr(x, y) < Power(n)
    decreases n
  {
    if x != 0 && y != 0 {
      OrStaysBelow(x / 2, y / 2, n - 1);
    }
  }

  lemma ByteWidth()
    ensures Power(8) == 256
  {
    assert Power(4) == 16;
  }

  // No result of the two operations is too large for a register.
  lemma BitwiseIsByte(x: byte, y: byte)
    ensures Alu(BAND, x, y) == BitAnd(x, y) && Alu(BOR, x, y) == BitOr(x, y)
  {
    ByteWidth();
    OrStaysBelow(x, y, 8);
    AndPlusOr(x, y);
    AtLeast(x, y);
  }

  lemma {:induction false} AtLeast(x: nat, y: nat)
    ensures BitOr(x, y) >= x
    decreases x
  {
    if x != 0 && y != 0 {
      AtLeast(x / 2, y / 2);
    }
  }

  lemma BitwiseLaws(x: byte, y: byte)
    ensures Alu(BAND, x, y) + Alu(BOR, x, y) == x + y
  {
    BitwiseIsByte(x, y);
    AndPlusOr(x, y);
  }

  // Digit by digit, the three instructions leave the and, the or and the
  // complement of their operands; nothing but the register and pc changes.
  lemma BitwiseSteps(p: Image, m: State, i: nat)
    requires !Halted(p, m) && Executable(p[m.pc]) && i < 8
    ensures var s := p[m.pc]; var n := Step(p, m);
      s.op == BAND ==>
        && n == m.(regs := m.regs[s.a := n.regs[s.a]], pc := m.pc + 1)
        && (Bit(n.regs[s.a], i) == 1 <==> Bit(m.regs[s.b], i) == 1 && Bit(m.regs[s.c], i) == 1)
    ensures var s := p[m.pc]; var n := Step(p, m);
      s.op == BOR ==>
        && n == m.(regs := m.regs[s.a := n.regs[s.a]], pc := m.pc + 1)
        && (Bit(n.regs[s.a], i) == 1 <==> Bit(m.regs[s.b], i) == 1 || Bit(m.regs[s.c], i) == 1)
    ensures var s := p[m.pc]; var n := Step(p, m);
      s.op == BNOT ==>
        && n == m.(regs := m.regs[s.a := n.regs[s.a]], pc := m.pc + 1)
        && (Bit(n.regs[s.a], i) == 1 <==> Bit(m.regs[s.b], i) == 0)
        && n.regs[s.a] + m.regs[s.b] == 255
  {
    hide Bit, BitAnd, BitOr, Power;
    var s := p[m.pc];
    ByteWidth();
    if s.op == BNOT {
      ComplementBits(m.regs[s.b], 8, i);
    } else if s.op == BAND || s.op == BOR {
      var x, y := m.regs[s.b], m.regs[s.c];
      BitwiseIsByte(x, y);
      AndBits(x, y, i);
      OrBits(x, y, i);
    }
  }
}
