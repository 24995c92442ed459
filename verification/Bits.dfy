// Bitwise operators on numbers without sign.

module Bits {
  function Both(a: nat, b: nat): nat {
    if a == 1 && b == 1 then 1 else 0
  }

  // Bitwise and. The other operators follow from it: x + y = (x or y) + (x and y), and
  // (x xor y) = (x or y) - (x and y).
  function And(x: nat, y: nat): (r: nat)
    ensures r <= x && r <= y
    decreases x
  {
    if x == 0 then 0 else Both(x % 2, y % 2) + 2 * And(x / 2, y / 2)
  }

  lemma {:induction false} AndCommutes(x: nat, y: nat)
    ensures And(x, y) == And(y, x)
    decreases x
  {
    if x != 0 && y != 0 {
      AndCommutes(x / 2, y / 2);
    } else if x == 0 {
      AndZero(y);
    }
  }

  lemma {:induction false} AndZero(y: nat)
    ensures And(y, 0) == 0
  {
    if y != 0 {
      AndZero(y / 2);
    }
  }

  function Or(x: nat, y: nat): nat { x + y - And(x, y) }

  function Xor(x: nat, y: nat): nat { x + y - 2 * And(x, y) }

  // Bit i of x, counted from the lowest.
  function Bit(x: nat, i: nat): (b: nat)
    ensures b < 2
    decreases i
  {
    if i == 0 then x % 2 else Bit(x / 2, i - 1)
  }

  lemma Parts(x: nat, y: nat)
    ensures And(x, y) == Both(x % 2, y % 2) + 2 * And(x / 2, y / 2)
  {
  }

  // A number is its lowest bit and the others.
  lemma LowBit(n: nat, bit: nat, rest: nat, i: nat)
    requires n == bit + 2 * rest && bit < 2
    ensures Bit(n, i) == if i == 0 then bit else Bit(rest, i - 1)
  {
  }

  lemma {:induction false} AndBit(x: nat, y: nat, i: nat)
    ensures Bit(And(x, y), i) == if Bit(x, i) == 1 && Bit(y, i) == 1 then 1 else 0
    decreases i
  {
    Parts(x, y);
    LowBit(And(x, y), Both(x % 2, y % 2), And(x / 2, y / 2), i);
    if i > 0 {
      AndBit(x / 2, y / 2, i - 1);
    }
  }

  lemma {:induction false} OrBit(x: nat, y: nat, i: nat)
    ensures Bit(Or(x, y), i) == if Bit(x, i) == 1 || Bit(y, i) == 1 then 1 else 0
    decreases i
  {
    Parts(x, y);
    LowBit(Or(x, y), x % 2 + y % 2 - Both(x % 2, y % 2), Or(x / 2, y / 2), i);
    if i > 0 {
      OrBit(x / 2, y / 2, i - 1);
    }
  }

  lemma {:induction false} XorBit(x: nat, y: nat, i: nat)
    ensures Bit(Xor(x, y), i) == if Bit(x, i) != Bit(y, i) then 1 else 0
    decreases i
  {
    Parts(x, y);
    LowBit(Xor(x, y), x % 2 + y % 2 - 2 * Both(x % 2, y % 2), Xor(x / 2, y / 2), i);
    if i > 0 {
      XorBit(x / 2, y / 2, i - 1);
    }
  }

  // ---- Powers

  function Pow2(n: nat): (p: nat)
    ensures p > 0
  {
    if n == 0 then 1 else 2 * Pow2(n - 1)
  }

  lemma Associate(a: nat, b: nat, c: nat)
    ensures a * (b * c) == a * b * c
  {
  }

  lemma {:induction false} Pow2Sum(a: nat, b: nat)
    ensures Pow2(a + b) == Pow2(a) * Pow2(b)
  {
    if a > 0 {
      Pow2Sum(a - 1, b);
      Associate(2, Pow2(a - 1), Pow2(b));
    }
  }

  lemma {:induction false} Pow2Of32()
    ensures Pow2(32) == 0x1_0000_0000
  {
    Pow2Sum(16, 16);
    Pow2Of16();
  }

  lemma {:induction false} Pow2Of16()
    ensures Pow2(16) == 0x1_0000
  {
    Pow2Sum(8, 8);
    Pow2Sum(4, 4);
  }

  lemma {:induction false} ComplementBit(x: nat, w: nat, i: nat)
    requires x < Pow2(w) && i < w
    ensures Bit(Pow2(w) - 1 - x, i) == 1 - Bit(x, i)
    decreases w
  {
    LowBit(Pow2(w) - 1 - x, 1 - x % 2, Pow2(w - 1) - 1 - x / 2, i);
    if i > 0 {
      ComplementBit(x / 2, w - 1, i - 1);
    }
  }
}
