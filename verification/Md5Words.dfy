// 32-bit machine words, as the source computes with them, are a machine on which MD5 works.

module Md5Words {
  import opened Bits
  import opened Bytes
  import opened MachineWords
  import opened Md5Machines
  import opened Md5Rfc

  // ---- Machine words as numbers

  // Bit i of a machine word.
  function On(b: bv32, i: nat): (r: nat)
    ensures r < 2
    decreases i
  {
    if i == 0 then Low(b) else On(Half(b), i - 1)
  }

  // The n lowest bits, the lowest first.
  function BitsOf(b: bv32, n: nat): (r: seq<nat>)
    ensures |r| == n
  {
    seq(n, i requires 0 <= i < n => On(b, i))
  }

  // The number with these bits.
  function FromBits(r: seq<nat>): nat {
    if r == [] then 0 else r[0] + 2 * FromBits(r[1..])
  }

  // The number of the n lowest bits.
  function Num(b: bv32, n: nat): nat {
    FromBits(BitsOf(b, n))
  }

  lemma FirstBit(b: bv32, n: nat)
    ensures Num(b, n + 1) == Low(b) + 2 * Num(Half(b), n)
  {
    assert BitsOf(b, n + 1)[1..] == BitsOf(Half(b), n);
  }

  lemma Halve(n: nat, bit: nat, rest: nat)
    requires n == bit + 2 * rest && bit < 2
    ensures n / 2 == rest && n % 2 == bit
  {
  }

  lemma AndStep(a: nat, b: nat, r: nat, s: nat, x: nat, y: nat)
    requires a == r + 2 * x && b == s + 2 * y && r < 2 && s < 2
    ensures And(a, b) == Both(r, s) + 2 * And(x, y)
  {
    Halve(a, r, x);
    Halve(b, s, y);
    Parts(a, b);
  }

  lemma {:induction false} AndOfBits(r: seq<nat>, s: seq<nat>, t: seq<nat>)
    requires |r| == |s| == |t|
    requires forall i :: 0 <= i < |r| ==> r[i] < 2 && s[i] < 2 && t[i] == Both(r[i], s[i])
    ensures And(FromBits(r), FromBits(s)) == FromBits(t)
  {
    if r != [] {
      AndOfBits(r[1..], s[1..], t[1..]);
      AndStep(FromBits(r), FromBits(s), r[0], s[0], FromBits(r[1..]), FromBits(s[1..]));
    }
  }

  lemma {:induction false} SumOfBits(r: seq<nat>, s: seq<nat>, t: seq<nat>, u: seq<nat>)
    requires |r| == |s| == |t| == |u|
    requires forall i :: 0 <= i < |r| ==> r[i] + s[i] == t[i] + u[i]
    ensures FromBits(r) + FromBits(s) == FromBits(t) + FromBits(u)
  {
    if r != [] {
      SumOfBits(r[1..], s[1..], t[1..], u[1..]);
    }
  }

  lemma {:induction false} AdderOfBits(b: seq<nat>, c: seq<nat>, k: seq<nat>, s: seq<nat>, m: seq<nat>)
    requires |b| == |c| == |k| == |s| == |m|
    requires forall i :: 0 <= i < |s| ==> s[i] + 2 * m[i] == b[i] + c[i] + k[i]
    ensures FromBits(s) + 2 * FromBits(m) == FromBits(b) + FromBits(c) + FromBits(k)
  {
    if s != [] {
      AdderOfBits(b[1..], c[1..], k[1..], s[1..], m[1..]);
    }
  }

  lemma {:induction false} AndOn(b: bv32, c: bv32, d: bv32, i: nat)
    requires d == b & c
    ensures On(d, i) == Both(On(b, i), On(c, i))
    decreases i
  {
    AndHalves(b, c);
    if i > 0 {
      AndOn(Half(b), Half(c), Half(d), i - 1);
    }
  }

  lemma {:induction false} OrOn(b: bv32, c: bv32, d: bv32, i: nat)
    requires d == b | c
    ensures On(d, i) == On(b, i) + On(c, i) - Both(On(b, i), On(c, i))
    decreases i
  {
    OrHalves(b, c);
    if i > 0 {
      OrOn(Half(b), Half(c), Half(d), i - 1);
    }
  }

  lemma {:induction false} AdderOn(b: bv32, c: bv32, k: bv32, s: bv32, m: bv32, i: nat)
    requires FullAdder(b, c, k, s, m)
    ensures On(s, i) + 2 * On(m, i) == On(b, i) + On(c, i) + On(k, i)
    decreases i
  {
    AdderLow(b, c, k, s, m);
    if i > 0 {
      AdderHalves(b, c, k, s, m);
      AdderOn(Half(b), Half(c), Half(k), Half(s), Half(m), i - 1);
    }
  }

  lemma AndNum(b: bv32, c: bv32, n: nat)
    ensures And(Num(b, n), Num(c, n)) == Num(b & c, n)
  {
    forall i | 0 <= i < n ensures On(b & c, i) == Both(On(b, i), On(c, i)) {
      AndOn(b, c, b & c, i);
    }
    AndOfBits(BitsOf(b, n), BitsOf(c, n), BitsOf(b & c, n));
  }

  lemma OrNum(b: bv32, c: bv32, n: nat)
    ensures Num(b | c, n) + Num(b & c, n) == Num(b, n) + Num(c, n)
  {
    forall i | 0 <= i < n ensures On(b | c, i) + On(b & c, i) == On(b, i) + On(c, i) {
      AndOn(b, c, b & c, i);
      OrOn(b, c, b | c, i);
    }
    SumOfBits(BitsOf(b | c, n), BitsOf(b & c, n), BitsOf(b, n), BitsOf(c, n));
  }

  lemma AdderNum(b: bv32, c: bv32, k: bv32, s: bv32, m: bv32, n: nat)
    requires FullAdder(b, c, k, s, m)
    ensures Num(s, n) + 2 * Num(m, n) == Num(b, n) + Num(c, n) + Num(k, n)
  {
    forall i | 0 <= i < n ensures On(s, i) + 2 * On(m, i) == On(b, i) + On(c, i) + On(k, i) {
      AdderOn(b, c, k, s, m, i);
    }
    AdderOfBits(BitsOf(b, n), BitsOf(c, n), BitsOf(k, n), BitsOf(s, n), BitsOf(m, n));
  }

  // ---- The operators, for any v that reads machine words as numbers

  ghost predicate Reads(v: bv32 -> word) {
    && (forall b, n: nat {:trigger Num(b, n), v(b)} :: n >= 32 ==> Num(b, n) == v(b))
    && v(0) == 0 && v(0x8000_0000) == 0x8000_0000 && v(0xFFFF_FFFF) == 0xFFFF_FFFF
  }

  lemma ReadsHalf(v: bv32 -> word, b: bv32)
    requires Reads(v)
    ensures v(b) == Low(b) + 2 * v(Half(b))
  {
    FirstBit(b, 32);
    assert Num(b, 33) == v(b);
  }

  lemma AndIs(v: bv32 -> word, b: bv32, c: bv32)
    requires Reads(v)
    ensures And(v(b), v(c)) == v(b & c)
  {
    AndNum(b, c, 32);
  }

  lemma OrAndSum(v: bv32 -> word, b: bv32, c: bv32)
    requires Reads(v)
    ensures v(b | c) + v(b & c) == v(b) + v(c)
  {
    OrNum(b, c, 32);
  }

  lemma OrIs(v: bv32 -> word, b: bv32, c: bv32)
    requires Reads(v)
    ensures Or(v(b), v(c)) == v(b | c)
  {
    AndIs(v, b, c);
    OrAndSum(v, b, c);
  }

  lemma XorAndSum(v: bv32 -> word, b: bv32, c: bv32)
    requires Reads(v)
    ensures v(b ^ c) + v(b & c) == v(b | c)
  {
    XorParts(b, c);
    OrAndSum(v, b ^ c, b & c);
  }

  lemma XorIs(v: bv32 -> word, b: bv32, c: bv32)
    requires Reads(v)
    ensures Xor(v(b), v(c)) == v(b ^ c)
  {
    AndIs(v, b, c);
    OrAndSum(v, b, c);
    XorAndSum(v, b, c);
  }

  lemma NotIs(v: bv32 -> word, b: bv32)
    requires Reads(v)
    ensures Not(v(b)) == v(!b)
  {
    NotParts(b);
    OrAndSum(v, b, !b);
  }

  lemma AdderIs(v: bv32 -> word, b: bv32, c: bv32, k: bv32, s: bv32, m: bv32)
    requires Reads(v) && FullAdder(b, c, k, s, m)
    ensures v(s) + 2 * v(m) == v(b) + v(c) + v(k)
  {
    AdderNum(b, c, k, s, m, 32);
  }

  lemma TopIs(v: bv32 -> word, b: bv32)
    requires Reads(v)
    ensures v(b) == v(BelowTop(b)) + v(Top(b))
    ensures v(Top(b)) == if Top(b) == 0 then 0 else 0x8000_0000
  {
    TopParts(b);
    TopValues(b);
    OrAndSum(v, BelowTop(b), Top(b));
  }

  lemma DoubleIs(v: bv32 -> word, b: bv32)
    requires Reads(v)
    ensures v(Double(b)) == 2 * v(BelowTop(b))
  {
    Shifted(b);
    ReadsHalf(v, Double(b));
  }

  // Addition of machine words is addition modulo 2^32.
  lemma AddIs(v: bv32 -> word, b: bv32, c: bv32)
    requires Reads(v)
    ensures Wrap(v(b) + v(c)) == v(b + c)
  {
    var k, m := Addition(b, c);
    AdderIs(v, b, c, k, b + c, m);
    DoubleIs(v, m);
    TopIs(v, m);
  }

  lemma OnceIs(v: bv32 -> word, b: bv32)
    requires Reads(v)
    ensures v(Once(b)) == 2 * v(b) % MODULUS + 2 * v(b) / MODULUS
  {
    ReadsHalf(v, Once(b));
    OnceParts(b);
    TopIs(v, b);
  }

  function Turned(b: bv32, n: nat): bv32 { if n == 0 then b else Once(Turned(b, n - 1)) }

  lemma {:induction false} TurnedIs(v: bv32 -> word, b: bv32, n: nat)
    requires Reads(v)
    ensures v(Turned(b, n)) == RotateLeft(v(b), n)
  {
    if n > 0 {
      TurnedIs(v, b, n - 1);
      OnceIs(v, Turned(b, n - 1));
    }
  }

  // ---- The value of a machine word

  function Byte(b: bv32): (n: nat)
    ensures n < 0x100
  {
    ((b & 0xFF) as bv8) as nat
  }

  function Above(b: bv32): bv32 {
    b >> 8
  }

  // Byte by byte, the low-order byte first.
  function Val(b: bv32): word {
    Byte(b) + 0x100 * (Byte(Above(b)) + 0x100 * (Byte(Above(Above(b))) + 0x100 * Byte(Above(Above(Above(b))))))
  }

  // Four bits are a hexadecimal digit.
  function Digit(b: bv32): nat {
    Low(b) + 2 * (Low(Half(b)) + 2 * (Low(Half(Half(b))) + 2 * Low(Half(Half(Half(b))))))
  }

  function Rest(b: bv32): bv32 {
    Half(Half(Half(Half(b))))
  }

  lemma BitAt(r: seq<nat>, i: nat)
    requires i < |r|
    ensures FromBits(r[i..]) == r[i] + 2 * FromBits(r[i + 1..])
  {
    assert r[i..][1..] == r[i + 1..];
  }

  lemma FourBits(r: seq<nat>)
    requires |r| >= 4
    ensures FromBits(r) == r[0] + 2 * (r[1] + 2 * (r[2] + 2 * r[3])) + 16 * FromBits(r[4..])
  {
    assert r[0..] == r;
    BitAt(r, 0);
    BitAt(r, 1);
    BitAt(r, 2);
    BitAt(r, 3);
  }

  lemma RestOn(b: bv32, i: nat)
    ensures On(b, i + 4) == On(Rest(b), i)
  {
    assert On(b, i + 4) == On(Half(b), i + 3);
    assert On(Half(b), i + 3) == On(Half(Half(b)), i + 2);
  }

  lemma FirstDigit(b: bv32, k: nat)
    ensures Num(b, k + 4) == Digit(b) + 16 * Num(Rest(b), k)
  {
    FourBits(BitsOf(b, k + 4));
    forall i | 0 <= i < k ensures BitsOf(b, k + 4)[4..][i] == BitsOf(Rest(b), k)[i] {
      RestOn(b, i);
    }
    assert BitsOf(b, k + 4)[4..] == BitsOf(Rest(b), k);
    FirstFour(b);
  }

  lemma FirstFour(b: bv32)
    ensures On(b, 0) == Low(b) && On(b, 1) == Low(Half(b)) && On(b, 2) == Low(Half(Half(b)))
    ensures On(b, 3) == Low(Half(Half(Half(b))))
  {
    assert On(b, 3) == On(Half(b), 2);
    assert On(Half(b), 2) == On(Half(Half(b)), 1);
  }

  lemma ByteIs(b: bv32)
    ensures Digit(b) + 16 * Digit(Rest(b)) == Byte(b)
  {
  }

  lemma RestIs(b: bv32)
    ensures Rest(Rest(b)) == Above(b)
  {
  }

  lemma FirstByte(b: bv32, n: nat)
    ensures Num(b, n + 8) == Byte(b) + 0x100 * Num(Above(b), n)
  {
    FirstDigit(b, n + 4);
    FirstDigit(Rest(b), n);
    ByteIs(b);
    RestIs(b);
  }

  lemma {:induction false} NumOfZero(b: bv32, n: nat)
    requires b == 0
    ensures Num(b, n) == 0
  {
    if n > 0 {
      assert Half(b) == 0;
      FirstBit(b, n - 1);
      NumOfZero(Half(b), n - 1);
    }
  }

  // There are no bits above the lowest 32.
  lemma ValIs(b: bv32, n: nat)
    requires n >= 32
    ensures Num(b, n) == Val(b)
  {
    var b1 := Above(b);
    var b2 := Above(b1);
    var b3 := Above(b2);
    FirstByte(b, n - 8);
    FirstByte(b1, n - 16);
    FirstByte(b2, n - 24);
    FirstByte(b3, n - 32);
    NothingAbove(b);
    NumOfZero(Above(b3), n - 32);
  }

  lemma NothingAbove(b: bv32)
    ensures Above(Above(Above(Above(b)))) == 0
  {
  }

  lemma Ends()
    ensures Val(0) == 0
    ensures Val(0x8000_0000) == 0x8000_0000
    ensures Val(0xFFFF_FFFF) == 0xFFFF_FFFF
  {
  }

  lemma ValNumbers()
    ensures forall b, n: nat {:trigger Num(b, n), Val(b)} :: n >= 32 ==> Num(b, n) == Val(b)
  {
    forall b, n: nat | n >= 32 ensures Num(b, n) == Val(b) {
      ValIs(b, n);
    }
  }

  lemma ValReads()
    ensures Reads(Val)
  {
    ValNumbers();
    Ends();
  }

  // ---- The machine

  function And32(b: bv32, c: bv32): bv32 { b & c }

  function Or32(b: bv32, c: bv32): bv32 { b | c }

  function Xor32(b: bv32, c: bv32): bv32 { b ^ c }

  function Not32(b: bv32): bv32 { !b }

  function Plus32(b: bv32, c: bv32): bv32 { b + c }

  function Machine32(v: bv32 -> word): Machine<bv32> {
    Machine(v, And32, Or32, Xor32, Not32, Plus32, Turned)
  }

  lemma AndsAgree(v: bv32 -> word)
    requires Reads(v)
    ensures Machine32(v).Ands()
  {
    forall b, c ensures v(And32(b, c)) == And(v(b), v(c)) {
      AndIs(v, b, c);
    }
  }

  lemma OrsAgree(v: bv32 -> word)
    requires Reads(v)
    ensures Machine32(v).Ors()
  {
    forall b, c ensures v(Or32(b, c)) == Or(v(b), v(c)) {
      OrIs(v, b, c);
    }
  }

  lemma XorsAgree(v: bv32 -> word)
    requires Reads(v)
    ensures Machine32(v).Xors()
  {
    forall b, c ensures v(Xor32(b, c)) == Xor(v(b), v(c)) {
      XorIs(v, b, c);
    }
  }

  lemma NotsAgree(v: bv32 -> word)
    requires Reads(v)
    ensures Machine32(v).Nots()
  {
    forall b ensures v(Not32(b)) == Not(v(b)) {
      NotIs(v, b);
    }
  }

  lemma SumsAgree(v: bv32 -> word)
    requires Reads(v)
    ensures Machine32(v).Sums()
  {
    forall b, c ensures v(Plus32(b, c)) == Wrap(v(b) + v(c)) {
      AddIs(v, b, c);
    }
  }

  lemma TurnsAgree(v: bv32 -> word)
    requires Reads(v)
    ensures Machine32(v).Turns()
  {
    forall b, n: nat ensures v(Turned(b, n)) == RotateLeft(v(b), n) {
      TurnedIs(v, b, n);
    }
  }

  // 32-bit machine words are such a machine.
  lemma Machine32Faithful(v: bv32 -> word)
    requires Reads(v)
    ensures Machine32(v).Faithful()
  {
    AndsAgree(v);
    OrsAgree(v);
    XorsAgree(v);
    NotsAgree(v);
    SumsAgree(v);
    TurnsAgree(v);
  }

  // ---- An operation as the source writes it

  // s counts n.
  predicate Counts(n: nat, s: bv32) {
    if n == 0 then s == 0 else s > 0 && Counts(n - 1, s - 1)
  }

  // Turning n times by one bit is LEFTROTATE by n.
  lemma {:induction false} TurnedFast(b: bv32, n: nat, s: bv32)
    requires s < 32 && Counts(n, s)
    ensures Turned(b, n) == Rotated(b, s)
  {
    if n == 0 {
      NoTurn(b);
    } else {
      TurnedFast(b, n - 1, s - 1);
      OneMore(b, s - 1);
    }
  }

  function Aux32(round: nat, x: bv32, y: bv32, z: bv32): bv32 {
    match round
    case 0 => Or32(And32(x, y), And32(Not32(x), z))
    case 1 => Or32(And32(x, z), And32(y, Not32(z)))
    case 2 => Xor32(Xor32(x, y), z)
    case _ => Xor32(y, Or32(x, Not32(z)))
  }

  lemma Aux32Is(round: nat, x: bv32, y: bv32, z: bv32, v: bv32 -> word)
    ensures Machine32(v).Aux(round, x, y, z) == Aux32(round, x, y, z)
  {
  }

  function New32(round: nat, a: bv32, b: bv32, c: bv32, d: bv32, x: bv32, k: bv32, s: bv32): bv32
    requires s < 32
  {
    Plus32(b, Rotated(Plus32(Plus32(Plus32(a, Aux32(round, b, c, d)), x), k), s))
  }

  lemma Mix32Is(a: bv32, b: bv32, f: bv32, x: bv32, k: bv32, n: nat, v: bv32 -> word)
    ensures Machine32(v).Mix(a, b, f, x, k, n) == Plus32(b, Turned(Plus32(Plus32(Plus32(a, f), x), k), n))
  {
  }

  lemma New32Is(round: nat, a: bv32, b: bv32, c: bv32, d: bv32, x: bv32, k: bv32, s: bv32, n: nat,
                v: bv32 -> word)
    requires s < 32 && Counts(n, s)
    ensures Machine32(v).New(round, a, b, c, d, x, k, n) == New32(round, a, b, c, d, x, k, s)
  {
    Aux32Is(round, b, c, d, v);
    var f := Aux32(round, b, c, d);
    TurnedFast(Plus32(Plus32(Plus32(a, f), x), k), n, s);
    Mix32Is(a, b, f, x, k, n, v);
  }

  lemma Machine32Reads()
    ensures Machine32(Val).Faithful()
  {
    ValReads();
    Machine32Faithful(Val);
  }
}
