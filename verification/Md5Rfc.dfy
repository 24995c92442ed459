// The MD5 message-digest algorithm as sections 3.1 to 3.5 of RFC 1321 define it, for
// messages of whole bytes.

module Md5Rfc {
  import opened Bits
  import opened Bytes

  type word = uint32
  type WordIndex = j: nat | j < 16
  type Amount = s: nat | 0 < s < 32 witness 1

  const MODULUS := 0x1_0000_0000

  // Addition of words is modulo 2^32.
  function Wrap(n: nat): word {
    n % MODULUS
  }

  // ---- Bits

  function Not(x: word): word { MODULUS - 1 - x }

  // X <<< s: rotating left by s bit positions, one at a time.
  function RotateLeft(x: word, s: nat): word {
    if s == 0 then x
    else
      var y := RotateLeft(x, s - 1);
      2 * y % MODULUS + 2 * y / MODULUS
  }

  // ---- Sections 3.1 and 3.2: padding and length

  // A buffer length to which a message and its 1 bit may be extended: 448 modulo 512 bits.
  predicate IsPaddedLength(len: nat, n: nat) {
    n >= len + 1 && n % 64 == 56
  }

  function PaddedLength(len: nat): (n: nat)
    ensures len < n && (n + 8) % 64 == 0
  {
    len + 1 + (55 - len) % 64
  }

  // Of all the lengths padding may reach, the smallest one is chosen.
  lemma PaddedLengthIsLeast(len: nat, m: nat)
    ensures IsPaddedLength(len, PaddedLength(len))
    ensures IsPaddedLength(len, m) ==> PaddedLength(len) <= m
  {
    var q := (55 - len) / 64;
    assert 55 - len == 64 * q + (55 - len) % 64;
  }

  // A word as bytes, low-order byte first.
  function ToBytes(w: word): (b: seq<byte>)
    ensures |b| == 4
  {
    [w % 0x100, w / 0x100 % 0x100, w / 0x1_0000 % 0x100, w / 0x100_0000 % 0x100]
  }

  function Little32(b0: nat, b1: nat, b2: nat, b3: nat): nat {
    b0 + b1 * 0x100 + b2 * 0x1_0000 + b3 * 0x100_0000
  }

  function ToWord(b: seq<byte>): word
    requires |b| == 4
  {
    Little32(b[0], b[1], b[2], b[3])
  }

  // The length in bits, modulo 2^64, as two words, low-order word first.
  function LengthBytes(len: nat): (b: seq<byte>)
    ensures |b| == 8
  {
    var bits := 8 * len % (MODULUS * MODULUS);
    ToBytes(bits % MODULUS) + ToBytes(bits / MODULUS)
  }

  function Padding(len: nat): (p: seq<byte>)
    ensures |p| == PaddedLength(len) + 8 - len
  {
    [0x80] + seq(PaddedLength(len) - len - 1, _ => 0) + LengthBytes(len)
  }

  function Padded(msg: seq<byte>): (p: seq<byte>)
    ensures |p| == PaddedLength(|msg|) + 8
  {
    msg + Padding(|msg|)
  }

  // The message, a 1 bit, and zeros up to the length.
  lemma PaddedAt(msg: seq<byte>, i: nat)
    requires i < |Padded(msg)|
    ensures i < |msg| ==> Padded(msg)[i] == msg[i]
    ensures i == |msg| ==> Padded(msg)[i] == 0x80
    ensures |msg| < i < |Padded(msg)| - 8 ==> Padded(msg)[i] == 0
  {
  }

  // ---- Section 3.3: the registers

  datatype Registers = Registers(a: word, b: word, c: word, d: word)

  const INITIAL := Registers(0x67452301, 0xefcdab89, 0x98badcfe, 0x10325476)

  // The registers in hexadecimal, low-order bytes first.
  lemma InitialBytes()
    ensures Output(INITIAL) == [0x01, 0x23, 0x45, 0x67, 0x89, 0xab, 0xcd, 0xef,
                                0xfe, 0xdc, 0xba, 0x98, 0x76, 0x54, 0x32, 0x10]
  {
  }

  // ---- Section 3.4: processing in 16-word blocks

  function F(x: word, y: word, z: word): nat { Or(And(x, y), And(Not(x), z)) }

  function G(x: word, y: word, z: word): nat { Or(And(x, z), And(y, Not(z))) }

  function H(x: word, y: word, z: word): nat { Xor(Xor(x, y), z) }

  function I(x: word, y: word, z: word): nat { Xor(y, Or(x, Not(z))) }

  lemma NotBit(x: word, i: nat)
    requires i < 32
    ensures Bit(Not(x), i) == 1 - Bit(x, i)
  {
    Pow2Of32();
    ComplementBit(x, 32, i);
  }

  // In each bit position F acts as a conditional: if X then Y else Z.
  lemma FBit(x: word, y: word, z: word, i: nat)
    requires i < 32
    ensures Bit(F(x, y, z), i) == if Bit(x, i) == 1 then Bit(y, i) else Bit(z, i)
  {
    NotBit(x, i);
    OrBit(And(x, y), And(Not(x), z), i);
    AndBit(x, y, i);
    AndBit(Not(x), z, i);
  }

  // Likewise G, if Z then X else Y.
  lemma GBit(x: word, y: word, z: word, i: nat)
    requires i < 32
    ensures Bit(G(x, y, z), i) == if Bit(z, i) == 1 then Bit(x, i) else Bit(y, i)
  {
    NotBit(z, i);
    OrBit(And(x, z), And(y, Not(z)), i);
    AndBit(x, z, i);
    AndBit(y, Not(z), i);
  }

  lemma Parity(a: nat, b: nat, c: nat, d: nat, e: nat)
    requires a < 2 && b < 2 && c < 2
    requires d == (if a != b then 1 else 0) && e == if d != c then 1 else 0
    ensures e == (a + b + c) % 2
  {
  }

  // H is the parity of its inputs.
  lemma HBit(x: word, y: word, z: word, i: nat)
    ensures Bit(H(x, y, z), i) == (Bit(x, i) + Bit(y, i) + Bit(z, i)) % 2
  {
    XorBit(Xor(x, y), z, i);
    XorBit(x, y, i);
    Parity(Bit(x, i), Bit(y, i), Bit(z, i), Bit(Xor(x, y), i), Bit(H(x, y, z), i));
  }

  lemma IBit(x: word, y: word, z: word, i: nat)
    requires i < 32
    ensures Bit(I(x, y, z), i) == (Bit(y, i) + if Bit(x, i) == 1 || Bit(z, i) == 0 then 1 else 0) % 2
  {
    NotBit(z, i);
    XorBit(y, Or(x, Not(z)), i);
    OrBit(x, Not(z), i);
  }

  // The three tables of section 3.4, by operation: the sines T[1..64], the word each
  // operation uses, and the amount it rotates by.
  datatype Tables = Tables(sine: seq<word>, index: seq<WordIndex>, shift: seq<Amount>) {
    predicate Sized() {
      |sine| == |index| == |shift| == 64
    }
  }

  function StandardTables(): (t: Tables)
    ensures t.Sized()
  {
    Tables(T(), seq(64, i requires 0 <= i < 64 => X_INDEX[i / 16][i % 16]),
           seq(64, i requires 0 <= i < 64 => SHIFTS[i / 16][i % 4]))
  }

  // 4294967296 times the absolute value of the sine of 1, 2, ... 64, round by round.
  const SINES: seq<seq<word>> := [
    [0xd76aa478, 0xe8c7b756, 0x242070db, 0xc1bdceee, 0xf57c0faf, 0x4787c62a, 0xa8304613, 0xfd469501,
     0x698098d8, 0x8b44f7af, 0xffff5bb1, 0x895cd7be, 0x6b901122, 0xfd987193, 0xa679438e, 0x49b40821],
    [0xf61e2562, 0xc040b340, 0x265e5a51, 0xe9b6c7aa, 0xd62f105d, 0x02441453, 0xd8a1e681, 0xe7d3fbc8,
     0x21e1cde6, 0xc33707d6, 0xf4d50d87, 0x455a14ed, 0xa9e3e905, 0xfcefa3f8, 0x676f02d9, 0x8d2a4c8a],
    [0xfffa3942, 0x8771f681, 0x6d9d6122, 0xfde5380c, 0xa4beea44, 0x4bdecfa9, 0xf6bb4b60, 0xbebfbc70,
     0x289b7ec6, 0xeaa127fa, 0xd4ef3085, 0x04881d05, 0xd9d4d039, 0xe6db99e5, 0x1fa27cf8, 0xc4ac5665],
    [0xf4292244, 0x432aff97, 0xab9423a7, 0xfc93a039, 0x655b59c3, 0x8f0ccc92, 0xffeff47d, 0x85845dd1,
     0x6fa87e4f, 0xfe2ce6e0, 0xa3014314, 0x4e0811a1, 0xf7537e82, 0xbd3af235, 0x2ad7d2bb, 0xeb86d391]]

  function T(): (t: seq<word>)
    ensures |t| == 64
  {
    seq(64, i requires 0 <= i < 64 => SINES[i / 16][i % 16])
  }

  // The word each of the 64 operations uses, as listed round by round.
  const X_INDEX: seq<seq<WordIndex>> := [
    [0, 1, 2, 3, 4, 5, 6, 7, 8, 9, 10, 11, 12, 13, 14, 15],
    [1, 6, 11, 0, 5, 10, 15, 4, 9, 14, 3, 8, 13, 2, 7, 12],
    [5, 8, 11, 14, 1, 4, 7, 10, 13, 0, 3, 6, 9, 12, 15, 2],
    [0, 7, 14, 5, 12, 3, 10, 1, 8, 15, 6, 13, 4, 11, 2, 9]]

  // The rotation amounts of each round, by position in a row of four operations.
  const SHIFTS: seq<seq<Amount>> := [[7, 12, 17, 22], [5, 9, 14, 20], [4, 11, 16, 23], [6, 10, 15, 21]]

  function Auxiliary(round: nat, x: word, y: word, z: word): nat {
    match round
    case 0 => F(x, y, z)
    case 1 => G(x, y, z)
    case 2 => H(x, y, z)
    case _ => I(x, y, z)
  }

  // [abcd k s i]: a = b + ((a + Aux(b,c,d) + X[k] + T[i]) <<< s)
  function NewValue(t: Tables, i: nat, a: word, b: word, c: word, d: word, x: seq<word>): word
    requires t.Sized() && i < 64 && |x| == 16
  {
    Mixed(a, b, Auxiliary(i / 16, b, c, d), x[t.index[i]], t.sine[i], t.shift[i])
  }

  function Mixed(a: word, b: word, aux: nat, x: word, sine: word, s: Amount): word {
    Wrap(b + RotateLeft(Wrap(a + aux + x + sine), s))
  }

  // The registers never move: the operations name them in the rotating order
  // [ABCD], [DABC], [CDAB], [BCDA], and each assigns the register it names first.
  function Named(i: nat, r: Registers): Registers {
    match i % 4
    case 0 => r
    case 1 => Registers(r.d, r.a, r.b, r.c)
    case 2 => Registers(r.c, r.d, r.a, r.b)
    case _ => Registers(r.b, r.c, r.d, r.a)
  }

  function Assign(i: nat, r: Registers, v: word): Registers {
    match i % 4
    case 0 => r.(a := v)
    case 1 => r.(d := v)
    case 2 => r.(c := v)
    case _ => r.(b := v)
  }

  function Operation(t: Tables, i: nat, r: Registers, x: seq<word>): Registers
    requires t.Sized() && i < 64 && |x| == 16
  {
    var v := Named(i, r);
    Assign(i, r, NewValue(t, i, v.a, v.b, v.c, v.d, x))
  }

  // The steps f(0), f(1), ..., f(n - 1), one after another.
  function Repeat(f: (nat, Registers) -> Registers, n: nat, r: Registers): Registers {
    if n == 0 then r else f(n - 1, Repeat(f, n - 1, r))
  }

  function OperationOn(t: Tables, x: seq<word>): (nat, Registers) -> Registers
    requires t.Sized() && |x| == 16
  {
    (i: nat, r: Registers) => if i < 64 then Operation(t, i, r, x) else r
  }

  function Sum(r: Registers, s: Registers): Registers {
    Registers(Wrap(r.a + s.a), Wrap(r.b + s.b), Wrap(r.c + s.c), Wrap(r.d + s.d))
  }

  function ProcessBlock(t: Tables, r: Registers, x: seq<word>): Registers
    requires t.Sized() && |x| == 16
  {
    Sum(r, Repeat(OperationOn(t, x), |t.sine|, r))
  }

  // The n-th 16-word block of a buffer.
  function BlockWords(p: seq<byte>, n: nat): (x: seq<word>)
    requires 64 * n + 64 <= |p|
    ensures |x| == 16
  {
    seq(16, j requires 0 <= j < 16 => ToWord(p[64 * n + 4 * j..64 * n + 4 * j + 4]))
  }

  // Words are made of four consecutive bytes, low-order byte first.
  lemma BlockWordsAt(p: seq<byte>, n: nat, j: nat)
    requires 64 * n + 64 <= |p| && j < 16
    ensures var b: seq<int> := p[64 * n + 4 * j..64 * n + 4 * j + 4];
            BlockWords(p, n)[j] == b[0] + b[1] * 0x100 + b[2] * 0x1_0000 + b[3] * 0x100_0000
  {
  }

  function BlockOf(t: Tables, p: seq<byte>): (nat, Registers) -> Registers
    requires t.Sized()
  {
    (n: nat, r: Registers) => if 64 * n + 64 <= |p| then ProcessBlock(t, r, BlockWords(p, n)) else r
  }

  // ---- Section 3.5: output

  function Output(r: Registers): (b: seq<byte>)
    ensures |b| == 16
  {
    ToBytes(r.a) + ToBytes(r.b) + ToBytes(r.c) + ToBytes(r.d)
  }

  function DigestWith(t: Tables, msg: seq<byte>): (b: seq<byte>)
    requires t.Sized()
    ensures |b| == 16
  {
    Output(Repeat(BlockOf(t, Padded(msg)), |Padded(msg)| / 64, INITIAL))
  }

  function Digest(msg: seq<byte>): (b: seq<byte>)
    ensures |b| == 16
  {
    DigestWith(StandardTables(), msg)
  }
}
