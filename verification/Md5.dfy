// The imperative MD5 behind the login tokens, refined to RFC 1321
// (src/core/TokenValidator.cpp, md5).

module Md5 {
  import opened Bits
  import opened Bytes
  import ByteStreams
  import opened Md5Rfc

  // The per-step rotation amounts: the source's table of 64, in its four rows.
  const R: seq<seq<Amount>> := [
    [7, 12, 17, 22, 7, 12, 17, 22, 7, 12, 17, 22, 7, 12, 17, 22],
    [5, 9, 14, 20, 5, 9, 14, 20, 5, 9, 14, 20, 5, 9, 14, 20],
    [4, 11, 16, 23, 4, 11, 16, 23, 4, 11, 16, 23, 4, 11, 16, 23],
    [6, 10, 15, 21, 6, 10, 15, 21, 6, 10, 15, 21, 6, 10, 15, 21]]

  function RotateAmounts(): (r: seq<Amount>)
    ensures |r| == 64
  {
    seq(64, i requires 0 <= i < 64 => R[i / 16][i % 16])
  }

  // to_bytes, into a buffer at an offset.
  method WriteWord(val: word, bytes: array<byte>, at: nat)
    requires at + 4 <= bytes.Length
    modifies bytes
    ensures bytes[..] == old(bytes[..at]) + ToBytes(val) + old(bytes[at + 4..])
  {
    bytes[at] := val % 0x100;
    bytes[at + 1] := val / 0x100 % 0x100;
    bytes[at + 2] := val / 0x1_0000 % 0x100;
    bytes[at + 3] := val / 0x100_0000 % 0x100;
  }

  // to_int32 and to_bytes undo each other.
  lemma ReadWrittenWord(w: word)
    ensures ToWord(ToBytes(w)) == w
  {
    ByteStreams.ReadWrittenUint32(w);
    assert forall i :: 0 <= i < 4 ==> ToBytes(w)[i] == ByteStreams.Uint32Bytes(w)[3 - i];
  }

  // The last eight bytes are the number of bits modulo 2^64, low-order byte first.
  lemma LengthBytesMean(len: nat)
    ensures ToWord(LengthBytes(len)[..4]) + MODULUS * ToWord(LengthBytes(len)[4..]) == 8 * len % (MODULUS * MODULUS)
  {
    var bits := 8 * len % (MODULUS * MODULUS);
    assert LengthBytes(len)[..4] == ToBytes(bits % MODULUS);
    assert LengthBytes(len)[4..] == ToBytes(bits / MODULUS);
    ReadWrittenWord(bits % MODULUS);
    ReadWrittenWord(bits / MODULUS);
  }

  // The two words the source computes with size_t and uint32 wrap-around hold the 64-bit
  // count of bits.
  lemma LengthWords(len: nat)
    ensures var bits := 8 * len % (MODULUS * MODULUS);
            && len * 8 % (MODULUS * MODULUS) % MODULUS == bits % MODULUS
            && len / 0x2000_0000 % MODULUS == bits / MODULUS
  {
    var bits := 8 * len % (MODULUS * MODULUS);
    var q := 8 * len / (MODULUS * MODULUS);
    assert 8 * len == q * (MODULUS * MODULUS) + bits;
    assert len == q * 0x2000_0000_0000_0000 + bits / 8;
    assert len / 0x2000_0000 == q * MODULUS + bits / MODULUS;
  }

  // The loop that looks for the length finds the least one.
  method NewLength(initialLen: nat) returns (newLen: nat)
    ensures newLen == PaddedLength(initialLen)
  {
    PaddedLengthIsLeast(initialLen, PaddedLength(initialLen));
    newLen := initialLen + 1;
    while newLen % 64 != 56
      invariant initialLen + 1 <= newLen <= PaddedLength(initialLen)
      decreases PaddedLength(initialLen) - newLen
    {
      newLen := newLen + 1;
    }
    PaddedLengthIsLeast(initialLen, newLen);
  }

  method Pad(initialMsg: seq<byte>) returns (msg: array<byte>, newLen: nat)
    requires |initialMsg| + 72 < MODULUS * MODULUS
    ensures fresh(msg) && msg[..] == Padded(initialMsg) && newLen == PaddedLength(|initialMsg|)
  {
    var initialLen := |initialMsg|;
    newLen := NewLength(initialLen);
    msg := new byte[newLen + 8];
    forall i | 0 <= i < initialLen {
      msg[i] := initialMsg[i];
    }
    msg[initialLen] := 0x80;
    var offset := initialLen + 1;
    while offset < newLen
      invariant initialLen + 1 <= offset <= newLen
      invariant msg[..initialLen + 1] == initialMsg + [0x80]
      invariant forall i :: initialLen + 1 <= i < offset ==> msg[i] == 0
    {
      msg[offset] := 0;
      offset := offset + 1;
    }
    ghost var zeros := seq(newLen - initialLen - 1, _ => 0 as byte);
    assert msg[..newLen] == initialMsg + ([0x80] + zeros);
    WriteLength(initialLen, msg, newLen);
    PaddedParts(initialMsg, zeros);
  }

  lemma PaddedParts(msg: seq<byte>, zeros: seq<byte>)
    requires |zeros| == PaddedLength(|msg|) - |msg| - 1 && forall i :: 0 <= i < |zeros| ==> zeros[i] == 0
    ensures msg + ([0x80] + zeros) + LengthBytes(|msg|) == Padded(msg)
  {
  }

  method WriteLength(initialLen: nat, msg: array<byte>, newLen: nat)
    requires msg.Length == newLen + 8
    modifies msg
    ensures msg[..] == old(msg[..newLen]) + LengthBytes(initialLen)
  {
    LengthWords(initialLen);
    WriteWord(initialLen * 8 % (MODULUS * MODULUS) % MODULUS, msg, newLen);
    WriteWord(initialLen / 0x2000_0000 % MODULUS, msg, newLen + 4);
  }

  // ---- The main loop

  // The source's four variables hold the registers in the order the next operation names
  // them: it moves the values where the RFC renames the registers.
  lemma {:induction false} ShiftedStepIsRenamedStep(t: Tables, i: nat, r: Registers, x: seq<word>)
    requires t.Sized() && i < 64 && |x| == 16
    ensures var n := Named(i, r);
            Named(i + 1, Operation(t, i, r, x)) == Registers(n.d, NewValue(t, i, n.a, n.b, n.c, n.d, x), n.b, n.c)
  {
    var n := Named(i, r);
    AssignNamed(i, r, NewValue(t, i, n.a, n.b, n.c, n.d, x));
  }

  lemma AssignNamed(i: nat, r: Registers, v: word)
    ensures var n := Named(i, r);
            Named(i + 1, Assign(i, r, v)) == Registers(n.d, v, n.b, n.c)
  {
  }

  // The LEFTROTATE macro: the two shifted parts share no bits, so `|` is a sum.
  function LeftRotate(x: word, c: Amount): int {
    x * Pow2(c) % MODULUS + x / Pow2(32 - c)
  }

  lemma {:induction false} Pow2Splits(c: nat)
    requires c <= 32
    ensures Pow2(c) * Pow2(32 - c) == MODULUS
    decreases c
  {
    if c == 0 {
      Pow2Of32();
    } else {
      Pow2Splits(c - 1);
      Associate(Pow2(c - 1), 2, Pow2(32 - c));
    }
  }

  lemma MulLe(a: nat, b: nat, d: nat)
    requires a <= b
    ensures a * d <= b * d
  {
  }

  lemma DivMod(n: nat, d: nat)
    requires d > 0
    ensures n == n / d * d + n % d && 0 <= n / d && 0 <= n % d < d
  {
  }

  lemma QuotientUnique(n: nat, d: nat, q: nat, r: nat)
    requires d > 0 && n == q * d + r && r < d
    ensures n / d == q && n % d == r
  {
    DivMod(n, d);
    var q2 := n / d;
    assert (q2 + 1) * d == q2 * d + d && (q + 1) * d == q * d + d;
    if q2 < q {
      MulLe(q2 + 1, q, d);
    } else if q < q2 {
      MulLe(q + 1, q2, d);
    }
  }

  // With p * d = 2^32 and x = hi * d + lo: the low part is shifted up by p, and the two
  // parts of the rotated word do not overlap.
  lemma ShiftParts(x: word, p: nat, d: nat, hi: nat, lo: nat)
    requires p * d == MODULUS && x == hi * d + lo && lo < d
    ensures hi < p && lo * p + hi < MODULUS
    ensures x * p % MODULUS == lo * p
  {
    if hi >= p {
      MulLe(p, hi, d);
    }
    MulLe(lo + 1, d, p);
    assert (lo + 1) * p == lo * p + p;
    assert x * p == hi * (p * d) + lo * p;
    QuotientUnique(x * p, MODULUS, hi, lo * p);
  }

  // One more bit: when y is x rotated with its parts split at 2d, rotating y by one bit
  // is x rotated with its parts split at d.
  lemma RotateOnce(x: word, p: nat, d: nat, hi: nat, lo: nat, y: nat)
    requires 2 * p * d == MODULUS && x == hi * d + lo && lo < d
    requires y == (hi % 2 * d + lo) * p + hi / 2
    ensures 2 * y % MODULUS + 2 * y / MODULUS == lo * (2 * p) + hi
  {
    var bit := hi % 2;
    assert 2 * y == bit * MODULUS + (lo * (2 * p) + hi - bit) by {
      assert 2 * ((bit * d + lo) * p) == bit * (2 * p * d) + lo * (2 * p);
    }
    ShiftParts(x, 2 * p, d, hi, lo);
    QuotientUnique(2 * y, MODULUS, bit, lo * (2 * p) + hi - bit);
  }

  lemma SplitAtDouble(x: nat, d: nat)
    requires d > 0
    ensures x / (2 * d) == x / d / 2 && x % (2 * d) == x / d % 2 * d + x % d
  {
    DivMod(x, d);
    var hi, lo := x / d, x % d;
    assert x == hi / 2 * (2 * d) + (hi % 2 * d + lo) by {
      assert (hi / 2 * 2 + hi % 2) * d == hi / 2 * (2 * d) + hi % 2 * d;
    }
    QuotientUnique(x, 2 * d, hi / 2, hi % 2 * d + lo);
  }

  // y is x with its parts, split at d, exchanged: the low one is shifted up by p.
  predicate Exchanged(x: nat, p: nat, d: nat, y: nat)
    requires d > 0
  {
    y == x % d * p + x / d
  }

  lemma RotateStep(x: word, p: nat, d: nat, y: nat)
    requires 2 * p * d == MODULUS && d > 0 && Exchanged(x, p, 2 * d, y)
    ensures Exchanged(x, 2 * p, d, 2 * y % MODULUS + 2 * y / MODULUS)
  {
    SplitAtDouble(x, d);
    DivMod(x, d);
    RotateOnce(x, p, d, x / d, x % d, y);
  }

  lemma HalfMoved(c: nat)
    requires 0 < c <= 32
    ensures Pow2(c) == 2 * Pow2(c - 1) && Pow2(32 - (c - 1)) == 2 * Pow2(32 - c)
    ensures 2 * Pow2(c - 1) * Pow2(32 - c) == MODULUS
  {
    Pow2Splits(c);
  }

  lemma NotRotated(x: word)
    ensures Exchanged(x, Pow2(0), Pow2(32), x)
  {
    Pow2Of32();
  }

  lemma {:induction false} RotateExchanges(x: word, c: nat)
    requires c < 32
    ensures Exchanged(x, Pow2(c), Pow2(32 - c), RotateLeft(x, c))
    decreases c
  {
    if c == 0 {
      NotRotated(x);
    } else {
      RotateExchanges(x, c - 1);
      HalfMoved(c);
      RotateStep(x, Pow2(c - 1), Pow2(32 - c), RotateLeft(x, c - 1));
    }
  }

  // Shifting by c and or-ing is rotating by one bit, c times.
  lemma {:induction false} RotateFormula(x: word, c: Amount)
    ensures RotateLeft(x, c) == LeftRotate(x, c)
    decreases c
  {
    RotateExchanges(x, c);
    Pow2Splits(c);
    DivMod(x, Pow2(32 - c));
    ShiftParts(x, Pow2(c), Pow2(32 - c), x / Pow2(32 - c), x % Pow2(32 - c));
  }

  // The formulas from which the source computes the word index g.
  function Formula(i: nat): WordIndex {
    if i < 16 then i else if i < 32 then (5 * i + 1) % 16 else if i < 48 then (3 * i + 5) % 16 else 7 * i % 16
  }

  // The first n listed word indices follow the formulas.
  ghost predicate FollowsFormula(index: seq<WordIndex>, n: nat)
    requires n <= |index|
  {
    n == 0 || (FollowsFormula(index, n - 1) && index[n - 1] == Formula(n - 1))
  }

  lemma {:induction false} FollowsAt(index: seq<WordIndex>, n: nat, i: nat)
    requires i < n <= |index| && FollowsFormula(index, n)
    ensures index[i] == Formula(i)
  {
    if i < n - 1 {
      FollowsAt(index, n - 1, i);
    }
  }

  // The rows of the table, by position.
  lemma Row1(j: nat)
    requires j < 16
    ensures X_INDEX[1][j] == (5 * j + 1) % 16
  {
  }

  lemma Row2(j: nat)
    requires j < 16
    ensures X_INDEX[2][j] == (3 * j + 5) % 16
  {
  }

  lemma Row3(j: nat)
    requires j < 16
    ensures X_INDEX[3][j] == 7 * j % 16
  {
  }

  lemma IndexRound1(i: nat)
    requires 16 <= i < 32
    ensures X_INDEX[i / 16][i % 16] == (5 * i + 1) % 16
  {
    Row1(i - 16);
  }

  lemma IndexRound2(i: nat)
    requires 32 <= i < 48
    ensures X_INDEX[i / 16][i % 16] == (3 * i + 5) % 16
  {
    Row2(i - 32);
  }

  lemma IndexRound3(i: nat)
    requires 48 <= i < 64
    ensures X_INDEX[i / 16][i % 16] == 7 * i % 16
  {
    Row3(i - 48);
  }

  lemma IndexRound0(i: nat)
    requires i < 16
    ensures X_INDEX[i / 16][i % 16] == i
  {
  }

  lemma {:induction false} IndexIsFormula(i: nat)
    requires i < 64
    ensures StandardTables().index[i] == Formula(i)
  {
    if i < 16 {
      IndexRound0(i);
    } else if i < 32 {
      IndexRound1(i);
    } else if i < 48 {
      IndexRound2(i);
    } else {
      IndexRound3(i);
    }
  }

  lemma {:induction false} IndicesFollowFormulas(n: nat)
    requires n <= 64
    ensures FollowsFormula(StandardTables().index, n)
  {
    if n > 0 {
      IndicesFollowFormulas(n - 1);
      IndexIsFormula(n - 1);
    }
  }

  // The source's table of amounts repeats the four amounts of each round.
  lemma AmountsAreShifts()
    ensures RotateAmounts() == StandardTables().shift
  {
    forall i | 0 <= i < 64 ensures RotateAmounts()[i] == StandardTables().shift[i] {
      AmountIsShift(i, i / 16);
    }
  }

  lemma AmountIsShift(i: nat, round: nat)
    requires 16 * round <= i < 16 * round + 16 && round < 4
    ensures R[i / 16][i % 16] == SHIFTS[i / 16][i % 4]
  {
    var j := i - 16 * round;
    assert i / 16 == round && i % 16 == j && i % 4 == j % 4;
    RowRepeats(round, j);
  }

  lemma RowRepeats(round: nat, j: nat)
    requires round < 4 && j < 16
    ensures R[round][j] == SHIFTS[round][j % 4]
  {
    match round
    case 0 => assert R[0][j] == SHIFTS[0][j % 4];
    case 1 => assert R[1][j] == SHIFTS[1][j % 4];
    case 2 => assert R[2][j] == SHIFTS[2][j % 4];
    case _ => assert R[3][j] == SHIFTS[3][j % 4];
  }

  // The source's case distinction on the step number: the mixed word f and the index g.
  method Mix(i: nat, b: word, c: word, d: word, ghost t: Tables) returns (f: nat, g: WordIndex)
    requires i < 64 && Implements(t.sine, t.shift, t)
    ensures f == Auxiliary(i / 16, b, c, d) && g == t.index[i]
  {
    FollowsAt(t.index, |t.index|, i);
    if i < 16 {
      assert i / 16 == 0;
      f := Or(And(b, c), And(Not(b), d));
      g := i;
    } else if i < 32 {
      assert i / 16 == 1;
      f := Or(And(d, b), And(Not(d), c));
      g := (5 * i + 1) % 16;
      AndCommutes(d, b);
      AndCommutes(Not(d), c);
    } else if i < 48 {
      assert i / 16 == 2;
      f := Xor(Xor(b, c), d);
      g := (3 * i + 5) % 16;
    } else {
      assert i / 16 == 3;
      f := Xor(c, Or(b, Not(d)));
      g := (7 * i) % 16;
    }
  }

  // The value a step gives to b.
  method StepValue(k: seq<word>, r: seq<Amount>, i: nat, a: word, b: word, c: word, d: word, w: seq<word>,
                   ghost t: Tables)
    returns (v: nat)
    requires Implements(k, r, t) && i < 64 && |w| == 16
    ensures v == NewValue(t, i, a, b, c, d, w)
  {
    var f, g := Mix(i, b, c, d, t);
    v := Combine(a, b, f, w[g], k[i], r[i]);
  }

  method Combine(a: word, b: word, f: nat, w: word, k: word, r: Amount) returns (v: nat)
    ensures v == Mixed(a, b, f, w, k, r)
  {
    var sum := Wrap(a + f + k + w);
    RotateFormula(sum, r);
    v := Wrap(b + LeftRotate(sum, r));
  }

  // The constants k and r of the source stand for the tables of the RFC.
  ghost predicate Implements(k: seq<word>, r: seq<Amount>, t: Tables) {
    t.Sized() && k == t.sine && r == t.shift && FollowsFormula(t.index, |t.index|)
  }

  // One step of the main loop; s holds the registers of the RFC before it.
  method Step(k: seq<word>, r: seq<Amount>, i: nat, v: Registers, w: seq<word>, ghost t: Tables, ghost s: Registers)
    returns (v': Registers)
    requires Implements(k, r, t) && i < 64 && |w| == 16 && v == Named(i, s)
    ensures v' == Named(i + 1, Operation(t, i, s, w))
  {
    var a, b, c, d := v.a, v.b, v.c, v.d;
    var temp := d;
    d := c;
    c := b;
    b := StepValue(k, r, i, v.a, v.b, v.c, v.d, w, t);
    a := temp;
    v' := Registers(a, b, c, d);
    ShiftedStepIsRenamedStep(t, i, s, w);
  }

  // f performs the operations on a block. The triggers keep the loops from unfolding it.
  ghost predicate Performs(f: (nat, Registers) -> Registers, t: Tables, x: seq<word>)
    requires t.Sized() && |x| == 16
  {
    forall i: nat, s {:trigger f(i, s), Operation(t, i, s, x)} :: i < 64 ==> f(i, s) == Operation(t, i, s, x)
  }

  method MainLoop(k: seq<word>, r: seq<Amount>, w: seq<word>, h: Registers, ghost t: Tables,
                  ghost f: (nat, Registers) -> Registers)
    returns (v: Registers)
    requires Implements(k, r, t) && |w| == 16 && Performs(f, t, w)
    ensures v == Repeat(f, |t.sine|, h)
  {
    v := h;
    ghost var s := h;
    var i := 0;
    while i < 64
      invariant i <= |t.sine|
      invariant s == Repeat(f, i, h) && v == Named(i, s)
    {
      v := Step(k, r, i, v, w, t, s);
      assert f(i, s) == Operation(t, i, s, w);
      s := f(i, s);
      i := i + 1;
    }
  }

  lemma OperationsPerform(t: Tables, x: seq<word>)
    requires t.Sized() && |x| == 16
    ensures Performs(OperationOn(t, x), t, x)
  {
  }

  method AddTo(h: Registers, v: Registers) returns (h': Registers)
    ensures h' == Sum(h, v)
  {
    h' := Registers(Wrap(h.a + v.a), Wrap(h.b + v.b), Wrap(h.c + v.c), Wrap(h.d + v.d));
  }

  method AddChunk(k: seq<word>, r: seq<Amount>, w: seq<word>, h: Registers, ghost t: Tables) returns (h': Registers)
    requires Implements(k, r, t) && |w| == 16
    ensures h' == ProcessBlock(t, h, w)
  {
    OperationsPerform(t, w);
    var v := MainLoop(k, r, w, h, t, OperationOn(t, w));
    h' := AddTo(h, v);
  }

  ghost predicate Processes(f: (nat, Registers) -> Registers, t: Tables, p: seq<byte>)
    requires t.Sized()
  {
    forall n: nat, s {:trigger f(n, s), BlockOf(t, p)(n, s)} :: f(n, s) == BlockOf(t, p)(n, s)
  }

  method NextChunk(k: seq<word>, r: seq<Amount>, msg: array<byte>, offset: nat, h: Registers, ghost t: Tables,
                   ghost n: nat, ghost f: (nat, Registers) -> Registers)
    returns (h': Registers)
    requires Implements(k, r, t) && Processes(f, t, msg[..]) && offset == 64 * n && offset + 64 <= msg.Length
    ensures h' == f(n, h)
  {
    var w := ReadBlock(msg, offset, n);
    h' := AddChunk(k, r, w, h, t);
    assert f(n, h) == BlockOf(t, msg[..])(n, h);
  }

  // All the blocks of a padded buffer.
  method Chunks(k: seq<word>, r: seq<Amount>, msg: array<byte>, newLen: nat, ghost t: Tables, ghost blocks: nat,
                ghost f: (nat, Registers) -> Registers)
    returns (h: Registers)
    requires Implements(k, r, t) && Processes(f, t, msg[..]) && msg.Length == newLen + 8 == 64 * blocks
    ensures h == Repeat(f, blocks, INITIAL)
  {
    h := INITIAL;
    var offset := 0;
    ghost var n := 0;
    while offset < newLen
      invariant offset == 64 * n && n <= blocks
      invariant h == Repeat(f, n, INITIAL)
    {
      h := NextChunk(k, r, msg, offset, h, t, n, f);
      offset := offset + 64;
      n := n + 1;
    }
  }

  lemma WholeBlocks(newLen: nat)
    requires (newLen + 8) % 64 == 0
    ensures (newLen + 8) / 64 * 64 == newLen + 8
  {
  }

  method WriteOutput(h: Registers, digest: array<byte>)
    requires digest.Length >= 16
    modifies digest
    ensures digest[..] == Output(h) + old(digest[16..])
  {
    ghost var before := digest[..];
    WriteWord(h.a, digest, 0);
    assert digest[..] == ToBytes(h.a) + before[4..];
    WriteWord(h.b, digest, 4);
    assert digest[..] == ToBytes(h.a) + ToBytes(h.b) + before[8..];
    WriteWord(h.c, digest, 8);
    assert digest[..] == ToBytes(h.a) + ToBytes(h.b) + ToBytes(h.c) + before[12..];
    WriteWord(h.d, digest, 12);
  }

  method HashMessage(k: seq<word>, r: seq<Amount>, initialMsg: seq<byte>, ghost t: Tables) returns (h: Registers)
    requires Implements(k, r, t) && |initialMsg| + 72 < MODULUS * MODULUS
    ensures h == Repeat(BlockOf(t, Padded(initialMsg)), |Padded(initialMsg)| / 64, INITIAL)
  {
    var msg, newLen := Pad(initialMsg);
    h := HashBuffer(k, r, msg, newLen, t);
  }

  method HashBuffer(k: seq<word>, r: seq<Amount>, msg: array<byte>, newLen: nat, ghost t: Tables)
    returns (h: Registers)
    requires Implements(k, r, t) && msg.Length == newLen + 8 && (newLen + 8) % 64 == 0
    ensures h == Repeat(BlockOf(t, msg[..]), msg.Length / 64, INITIAL)
  {
    WholeBlocks(newLen);
    h := Chunks(k, r, msg, newLen, t, (newLen + 8) / 64, BlockOf(t, msg[..]));
  }

  method DigestWithTables(k: seq<word>, r: seq<Amount>, initialMsg: seq<byte>, digest: array<byte>, ghost t: Tables)
    requires Implements(k, r, t)
    requires |initialMsg| + 72 < MODULUS * MODULUS && digest.Length >= 16
    modifies digest
    ensures digest[..] == DigestWith(t, initialMsg) + old(digest[16..])
  {
    var h := HashMessage(k, r, initialMsg, t);
    WriteOutput(h, digest);
  }

  // The digest of any message, of whatever length a size_t can count.
  method Md5(initialMsg: seq<byte>, digest: array<byte>)
    requires |initialMsg| + 72 < MODULUS * MODULUS && digest.Length >= 16
    modifies digest
    ensures digest[..] == Digest(initialMsg) + old(digest[16..])
  {
    SourceTablesImplement();
    DigestWithTables(T(), RotateAmounts(), initialMsg, digest, StandardTables());
  }

  lemma SourceTablesImplement()
    ensures Implements(T(), RotateAmounts(), StandardTables())
  {
    AmountsAreShifts();
    IndicesFollowFormulas(|StandardTables().index|);
  }

  method ReadBlock(msg: array<byte>, offset: nat, ghost n: nat) returns (w: seq<word>)
    requires offset == 64 * n && offset + 64 <= msg.Length
    ensures w == BlockWords(msg[..], n)
  {
    w := [];
    var i := 0;
    while i < 16
      invariant i == |w| <= 16
      invariant forall j :: 0 <= j < i ==> w[j] == BlockWords(msg[..], n)[j]
    {
      var x := ReadWord(msg, offset + i * 4, n, i);
      w := w + [x];
      i := i + 1;
    }
  }

  method ReadWord(msg: array<byte>, at: nat, ghost n: nat, ghost i: nat) returns (x: word)
    requires i < 16 && at == 64 * n + 4 * i && 64 * n + 64 <= msg.Length
    ensures x == BlockWords(msg[..], n)[i]
  {
    x := ToWord(msg[at..at + 4]);
  }
}
