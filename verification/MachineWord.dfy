// The operators of 32-bit machine words: what they make of the lowest bit and of the others.

module MachineWords {
  function Low(b: bv32): (r: nat)
    ensures r < 2
  {
    if b & 1 == 1 then 1 else 0
  }

  function Half(b: bv32): bv32 { b >> 1 }

  lemma AndHalves(b: bv32, c: bv32)
    ensures Half(b & c) == Half(b) & Half(c) && Low(b & c) == if Low(b) == 1 && Low(c) == 1 then 1 else 0
  {
  }

  lemma OrHalves(b: bv32, c: bv32)
    ensures Half(b | c) == Half(b) | Half(c) && Low(b | c) == if Low(b) == 1 || Low(c) == 1 then 1 else 0
  {
  }

  lemma XorParts(b: bv32, c: bv32)
    ensures (b ^ c) | (b & c) == b | c && (b ^ c) & (b & c) == 0
  {
  }

  lemma NotParts(b: bv32)
    ensures b | !b == 0xFFFF_FFFF && b & !b == 0
  {
  }

  // ---- Addition

  // A full adder in every position: the sum s and the carries m of three words.
  predicate FullAdder(b: bv32, c: bv32, k: bv32, s: bv32, m: bv32) {
    s == (b ^ c) ^ k && m == ((b & c) | (b & k)) | (c & k)
  }

  lemma AdderLow(b: bv32, c: bv32, k: bv32, s: bv32, m: bv32)
    requires FullAdder(b, c, k, s, m)
    ensures Low(s) + 2 * Low(m) == Low(b) + Low(c) + Low(k)
  {
  }

  lemma SumHalves(b: bv32, c: bv32, k: bv32)
    ensures Half((b ^ c) ^ k) == (Half(b) ^ Half(c)) ^ Half(k)
  {
  }

  lemma CarriesHalves(b: bv32, c: bv32, k: bv32)
    ensures Half(((b & c) | (b & k)) | (c & k)) == ((Half(b) & Half(c)) | (Half(b) & Half(k))) | (Half(c) & Half(k))
  {
  }

  lemma AdderHalves(b: bv32, c: bv32, k: bv32, s: bv32, m: bv32)
    requires FullAdder(b, c, k, s, m)
    ensures FullAdder(Half(b), Half(c), Half(k), Half(s), Half(m))
  {
    SumHalves(b, c, k);
    CarriesHalves(b, c, k);
  }

  // The n lowest bits.
  function Mask(n: nat): bv32 { if n == 0 then 0 else Wider(Mask(n - 1)) }

  function Double(b: bv32): bv32 { b << 1 }

  function Wider(q: bv32): bv32 { (q << 1) | 1 }

  predicate IsMask(q: bv32) { q & (q + 1) == 0 }

  predicate Agree(b: bv32, c: bv32, q: bv32) { b & q == c & q }

  lemma WiderIsMask(q: bv32)
    requires IsMask(q)
    ensures IsMask(Wider(q))
  {
  }

  lemma Start(b: bv32, c: bv32)
    ensures Agree(b, c, 0) && IsMask(0)
  {
  }

  // Bit by bit, from the lowest on.
  lemma {:induction false} AgreeBelow(b: bv32, c: bv32, n: nat)
    requires forall q {:trigger Agree(b, c, q)} :: IsMask(q) && Agree(b, c, q) ==> Agree(b, c, Wider(q))
    ensures Agree(b, c, Mask(n)) && IsMask(Mask(n))
  {
    if n > 0 {
      AgreeBelow(b, c, n - 1);
      WiderIsMask(Mask(n - 1));
    } else {
      Start(b, c);
    }
  }

  lemma WholeMask(b: bv32, c: bv32)
    requires Agree(b, c, Mask(32))
    ensures b == c
  {
    AllOnes();
  }

  lemma AllOnes()
    ensures Mask(32) == 0xFFFF_FFFF
  {
    assert Mask(8) == 0xFF;
    assert Mask(16) == 0xFFFF;
    assert Mask(24) == 0xFF_FFFF;
  }

  // A sum, the carries k into its positions, those m out of them, and h, those moved up by one.
  predicate Adds(b: bv32, c: bv32, s: bv32, k: bv32, m: bv32, h: bv32) {
    s == b + c && k == (b ^ c) ^ s && m == ((b & c) | (b & k)) | (c & k) && h == m << 1
  }

  lemma NextCarry(b: bv32, c: bv32, s: bv32, k: bv32, m: bv32, h: bv32, q: bv32)
    requires Adds(b, c, s, k, m, h) && Agree(k, h, q) && IsMask(q)
    ensures Agree(k, h, Wider(q))
  {
  }

  // A carry into a position is one out of the position below.
  lemma CarriesShift(b: bv32, c: bv32, s: bv32, k: bv32, m: bv32, h: bv32)
    requires Adds(b, c, s, k, m, h)
    ensures k == h
  {
    forall q | IsMask(q) && Agree(k, h, q) ensures Agree(k, h, Wider(q)) {
      NextCarry(b, c, s, k, m, h, q);
    }
    AgreeBelow(k, h, 32);
    WholeMask(k, h);
  }

  lemma AddsFully(b: bv32, c: bv32, s: bv32, k: bv32, m: bv32, h: bv32)
    requires Adds(b, c, s, k, m, h)
    ensures FullAdder(b, c, k, s, m)
  {
  }

  lemma Sums(b: bv32, c: bv32) returns (k: bv32, m: bv32)
    ensures Adds(b, c, b + c, k, m, Double(m))
  {
    k := (b ^ c) ^ (b + c);
    m := ((b & c) | (b & k)) | (c & k);
  }

  // Addition is a full adder that is fed its own carries.
  lemma Addition(b: bv32, c: bv32) returns (k: bv32, m: bv32)
    ensures FullAdder(b, c, k, b + c, m) && k == Double(m)
  {
    k, m := Sums(b, c);
    AddsFully(b, c, b + c, k, m, Double(m));
    CarriesShift(b, c, b + c, k, m, Double(m));
  }

  // ---- The highest bit

  function Top(b: bv32): bv32 { b & 0x8000_0000 }

  function BelowTop(b: bv32): bv32 { b & 0x7FFF_FFFF }

  lemma TopParts(b: bv32)
    ensures BelowTop(b) | Top(b) == b && BelowTop(b) & Top(b) == 0
  {
  }

  lemma TopValues(b: bv32)
    ensures Top(b) == 0 || Top(b) == 0x8000_0000
  {
  }

  lemma Shifted(m: bv32)
    ensures Low(Double(m)) == 0 && Half(Double(m)) == BelowTop(m)
  {
  }

  // ---- Rotation

  function Rotated(b: bv32, s: bv32): bv32
    requires s < 32
  {
    (b << s) | (b >> (32 - s))
  }

  lemma NoTurn(b: bv32)
    ensures Rotated(b, 0) == b
  {
  }

  function Once(b: bv32): bv32 { (b << 1) | (b >> 31) }

  lemma OneMore(b: bv32, s: bv32)
    requires s < 31
    ensures Once(Rotated(b, s)) == Rotated(b, s + 1)
  {
  }

  lemma OnceParts(b: bv32)
    ensures Low(Once(b)) == (if Top(b) == 0 then 0 else 1) && Half(Once(b)) == BelowTop(b)
  {
  }
}
