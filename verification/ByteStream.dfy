// Big-endian integers in byte buffers (src/core/UtilPdu.cpp, CByteStream).

module ByteStreams {
  import opened Bytes
  import opened Options

  // `|` of shifted bytes occupies disjoint bit ranges, so it is written as a sum.
  function Big16(b0: nat, b1: nat): nat {
    b0 * 0x100 + b1
  }

  function Big32(b0: nat, b1: nat, b2: nat, b3: nat): nat {
    b0 * 0x100_0000 + b1 * 0x1_0000 + b2 * 0x100 + b3
  }

  function ReadUint16(b: seq<byte>): (v: uint16)
    requires |b| >= 2
  {
    Big16(b[0], b[1])
  }

  function ReadUint32(b: seq<byte>): (v: uint32)
    requires |b| >= 4
  {
    Big32(b[0], b[1], b[2], b[3])
  }

  function Uint16Bytes(v: uint16): (b: seq<byte>)
    ensures |b| == 2
  {
    [v / 0x100, v % 0x100]
  }

  function Uint32Bytes(v: uint32): (b: seq<byte>)
    ensures |b| == 4
  {
    [v / 0x100_0000, v / 0x1_0000 % 0x100, v / 0x100 % 0x100, v % 0x100]
  }

  // ---- Halves

  lemma Divided(q: nat, d: nat, r: nat)
    requires d in {0x100, 0x1_0000, 0x100_0000} && r < d
    ensures (q * d + r) / d == q && (q * d + r) % d == r
  {
  }

  lemma ReadWrittenUint16(v: uint16)
    ensures Big16(v / 0x100, v % 0x100) == v
  {
  }

  lemma {:induction false} WriteReadUint16(b0: byte, b1: byte)
    ensures Uint16Bytes(Big16(b0, b1)) == [b0, b1]
  {
    Divided(b0, 0x100, b1);
  }

  // The bytes of a number are those of its halves.
  lemma BytesOfHalves(hi: uint16, lo: uint16)
    ensures Uint32Bytes(hi * 0x1_0000 + lo) == Uint16Bytes(hi) + Uint16Bytes(lo)
  {
    FirstByte(hi, lo);
    Divided(hi, 0x1_0000, lo);
    LowBytes(hi, lo);
  }

  lemma FirstByte(hi: uint16, lo: uint16)
    ensures (hi * 0x1_0000 + lo) / 0x100_0000 == hi / 0x100
  {
    Divided(hi / 0x100, 0x100_0000, hi % 0x100 * 0x1_0000 + lo);
  }

  lemma LowBytes(hi: uint16, lo: uint16)
    ensures (hi * 0x1_0000 + lo) / 0x100 % 0x100 == lo / 0x100
    ensures (hi * 0x1_0000 + lo) % 0x100 == lo % 0x100
  {
    Divided(hi * 0x100 + lo / 0x100, 0x100, lo % 0x100);
    Divided(hi, 0x100, lo / 0x100);
  }

  lemma ReadWrittenUint32(v: uint32)
    ensures ReadUint32(Uint32Bytes(v)) == v
  {
    var hi, lo := v / 0x1_0000, v % 0x1_0000;
    BytesOfHalves(hi, lo);
    ReadWrittenUint16(hi);
    ReadWrittenUint16(lo);
  }

  lemma Joined(b0: byte, b1: byte, b2: byte, b3: byte)
    ensures Big32(b0, b1, b2, b3) == Big16(b0, b1) * 0x1_0000 + Big16(b2, b3)
  {
  }

  lemma {:induction false} WriteReadUint32(b: seq<byte>)
    requires |b| == 4
    ensures Uint32Bytes(ReadUint32(b)) == b
  {
    var hi, lo: uint16 := Big16(b[0], b[1]), Big16(b[2], b[3]);
    calc {
      Uint32Bytes(ReadUint32(b));
      { Joined(b[0], b[1], b[2], b[3]); }
      Uint32Bytes(hi * 0x1_0000 + lo);
      { BytesOfHalves(hi, lo); }
      Uint16Bytes(hi) + Uint16Bytes(lo);
      { WriteReadUint16(b[0], b[1]); WriteReadUint16(b[2], b[3]); }
      [b[0], b[1]] + [b[2], b[3]];
      b;
    }
  }

  // s with the bytes from position `at` on replaced by t.
  function Splice(s: seq<byte>, at: nat, t: seq<byte>): (r: seq<byte>)
    requires at + |t| <= |s|
    ensures |r| == |s|
  {
    s[..at] + t + s[at + |t|..]
  }

  lemma SplicePrefix(s: seq<byte>, n: nat, at: nat, t: seq<byte>)
    requires at + |t| <= n <= |s|
    ensures Splice(s, at, t)[..n] == Splice(s[..n], at, t)
  {
    assert s[at + |t|..][..n - at - |t|] == s[..n][at + |t|..];
  }

  method WriteUint16(buf: array<byte>, at: nat, data: uint16)
    requires at + 2 <= buf.Length
    modifies buf
    ensures buf[..] == Splice(old(buf[..]), at, Uint16Bytes(data))
  {
    buf[at] := data / 0x100;
    buf[at + 1] := data % 0x100;
  }

  // WriteUint16 right behind the prefix p, over the original bytes s.
  method AppendUint16(buf: array<byte>, at: nat, data: uint16, ghost p: seq<byte>, ghost s: seq<byte>)
    requires at + 2 <= buf.Length == |s| && |p| == at && buf[..] == p + s[at..]
    modifies buf
    ensures buf[..] == p + Uint16Bytes(data) + s[at + 2..]
  {
    WriteUint16(buf, at, data);
  }

  method WriteUint32(buf: array<byte>, at: nat, data: uint32)
    requires at + 4 <= buf.Length
    modifies buf
    ensures buf[..] == Splice(old(buf[..]), at, Uint32Bytes(data))
  {
    buf[at] := data / 0x100_0000;
    buf[at + 1] := data / 0x1_0000 % 0x100;
    buf[at + 2] := data / 0x100 % 0x100;
    buf[at + 3] := data % 0x100;
  }

  // A CByteStream over a fixed buffer, read with `>>`. A read that would pass the end
  // throws; None stands for the exception.
  class ByteStream {
    const buf: seq<byte>
    var pos: nat

    constructor (buf: seq<byte>)
      ensures this.buf == buf && pos == 0
    {
      this.buf := buf;
      pos := 0;
    }

    method GetUint16() returns (v: Option<uint16>)
      modifies this
      ensures if old(pos) + 2 > |buf| then v == None && pos == old(pos)
              else pos == old(pos) + 2 && v == Some(ReadUint16(buf[old(pos)..pos]))
    {
      if pos + 2 > |buf| {
        return None;
      }
      v := Some(Big16(buf[pos], buf[pos + 1]));
      pos := pos + 2;
    }

    method GetUint32() returns (v: Option<uint32>)
      modifies this
      ensures if old(pos) + 4 > |buf| then v == None && pos == old(pos)
              else pos == old(pos) + 4 && v == Some(ReadUint32(buf[old(pos)..pos]))
    {
      if pos + 4 > |buf| {
        return None;
      }
      v := Some(Big32(buf[pos], buf[pos + 1], buf[pos + 2], buf[pos + 3]));
      pos := pos + 4;
    }
  }
}
