// Protocol data units: a 16-byte header and a body, framed by the length in the
// header's first four bytes (src/core/ImPduBase.cpp).

module ImPdus {
  import opened Bytes
  import opened ByteStreams
  import opened SimpleBuffers

  const IM_PDU_HEADER_LEN := 16
  const IM_PDU_VERSION: uint16 := 1
  const SID_OTHER: uint16 := 7

  datatype Header = Header(length: uint32, version: uint16, flag: uint16, serviceId: uint16,
                           commandId: uint16, seqNum: uint16, reversed: uint16)

  function HeaderBytes(h: Header): (b: seq<byte>)
    ensures |b| == IM_PDU_HEADER_LEN
  {
    Uint32Bytes(h.length) + Uint16Bytes(h.version) + Uint16Bytes(h.flag) + Uint16Bytes(h.serviceId)
    + Uint16Bytes(h.commandId) + Uint16Bytes(h.seqNum) + Uint16Bytes(h.reversed)
  }

  function ParseHeader(b: seq<byte>): Header
    requires |b| >= IM_PDU_HEADER_LEN
  {
    Header(Big32(b[0], b[1], b[2], b[3]), Big16(b[4], b[5]), Big16(b[6], b[7]), Big16(b[8], b[9]),
           Big16(b[10], b[11]), Big16(b[12], b[13]), Big16(b[14], b[15]))
  }

  lemma {:induction false} HeaderRoundTrip(h: Header, body: seq<byte>)
    ensures ParseHeader(HeaderBytes(h) + body) == h
  {
    ReadWrittenUint32(h.length);
  }

  lemma {:induction false} HeaderWriteBack(b: seq<byte>)
    requires |b| == IM_PDU_HEADER_LEN
    ensures HeaderBytes(ParseHeader(b)) == b
  {
    WriteReadUint32(b[..4]);
    WriteReadUint16(b[4], b[5]);
    WriteReadUint16(b[6], b[7]);
    WriteReadUint16(b[8], b[9]);
    WriteReadUint16(b[10], b[11]);
    WriteReadUint16(b[12], b[13]);
    WriteReadUint16(b[14], b[15]);
  }

  // The number that bytes stand for, high byte first.
  function BigEndian(b: seq<byte>): nat {
    if b == [] then 0 else BigEndian(b[..|b| - 1]) * 0x100 + b[|b| - 1]
  }

  // Where the fields of a header are.
  predicate LaidOut(h: Header, b: seq<byte>)
    requires |b| >= 16
  {
    && h.length == BigEndian(b[0..4]) && h.version == BigEndian(b[4..6]) && h.flag == BigEndian(b[6..8])
    && h.serviceId == BigEndian(b[8..10]) && h.commandId == BigEndian(b[10..12])
    && h.seqNum == BigEndian(b[12..14]) && h.reversed == BigEndian(b[14..16])
  }

  lemma {:induction false} TwoBytes(b: seq<byte>, k: nat)
    requires k + 2 <= |b|
    ensures BigEndian(b[k..k + 2]) == Big16(b[k], b[k + 1])
  {
    assert b[k..k + 2] == [b[k], b[k + 1]] && [b[k], b[k + 1]][..1] == [b[k]] && [b[k]][..0] == [];
    assert BigEndian([b[k]]) == b[k];
  }

  lemma {:induction false} FourBytes(b: seq<byte>)
    requires 4 <= |b|
    ensures BigEndian(b[0..4]) == ReadUint32(b)
  {
    assert b[0..4][..3] == b[0..3] && b[0..3][..2] == b[0..2];
    TwoBytes(b, 0);
  }

  // A header is read from exactly these places ...
  lemma {:induction false} ParsedLayout(b: seq<byte>)
    requires |b| >= 16
    ensures LaidOut(ParseHeader(b), b)
  {
    FourBytes(b);
    TwoBytes(b, 4);
    TwoBytes(b, 6);
    TwoBytes(b, 8);
    TwoBytes(b, 10);
    TwoBytes(b, 12);
    TwoBytes(b, 14);
  }

  // ... and written to them.
  lemma {:induction false} WrittenLayout(h: Header, body: seq<byte>)
    ensures LaidOut(h, HeaderBytes(h) + body)
  {
    HeaderRoundTrip(h, body);
    ParsedLayout(HeaderBytes(h) + body);
  }

  // A PDU as it is handed over: its bytes, and its header record in wire form. For a length
  // field below 16 the header reaches beyond the bytes.
  datatype Pdu = Pdu(bytes: seq<byte>, head: seq<byte>)

  // ---- Framing

  // ZeroLength stands for the thrown CPduException.
  datatype Availability = NotYet | ZeroLength | Ready(pduLen: nat)

  function IsPduAvailable(buf: seq<byte>): (r: Availability)
    ensures r == NotYet <==> |buf| < 16 || ReadUint32(buf) > |buf|
    ensures r == ZeroLength <==> |buf| >= 16 && ReadUint32(buf) == 0
    ensures r.Ready? ==> r.pduLen == ReadUint32(buf) && 0 < r.pduLen <= |buf|
  {
    if |buf| < IM_PDU_HEADER_LEN then NotYet
    else
      var pduLen := ReadUint32(buf);
      if pduLen > |buf| then NotYet
      else if pduLen == 0 then ZeroLength
      else Ready(pduLen)
  }

  // A buffer whose length field is its own size.
  predicate IsFrame(f: seq<byte>) {
    |f| >= IM_PDU_HEADER_LEN && ReadUint32(f) == |f|
  }

  // A whole byte stream decoded at once. `bad` says the decoding stopped at a zero length.
  datatype Decoded = Decoded(pdus: seq<Pdu>, rest: seq<byte>, bad: bool)

  function Decode(s: seq<byte>): Decoded {
    match IsPduAvailable(s)
    case NotYet => Decoded([], s, false)
    case ZeroLength => Decoded([], s, true)
    case Ready(n) =>
      var d := Decode(s[n..]);
      Prepend(Pdu(s[..n], s[..IM_PDU_HEADER_LEN]), d)
  }

  // Where the decoding of a stream stops: at a length field of 0, or where the length field
  // exceeds what is left or is not there yet. Every PDU is as long as its length field says.
  lemma {:induction false} DecodeStops(s: seq<byte>)
    ensures var d := Decode(s);
            && (d.bad <==> |d.rest| >= 16 && ReadUint32(d.rest) == 0)
            && (!d.bad ==> |d.rest| < 16 || ReadUint32(d.rest) > |d.rest|)
            && forall p :: p in d.pdus ==> |p.head| == 16 && |p.bytes| == ReadUint32(p.head) > 0
  {
    match IsPduAvailable(s)
    case NotYet =>
    case ZeroLength =>
    case Ready(n) =>
      DecodeStops(s[n..]);
      assert ReadUint32(s[..IM_PDU_HEADER_LEN]) == ReadUint32(s);
  }

  // A frame found at the front of a stream is found there whatever follows, and so is a length
  // field of 0.
  lemma {:induction false} AvailabilityKept(a: seq<byte>, b: seq<byte>)
    requires |a| >= 16 && ReadUint32(a) <= |a|
    ensures IsPduAvailable(a + b) == IsPduAvailable(a)
    ensures (a + b)[..IM_PDU_HEADER_LEN] == a[..IM_PDU_HEADER_LEN]
  {
  }

  function Prepend(p: Pdu, d: Decoded): Decoded {
    d.(pdus := [p] + d.pdus)
  }

  // The decoding of what is left, e, appended to what was decoded before, d.
  function Then(d: Decoded, e: Decoded): Decoded {
    Decoded(d.pdus + e.pdus, e.rest, e.bad)
  }

  lemma PrependThen(p: Pdu, d: Decoded, e: Decoded)
    ensures Prepend(p, Then(d, e)) == Then(Prepend(p, d), e)
  {
    assert [p] + (d.pdus + e.pdus) == [p] + d.pdus + e.pdus;
  }

  lemma DecodeStep(a: seq<byte>, n: nat, b: seq<byte>)
    requires IsPduAvailable(a) == Ready(n)
    ensures Decode(a + b) == Prepend(Pdu(a[..n], a[..IM_PDU_HEADER_LEN]), Decode(a[n..] + b))
  {
    AvailabilityKept(a, b);
    assert (a + b)[n..] == a[n..] + b && (a + b)[..n] == a[..n];
  }

  // Decoding a prefix and then the remainder with what follows is decoding it all: the
  // places where a stream is cut do not matter.
  lemma {:induction false} DecodeSplit(a: seq<byte>, b: seq<byte>)
    ensures Decode(a + b) == Then(Decode(a), Decode(Decode(a).rest + b))
  {
    match IsPduAvailable(a)
    case NotYet =>
    case ZeroLength =>
      AvailabilityKept(a, b);
    case Ready(n) =>
      DecodeSplit(a[n..], b);
      DecodeStep(a, n, b);
      PrependThen(Pdu(a[..n], a[..IM_PDU_HEADER_LEN]), Decode(a[n..]), Decode(Decode(a[n..]).rest + b));
  }

  function Flatten(frames: seq<seq<byte>>): seq<byte> {
    if frames == [] then [] else frames[0] + Flatten(frames[1..])
  }

  lemma {:induction false} FlattenAppend(frames: seq<seq<byte>>, f: seq<byte>)
    ensures Flatten(frames + [f]) == Flatten(frames) + f
  {
    if frames == [] {
      assert Flatten([f]) == f + Flatten([]);
    } else {
      assert (frames + [f])[1..] == frames[1..] + [f];
      FlattenAppend(frames[1..], f);
    }
  }

  // The stream a decoding came from.
  function Encode(pdus: seq<Pdu>, rest: seq<byte>): seq<byte> {
    if pdus == [] then rest else pdus[0].bytes + Encode(pdus[1..], rest)
  }

  // Nothing is lost, added or reordered by decoding.
  lemma {:induction false} DecodeLossless(s: seq<byte>)
    ensures Encode(Decode(s).pdus, Decode(s).rest) == s
  {
    match IsPduAvailable(s)
    case NotYet =>
    case ZeroLength =>
    case Ready(n) =>
      DecodeLossless(s[n..]);
      EncodePrepend(Pdu(s[..n], s[..IM_PDU_HEADER_LEN]), Decode(s[n..]));
      assert s[..n] + s[n..] == s;
  }

  lemma EncodePrepend(p: Pdu, d: Decoded)
    ensures Encode(Prepend(p, d).pdus, d.rest) == p.bytes + Encode(d.pdus, d.rest)
  {
    assert Prepend(p, d).pdus[1..] == d.pdus;
  }

  predicate AllFrames(frames: seq<seq<byte>>) {
    forall f :: f in frames ==> IsFrame(f)
  }

  function PduOf(f: seq<byte>): Pdu
    requires IsFrame(f)
  {
    Pdu(f, f[..IM_PDU_HEADER_LEN])
  }

  function PdusOf(frames: seq<seq<byte>>): (r: seq<Pdu>)
    requires AllFrames(frames)
    ensures |r| == |frames| && forall i :: 0 <= i < |r| ==> r[i] == PduOf(frames[i])
  {
    seq(|frames|, i requires 0 <= i < |frames| => assert frames[i] in frames; PduOf(frames[i]))
  }

  lemma DecodeFrame(f: seq<byte>, b: seq<byte>)
    requires IsFrame(f)
    ensures Decode(f + b) == Prepend(PduOf(f), Decode(b))
  {
    DecodeStep(f, |f|, b);
    assert f[..|f|] == f && f[|f|..] + b == b;
  }

  lemma PdusOfFirst(frames: seq<seq<byte>>)
    requires AllFrames(frames) && frames != []
    ensures IsFrame(frames[0]) && AllFrames(frames[1..])
    ensures PdusOf(frames) == [PduOf(frames[0])] + PdusOf(frames[1..])
  {
    assert frames[0] in frames;
  }

  // A concatenation of well-formed frames decodes to exactly these frames.
  lemma {:induction false} DecodeFrames(frames: seq<seq<byte>>)
    requires AllFrames(frames)
    ensures Decode(Flatten(frames)) == Decoded(PdusOf(frames), [], false)
  {
    if frames != [] {
      var first, more := frames[0], frames[1..];
      PdusOfFirst(frames);
      DecodeFrame(first, Flatten(more));
      DecodeFrames(more);
    }
  }

  lemma {:induction false} HeaderMakesFrame(h: Header, body: seq<byte>)
    requires h.length == IM_PDU_HEADER_LEN + |body|
    ensures IsFrame(HeaderBytes(h) + body) && ParseHeader(HeaderBytes(h) + body) == h
  {
    HeaderRoundTrip(h, body);
  }

  // f became g: the header now reads h, and the body is what it was.
  predicate OnlyHeaderChanged(f: seq<byte>, g: seq<byte>, h: Header) {
    |f| == |g| >= IM_PDU_HEADER_LEN && ParseHeader(g) == h && g[IM_PDU_HEADER_LEN..] == f[IM_PDU_HEADER_LEN..]
  }

  // Changing header fields other than the length keeps a frame a frame.
  lemma FrameStays(f: seq<byte>, g: seq<byte>)
    requires |f| == |g| >= IM_PDU_HEADER_LEN && ParseHeader(f).length == ParseHeader(g).length
    ensures IsFrame(f) <==> IsFrame(g)
  {
  }

  function WithField(h: Header, at: nat, v: uint16): Header {
    match at
    case 4 => h.(version := v)
    case 6 => h.(flag := v)
    case 8 => h.(serviceId := v)
    case 10 => h.(commandId := v)
    case 12 => h.(seqNum := v)
    case _ => h.(reversed := v)
  }

  // g is f but for the two bytes of the field at the given place.
  lemma FieldReplaced(f: seq<byte>, g: seq<byte>, at: nat, v: uint16)
    requires |g| == |f| >= IM_PDU_HEADER_LEN && at in {4, 6, 8, 10, 12, 14}
    requires Big16(g[at], g[at + 1]) == v
    requires forall k :: 0 <= k < |f| && k != at && k != at + 1 ==> g[k] == f[k]
    ensures OnlyHeaderChanged(f, g, WithField(ParseHeader(f), at, v))
  {
  }

  lemma FieldSpliced(f: seq<byte>, at: nat, v: uint16)
    requires |f| >= IM_PDU_HEADER_LEN && at in {4, 6, 8, 10, 12, 14}
    ensures OnlyHeaderChanged(f, Splice(f, at, Uint16Bytes(v)), WithField(ParseHeader(f), at, v))
  {
    SplicedBytes(f, at, v);
    FieldReplaced(f, Splice(f, at, Uint16Bytes(v)), at, v);
  }

  lemma SplicedBytes(f: seq<byte>, at: nat, v: uint16)
    requires at + 2 <= |f|
    ensures var g := Splice(f, at, Uint16Bytes(v));
            && Big16(g[at], g[at + 1]) == v
            && forall k :: 0 <= k < |f| && k != at && k != at + 1 ==> g[k] == f[k]
  {
    ReadWrittenUint16(v);
  }

  class ImPdu {
    const buf: SimpleBuffer
    var header: Header

    ghost function Repr(): set<object>
      reads this, buf
    {
      {this, buf, buf.buffer}
    }

    ghost predicate Valid()
      reads this, buf
    {
      buf.Valid()
    }

    ghost function Contents(): seq<byte>
      requires Valid()
      reads this, buf, buf.buffer
    {
      buf.Contents()
    }

    constructor ()
      ensures Valid() && fresh(Repr())
      ensures Contents() == []
      ensures header == Header(0, IM_PDU_VERSION, 0, SID_OTHER, 0, 0, 0)
    {
      buf := new SimpleBuffer();
      header := Header(0, IM_PDU_VERSION, 0, SID_OTHER, 0, 0, 0);
    }

    // The length written is the buffer's, whatever the header record holds.
    method WriteHeader()
      requires Valid() && IM_PDU_HEADER_LEN <= buf.writeOffset < 0x1_0000_0000
      modifies buf.buffer
      ensures Valid()
      ensures Contents() == HeaderBytes(header.(length := buf.writeOffset)) + old(Contents())[IM_PDU_HEADER_LEN..]
    {
      var b := buf.buffer;
      ghost var s := b[..];
      WriteUint32(b, 0, buf.writeOffset);
      ghost var p := Uint32Bytes(buf.writeOffset);
      AppendUint16(b, 4, header.version, p, s);
      p := p + Uint16Bytes(header.version);
      AppendUint16(b, 6, header.flag, p, s);
      p := p + Uint16Bytes(header.flag);
      AppendUint16(b, 8, header.serviceId, p, s);
      p := p + Uint16Bytes(header.serviceId);
      AppendUint16(b, 10, header.commandId, p, s);
      p := p + Uint16Bytes(header.commandId);
      AppendUint16(b, 12, header.seqNum, p, s);
      p := p + Uint16Bytes(header.seqNum);
      AppendUint16(b, 14, header.reversed, p, s);
    }

    // The message body is what the serializer produced, an arbitrary byte string.
    method SetPBMsg(body: seq<byte>)
      requires Valid() && MayGrowTo(IM_PDU_HEADER_LEN + |body|)
      modifies buf, buf.buffer
      ensures Valid() && (buf.buffer == old(buf.buffer) || fresh(buf.buffer))
      ensures IsFrame(Contents())
      ensures Contents() == HeaderBytes(header.(length := IM_PDU_HEADER_LEN + |body|)) + body
      ensures ParseHeader(Contents()) == header.(length := IM_PDU_HEADER_LEN + |body|)
    {
      PutBody(body);
      WriteHeader();
      HeaderMakesFrame(header.(length := IM_PDU_HEADER_LEN + |body|), body);
    }

    // Room for the header, which is still to be written, and the body.
    method PutBody(body: seq<byte>)
      requires Valid() && MayGrowTo(IM_PDU_HEADER_LEN + |body|)
      modifies buf, buf.buffer
      ensures Valid() && (buf.buffer == old(buf.buffer) || fresh(buf.buffer))
      ensures buf.writeOffset == IM_PDU_HEADER_LEN + |body| && Contents()[IM_PDU_HEADER_LEN..] == body
    {
      var _, _ := buf.Read(buf.writeOffset);
      buf.WriteNull(IM_PDU_HEADER_LEN);
      var _ := buf.Write(body);
    }

    // Overwrites two bytes of the header in the buffer; the header record is not touched.
    method SetField(at: nat, v: uint16)
      requires Valid() && IM_PDU_HEADER_LEN <= buf.writeOffset
      requires at in {4, 6, 8, 10, 12, 14}
      modifies buf.buffer
      ensures Valid()
      ensures OnlyHeaderChanged(old(Contents()), Contents(), WithField(ParseHeader(old(Contents())), at, v))
      ensures old(IsFrame(Contents())) ==> IsFrame(Contents())
    {
      ghost var f := Contents();
      SpliceField(at, v);
      FieldSpliced(f, at, v);
      FrameStays(f, Contents());
    }

    method SpliceField(at: nat, v: uint16)
      requires Valid() && at + 2 <= buf.writeOffset
      modifies buf.buffer
      ensures Valid() && Contents() == Splice(old(Contents()), at, Uint16Bytes(v))
    {
      ghost var whole, n, t := buf.buffer[..], buf.writeOffset, Uint16Bytes(v);
      WriteUint16(buf.buffer, at, v);
      SplicePrefix(whole, n, at, t);
    }

    method SetVersion(version: uint16)
      requires Valid() && IM_PDU_HEADER_LEN <= buf.writeOffset
      modifies buf.buffer
      ensures Valid()
      ensures OnlyHeaderChanged(old(Contents()), Contents(), ParseHeader(old(Contents())).(version := version))
      ensures old(IsFrame(Contents())) ==> IsFrame(Contents())
    {
      SetField(4, version);
    }

    method SetFlag(flag: uint16)
      requires Valid() && IM_PDU_HEADER_LEN <= buf.writeOffset
      modifies buf.buffer
      ensures Valid()
      ensures OnlyHeaderChanged(old(Contents()), Contents(), ParseHeader(old(Contents())).(flag := flag))
      ensures old(IsFrame(Contents())) ==> IsFrame(Contents())
    {
      SetField(6, flag);
    }

    method SetServiceId(serviceId: uint16)
      requires Valid() && IM_PDU_HEADER_LEN <= buf.writeOffset
      modifies buf.buffer
      ensures Valid()
      ensures OnlyHeaderChanged(old(Contents()), Contents(), ParseHeader(old(Contents())).(serviceId := serviceId))
      ensures old(IsFrame(Contents())) ==> IsFrame(Contents())
    {
      SetField(8, serviceId);
    }

    method SetCommandId(commandId: uint16)
      requires Valid() && IM_PDU_HEADER_LEN <= buf.writeOffset
      modifies buf.buffer
      ensures Valid()
      ensures OnlyHeaderChanged(old(Contents()), Contents(), ParseHeader(old(Contents())).(commandId := commandId))
      ensures old(IsFrame(Contents())) ==> IsFrame(Contents())
    {
      SetField(10, commandId);
    }

    // The error code and the sequence number share a field.
    method SetError(error: uint16)
      requires Valid() && IM_PDU_HEADER_LEN <= buf.writeOffset
      modifies buf.buffer
      ensures Valid()
      ensures OnlyHeaderChanged(old(Contents()), Contents(), ParseHeader(old(Contents())).(seqNum := error))
      ensures old(IsFrame(Contents())) ==> IsFrame(Contents())
    {
      SetField(12, error);
    }

    method SetSeqNum(seqNum: uint16)
      requires Valid() && IM_PDU_HEADER_LEN <= buf.writeOffset
      modifies buf.buffer
      ensures Valid()
      ensures OnlyHeaderChanged(old(Contents()), Contents(), ParseHeader(old(Contents())).(seqNum := seqNum))
      ensures old(IsFrame(Contents())) ==> IsFrame(Contents())
    {
      SetField(12, seqNum);
    }

    // The 32-bit argument is cut to the 16 bits of the field.
    method SetReversed(reversed: uint32)
      requires Valid() && IM_PDU_HEADER_LEN <= buf.writeOffset
      modifies buf.buffer
      ensures Valid()
      ensures OnlyHeaderChanged(old(Contents()), Contents(),
                                ParseHeader(old(Contents())).(reversed := reversed % 0x1_0000))
      ensures old(IsFrame(Contents())) ==> IsFrame(Contents())
    {
      SetField(14, reversed % 0x1_0000);
    }

    // Reads the header through a byte stream; fewer than 16 bytes leave it unchanged.
    method ReadPduHeader(b: seq<byte>) returns (ret: int)
      modifies this`header
      ensures if |b| >= IM_PDU_HEADER_LEN then ret == 0 && header == ParseHeader(b)
              else ret == -1 && header == old(header)
    {
      ret := -1;
      if |b| >= IM_PDU_HEADER_LEN {
        var stream := new ByteStream(b);
        var length := stream.GetUint32();
        var version := stream.GetUint16();
        var flag := stream.GetUint16();
        var serviceId := stream.GetUint16();
        var commandId := stream.GetUint16();
        var seqNum := stream.GetUint16();
        var reversed := stream.GetUint16();
        header := Header(length.value, version.value, flag.value, serviceId.value, commandId.value,
                         seqNum.value, reversed.value);
        ret := 0;
      }
    }

    static method ReadPdu(b: seq<byte>) returns (avail: Availability, pdu: ImPdu?)
      requires MayGrowTo(|b|)
      ensures avail == IsPduAvailable(b)
      ensures pdu != null <==> avail.Ready?
      ensures pdu != null ==> fresh(pdu) && fresh(pdu.Repr()) && pdu.Valid()
      ensures pdu != null ==> pdu.Contents() == b[..avail.pduLen] && pdu.header == ParseHeader(b)
    {
      pdu := null;
      avail := IsPduAvailable(b);
      if avail.Ready? {
        pdu := new ImPdu();
        var _ := pdu.buf.Write(b[..avail.pduLen]);
        var _ := pdu.ReadPduHeader(b[..IM_PDU_HEADER_LEN]);
      }
    }
  }
}
