// A long-lived TCP connection: buffered sending, and reassembly of PDUs from whatever
// the socket delivers (src/core/ImConn.cpp).

module ImConns {
  import opened Bytes
  import opened ByteStreams
  import opened ImPdus
  import opened SimpleBuffers

  const NETLIB_MAX_SOCKET_BUF_SIZE := 128 * 1024
  const READ_BUF_SIZE := 2048

  // The socket as an adversary: any legal count, or an error, at every call.
  class Socket {
    var sent: seq<byte>      // accepted from us, in order
    var incoming: seq<byte>  // what receives can still return before they would block
    ghost var refusals: nat  // sends that returned nothing or an error

    method NetlibSend(buf: seq<byte>) returns (ret: int)
      requires |buf| <= 128 * 1024
      modifies this`sent, this`refusals
      ensures ret <= |buf|
      ensures ret > 0 ==> sent == old(sent) + buf[..ret] && refusals == old(refusals)
      ensures ret <= 0 ==> sent == old(sent) && refusals == old(refusals) + 1
    {
      ret :| -1 <= ret <= |buf|;
      if ret > 0 {
        sent := sent + buf[..ret];
      } else {
        refusals := refusals + 1;
      }
    }

    method NetlibRecv(buf: array<byte>, at: nat, len: nat) returns (ret: int)
      requires at + len <= buf.Length
      modifies this`incoming, buf
      ensures ret <= len && ret <= |old(incoming)|
      ensures ret > 0 ==> incoming == old(incoming)[ret..] && buf[..] == Splice(old(buf[..]), at, old(incoming)[..ret])
      ensures ret <= 0 ==> incoming == old(incoming) && buf[..] == old(buf[..])
    {
      ret :| -1 <= ret <= len && ret <= |incoming|;
      if ret > 0 {
        forall i | 0 <= i < ret {
          buf[at + i] := incoming[i];
        }
        incoming := incoming[ret..];
      }
    }
  }

  // What one Send does to the busy flag and the out buffer when the socket took k bytes.
  predicate SendOutcome(busy: bool, out: seq<byte>, data: seq<byte>, k: nat, busy': bool, out': seq<byte>) {
    if busy then k == 0 && busy' && out' == out + data
    else k <= |data| && out' == out + data[k..] && (busy' <==> k < |data|)
  }

  // What one OnWrite does when the socket took k bytes.
  predicate WriteOutcome(busy: bool, out: seq<byte>, k: nat, busy': bool, out': seq<byte>) {
    && k <= |out| && out' == out[k..]
    && (busy ==> (busy' <==> out' != []))
    && (!busy ==> k == 0 && !busy')
  }

  // What one OnRead does when everything buffered decodes to d.
  predicate ReadOutcome(d: Decoded, handled: seq<Pdu>, handled': seq<Pdu>, in': seq<byte>, closes: int) {
    handled' == handled + d.pdus && in' == d.rest && closes == if d.bad then 1 else 0
  }

  function After(done: seq<Pdu>, d: Decoded): Decoded {
    d.(pdus := done + d.pdus)
  }

  // What was handled before, and what the stream decodes to, is what is handled by now and
  // what the rest decodes to.
  predicate DecodedSoFar(before: seq<Pdu>, stream: seq<byte>, done: seq<Pdu>, rest: seq<byte>) {
    After(before, Decode(stream)) == After(done, Decode(rest))
  }

  lemma StopDecoding(before: seq<Pdu>, stream: seq<byte>, done: seq<Pdu>, rest: seq<byte>)
    requires DecodedSoFar(before, stream, done, rest) && !IsPduAvailable(rest).Ready?
    ensures ReadOutcome(Decode(stream), before, done, rest, if IsPduAvailable(rest) == ZeroLength then 1 else 0)
  {
    assert done + [] == done;
  }

  lemma KeepDecoding(before: seq<Pdu>, stream: seq<byte>, done: seq<Pdu>, rest: seq<byte>, n: nat)
    requires DecodedSoFar(before, stream, done, rest) && IsPduAvailable(rest) == Ready(n)
    ensures DecodedSoFar(before, stream, done + [Pdu(rest[..n], rest[..IM_PDU_HEADER_LEN])], rest[n..])
  {
    var p := Pdu(rest[..n], rest[..IM_PDU_HEADER_LEN]);
    assert done + ([p] + Decode(rest[n..]).pdus) == done + [p] + Decode(rest[n..]).pdus;
  }

  // The PDUs handled since, and the rest, are the stream.
  predicate HandedOver(stream: seq<byte>, handled: seq<Pdu>, handled': seq<Pdu>, rest: seq<byte>) {
    && |handled| <= |handled'| && handled == handled'[..|handled|]
    && Encode(handled'[|handled|..], rest) == stream
  }

  lemma OutcomeMeans(stream: seq<byte>, handled: seq<Pdu>, handled': seq<Pdu>, rest: seq<byte>, closes: int)
    requires ReadOutcome(Decode(stream), handled, handled', rest, closes)
    ensures HandedOver(stream, handled, handled', rest)
    ensures closes == if |rest| >= 16 && ReadUint32(rest) == 0 then 1 else 0
  {
    DecodeStops(stream);
    DecodeLossless(stream);
    assert handled'[|handled|..] == Decode(stream).pdus;
  }

  // Taking the first r bytes of a window that starts at k moves its start to k + r.
  lemma AdvanceWindow(s: seq<byte>, k: nat, size: nat, r: nat)
    requires k + size <= |s| && r <= size
    ensures s[..k] + s[k..k + size][..r] == s[..k + r]
    ensures s[k..][r..] == s[k + r..] && s[k..][..r] == s[k..k + size][..r]
  {
  }

  lemma SpliceAtEnd(s: seq<byte>, at: nat, t: seq<byte>)
    requires at + |t| <= |s|
    ensures Splice(s, at, t)[..at + |t|] == s[..at] + t
  {
  }

  class ImConn {
    const sock: Socket
    const inBuf: SimpleBuffer
    const outBuf: SimpleBuffer
    var busy: bool
    var recvBytes: nat
    var handled: seq<Pdu>      // the calls of HandlePdu
    var closeCalls: nat        // the calls of OnClose
    var writeCompletes: nat    // the calls of OnWriteCompelete

    ghost predicate Valid()
      reads this, inBuf, outBuf
    {
      inBuf.Valid() && outBuf.Valid() && inBuf != outBuf && inBuf.buffer != outBuf.buffer
    }

    ghost function In(): seq<byte>
      requires Valid()
      reads this, inBuf, outBuf, inBuf.buffer
    {
      inBuf.Contents()
    }

    ghost function Out(): seq<byte>
      requires Valid()
      reads this, inBuf, outBuf, outBuf.buffer
    {
      outBuf.Contents()
    }

    constructor (sock: Socket)
      ensures Valid() && fresh(inBuf) && fresh(outBuf) && fresh(inBuf.buffer) && fresh(outBuf.buffer)
      ensures this.sock == sock && !busy && In() == [] && Out() == []
      ensures handled == [] && closeCalls == 0 && writeCompletes == 0
    {
      this.sock := sock;
      inBuf := new SimpleBuffer();
      outBuf := new SimpleBuffer();
      busy, recvBytes, handled, closeCalls, writeCompletes := false, 0, [], 0, 0;
    }

    method SendPdu(pdu: ImPdu) returns (ret: nat)
      requires Valid() && pdu.Valid() && pdu.buf != outBuf && pdu.buf.buffer != outBuf.buffer
      requires FitsInt(outBuf.writeOffset + |pdu.Contents()|)
      modifies this, outBuf, outBuf.buffer, sock`sent, sock`refusals
      ensures Valid() && (outBuf.buffer == old(outBuf.buffer) || fresh(outBuf.buffer))
      ensures ret == |old(pdu.Contents())|
      ensures var k := |sock.sent| - |old(sock.sent)|;
              0 <= k <= ret && sock.sent == old(sock.sent) + old(pdu.Contents())[..k] &&
              SendOutcome(old(busy), old(Out()), old(pdu.Contents()), k, busy, Out())
      ensures handled == old(handled) && closeCalls == old(closeCalls)
    {
      ret := Send(pdu.buf.buffer[..pdu.buf.writeOffset]);
    }

    method Send(data: seq<byte>) returns (len: nat)
      requires Valid() && FitsInt(outBuf.writeOffset + |data|)
      modifies this, outBuf, outBuf.buffer, sock`sent, sock`refusals
      ensures Valid() && (outBuf.buffer == old(outBuf.buffer) || fresh(outBuf.buffer))
      ensures len == |data|
      ensures var k := |sock.sent| - |old(sock.sent)|;
              0 <= k <= len && sock.sent == old(sock.sent) + data[..k] &&
              SendOutcome(old(busy), old(Out()), data, k, busy, Out())
      // bytes stay behind only because the socket refused some
      ensures !old(busy) && busy ==> sock.refusals == old(sock.refusals) + 1
      ensures writeCompletes == old(writeCompletes) + if busy then 0 else 1
      ensures handled == old(handled) && closeCalls == old(closeCalls)
    {
      len := |data|;
      if busy {
        var _ := outBuf.Write(data);
        return;
      }
      var offset := SendAll(data);
      if offset < len {
        var _ := outBuf.Write(data[offset..]);
        busy := true;
      } else {
        writeCompletes := writeCompletes + 1;
      }
    }

    // The loop of Send: it ends when everything is sent or the socket refuses.
    method SendAll(data: seq<byte>) returns (offset: nat)
      modifies sock`sent, sock`refusals
      ensures offset <= |data| && sock.sent == old(sock.sent) + data[..offset]
      ensures sock.refusals == old(sock.refusals) + if offset < |data| then 1 else 0
    {
      offset := 0;
      var remain := |data|;
      while remain > 0
        invariant 0 <= remain && offset + remain == |data|
        invariant sock.sent == old(sock.sent) + data[..offset]
        invariant sock.refusals == old(sock.refusals)
      {
        var ret := SendOnce(data[offset..]);
        if ret <= 0 {
          break;
        }
        AdvanceWindow(data, offset, remain, ret);
        offset := offset + ret;
        remain := remain - ret;
      }
    }

    // The send in the loop body of Send and of OnWrite: at most the maximal chunk is offered.
    method SendOnce(data: seq<byte>) returns (ret: int)
      modifies sock`sent, sock`refusals
      ensures ret <= |data|
      ensures ret > 0 ==> sock.sent == old(sock.sent) + data[..ret] && sock.refusals == old(sock.refusals)
      ensures ret <= 0 ==> sock.sent == old(sock.sent) && sock.refusals == old(sock.refusals) + 1
    {
      var sendSize := |data|;
      if sendSize > NETLIB_MAX_SOCKET_BUF_SIZE {
        sendSize := NETLIB_MAX_SOCKET_BUF_SIZE;
      }
      ret := sock.NetlibSend(data[..sendSize]);
      assert ret > 0 ==> data[..sendSize][..ret] == data[..ret];
    }

    method OnWrite()
      requires Valid() && FitsInt(outBuf.writeOffset)
      modifies this`busy, outBuf`writeOffset, outBuf.buffer, sock`sent, sock`refusals
      ensures Valid()
      ensures var k := |sock.sent| - |old(sock.sent)|;
              0 <= k <= |old(Out())| && sock.sent == old(sock.sent) + old(Out())[..k] &&
              WriteOutcome(old(busy), old(Out()), k, busy, Out())
      ensures old(busy) && busy ==> sock.refusals == old(sock.refusals) + 1
    {
      if !busy {
        return;
      }
      ghost var k := FlushAll();
      if outBuf.writeOffset == 0 {
        busy := false;
      }
    }

    // The loop of OnWrite: it ends when the buffer is empty or the socket refuses.
    method FlushAll() returns (ghost k: nat)
      requires Valid() && FitsInt(outBuf.writeOffset)
      modifies outBuf`writeOffset, outBuf.buffer, sock`sent, sock`refusals
      ensures Valid() && k <= |old(Out())| && Out() == old(Out())[k..]
      ensures sock.sent == old(sock.sent) + old(Out())[..k]
      ensures sock.refusals == old(sock.refusals) + if k < |old(Out())| then 1 else 0
    {
      ghost var out := Out();
      k := 0;
      while outBuf.writeOffset > 0
        invariant Valid() && k <= |out| && Out() == out[k..]
        invariant sock.sent == old(sock.sent) + out[..k]
        invariant sock.refusals == old(sock.refusals)
        decreases outBuf.writeOffset
      {
        var ret := FlushOnce();
        if ret <= 0 {
          break;
        }
        AdvanceWindow(out, k, |out| - k, ret);
        k := k + ret;
      }
    }

    // The loop body of OnWrite.
    method FlushOnce() returns (ret: int)
      requires Valid() && FitsInt(outBuf.writeOffset)
      modifies outBuf`writeOffset, outBuf.buffer, sock`sent, sock`refusals
      ensures Valid() && ret <= |old(Out())|
      ensures ret > 0 ==> Out() == old(Out())[ret..] && sock.sent == old(sock.sent) + old(Out())[..ret]
                          && sock.refusals == old(sock.refusals)
      ensures ret <= 0 ==> Out() == old(Out()) && sock.sent == old(sock.sent)
                           && sock.refusals == old(sock.refusals) + 1
    {
      ret := SendOnce(outBuf.buffer[..outBuf.writeOffset]);
      if ret > 0 {
        var _, _ := outBuf.Read(ret);
      }
    }

    // Drains the socket, then hands over every complete PDU. A zero length closes the
    // connection and leaves the offending bytes at the front of the buffer.
    method OnRead()
      requires Valid() && MayGrowTo(inBuf.writeOffset + |sock.incoming| + READ_BUF_SIZE)
      modifies this, inBuf, inBuf.buffer, sock`incoming
      ensures Valid() && (inBuf.buffer == old(inBuf.buffer) || fresh(inBuf.buffer))
      ensures var n := |old(sock.incoming)| - |sock.incoming|;
              0 <= n <= |old(sock.incoming)| && sock.incoming == old(sock.incoming)[n..] &&
              recvBytes == old(recvBytes) + n &&
              ReadOutcome(Decode(old(In()) + old(sock.incoming)[..n]), old(handled), handled, In(),
                          closeCalls - old(closeCalls))
      // no byte is lost, and it is closed exactly if a length field of 0 is left at the front
      ensures var n := |old(sock.incoming)| - |sock.incoming|;
              HandedOver(old(In()) + old(sock.incoming)[..n], old(handled), handled, In())
      ensures closeCalls == old(closeCalls) + if |In()| >= 16 && ReadUint32(In()) == 0 then 1 else 0
      ensures busy == old(busy) && writeCompletes == old(writeCompletes)
    {
      var n := ReceiveAll();
      HandleBuffered();
    }

    // HandleAll, and what its outcome means.
    method HandleBuffered()
      requires Valid() && MayGrowTo(inBuf.writeOffset)
      modifies this`handled, this`closeCalls, inBuf`writeOffset, inBuf.buffer
      ensures Valid()
      ensures ReadOutcome(Decode(old(In())), old(handled), handled, In(), closeCalls - old(closeCalls))
      ensures HandedOver(old(In()), old(handled), handled, In())
      ensures closeCalls == old(closeCalls) + if |In()| >= 16 && ReadUint32(In()) == 0 then 1 else 0
    {
      ghost var stream, before, closes := In(), handled, closeCalls;
      HandleAll();
      OutcomeMeans(stream, before, handled, In(), closeCalls - closes);
    }

    method ReceiveAll() returns (ghost n: nat)
      requires Valid() && MayGrowTo(inBuf.writeOffset + |sock.incoming| + READ_BUF_SIZE)
      modifies this`recvBytes, inBuf, inBuf.buffer, sock`incoming
      ensures Valid() && (inBuf.buffer == old(inBuf.buffer) || fresh(inBuf.buffer))
      ensures n == |old(sock.incoming)| - |sock.incoming| && sock.incoming == old(sock.incoming)[n..]
      ensures In() == old(In()) + old(sock.incoming)[..n]
      ensures recvBytes == old(recvBytes) + n
    {
      n := 0;
      ghost var before, stream := In(), sock.incoming;
      while true
        invariant Valid() && (inBuf.buffer == old(inBuf.buffer) || fresh(inBuf.buffer))
        invariant n <= |stream| && sock.incoming == stream[n..]
        invariant In() == before + stream[..n]
        invariant recvBytes == old(recvBytes) + n
        decreases |sock.incoming|
      {
        var ret := ReceiveOnce();
        if ret <= 0 {
          break;
        }
        AdvanceWindow(stream, n, |stream| - n, ret);
        n := n + ret;
      }
    }

    // The body of the receive loop: every receive has READ_BUF_SIZE bytes of room.
    method ReceiveOnce() returns (ret: int)
      requires Valid() && MayGrowTo(inBuf.writeOffset + READ_BUF_SIZE)
      modifies this`recvBytes, inBuf, inBuf.buffer, sock`incoming
      ensures Valid() && (inBuf.buffer == old(inBuf.buffer) || fresh(inBuf.buffer))
      ensures ret <= |old(sock.incoming)|
      ensures ret > 0 ==> sock.incoming == old(sock.incoming)[ret..] && recvBytes == old(recvBytes) + ret
                          && In() == old(In()) + old(sock.incoming)[..ret]
      ensures ret <= 0 ==> sock.incoming == old(sock.incoming) && recvBytes == old(recvBytes) && In() == old(In())
    {
      var freeBufLen := inBuf.allocSize - inBuf.writeOffset;
      if freeBufLen < READ_BUF_SIZE {
        inBuf.Extend(READ_BUF_SIZE);
      }
      ghost var whole, pending := inBuf.buffer[..], sock.incoming;
      ret := sock.NetlibRecv(inBuf.buffer, inBuf.writeOffset, READ_BUF_SIZE);
      if ret > 0 {
        recvBytes := recvBytes + ret;
        SpliceAtEnd(whole, inBuf.writeOffset, pending[..ret]);
        inBuf.IncWriteOffset(ret);
      }
    }

    method HandleAll()
      requires Valid() && MayGrowTo(inBuf.writeOffset)
      modifies this`handled, this`closeCalls, inBuf`writeOffset, inBuf.buffer
      ensures Valid()
      ensures ReadOutcome(Decode(old(In())), old(handled), handled, In(), closeCalls - old(closeCalls))
    {
      ghost var stream, before := In(), handled;
      while true
        invariant Valid() && inBuf.writeOffset <= |stream|
        invariant DecodedSoFar(before, stream, handled, In()) && closeCalls == old(closeCalls)
        decreases inBuf.writeOffset
      {
        ghost var rest, done := In(), handled;
        var avail := HandleOnce();
        if !avail.Ready? {
          StopDecoding(before, stream, handled, rest);
          if avail == ZeroLength {
            closeCalls := closeCalls + 1;
          }
          break;
        }
        KeepDecoding(before, stream, done, rest, avail.pduLen);
      }
    }

    // The body of the frame loop.
    method HandleOnce() returns (avail: Availability)
      requires Valid() && MayGrowTo(inBuf.writeOffset)
      modifies this`handled, inBuf`writeOffset, inBuf.buffer
      ensures Valid() && avail == IsPduAvailable(old(In()))
      ensures avail.Ready? ==> var n := avail.pduLen;
                In() == old(In())[n..] &&
                handled == old(handled) + [Pdu(old(In())[..n], old(In())[..IM_PDU_HEADER_LEN])]
      ensures !avail.Ready? ==> In() == old(In()) && handled == old(handled)
    {
      var pdu;
      avail, pdu := ImPdu.ReadPdu(inBuf.buffer[..inBuf.writeOffset]);
      if avail.Ready? {
        var pduLen := pdu.buf.writeOffset;
        HeaderWriteBack(In()[..IM_PDU_HEADER_LEN]);
        handled := handled + [Pdu(pdu.buf.buffer[..pduLen], HeaderBytes(pdu.header))];
        var _, _ := inBuf.Read(pduLen);
      }
    }
  }
}
