// End-to-end delivery: a sending connection, the wire, and a receiving connection, over
// every interleaving of their operations and every answer of the two sockets. The steps
// are those the methods of ImConn are proved to take.

module Delivery {
  import opened Bytes
  import opened ImConns
  import opened ImPdus
  import opened Sequences

  // ---- Chunking

  // One OnRead after the receives delivered `chunk`, with d what happened before.
  function Feed(d: Decoded, chunk: seq<byte>): Decoded {
    Then(d, Decode(d.rest + chunk))
  }

  function FeedAll(chunks: seq<seq<byte>>): Decoded {
    if chunks == [] then Decoded([], [], false)
    else Feed(FeedAll(chunks[..|chunks| - 1]), chunks[|chunks| - 1])
  }

  // However a byte stream is cut into reads, the same PDUs come out, the same bytes remain,
  // and a zero length stops the decoding at the same place.
  lemma {:induction false} ChunkingIndependence(chunks: seq<seq<byte>>)
    ensures FeedAll(chunks) == Decode(Flatten(chunks))
  {
    if chunks != [] {
      var front, last := chunks[..|chunks| - 1], chunks[|chunks| - 1];
      ChunkingIndependence(front);
      FlattenAppend(front, last);
      assert front + [last] == chunks;
      DecodeSplit(Flatten(front), last);
    }
  }

  // ---- The two connections and the wire

  datatype Link = Link(
    submitted: seq<seq<byte>>,  // the frames given to SendPdu
    busy: bool,                 // sender
    out: seq<byte>,             // sender's out buffer
    wire: seq<byte>,            // accepted by the sender's socket, not yet received
    received: seq<byte>,        // all the bytes the receiver ever got
    inBuf: seq<byte>,           // receiver's in buffer
    handled: seq<Pdu>,          // receiver's calls of HandlePdu
    closes: int,                // receiver's calls of OnClose
    cut: bool)                  // the connection broke; what is sent from now on is lost

  const START := Link([], false, [], [], [], [], [], 0, false)

  datatype Action =
    | Submit(frame: seq<byte>, accepted: nat)  // SendPdu, the socket taking `accepted` bytes
    | Flush(accepted: nat)                     // OnWrite
    | Arrive(count: nat)                       // OnRead, the receives returning `count` bytes
    | Break(kept: nat)                         // only `kept` bytes of the wire will still arrive

  ghost predicate Next(s: Link, a: Action, s': Link) {
    match a
    case Submit(f, k) =>
      && IsFrame(f)
      && SendOutcome(s.busy, s.out, f, k, s'.busy, s'.out)
      && s' == s.(submitted := s.submitted + [f], busy := s'.busy, out := s'.out,
                  wire := if s.cut then s.wire else s.wire + f[..k])
    case Flush(k) =>
      && WriteOutcome(s.busy, s.out, k, s'.busy, s'.out)
      && s' == s.(busy := s'.busy, out := s'.out, wire := if s.cut then s.wire else s.wire + s.out[..k])
    case Arrive(n) =>
      && n <= |s.wire|
      && ReadOutcome(Decode(s.inBuf + s.wire[..n]), s.handled, s'.handled, s'.inBuf, s'.closes - s.closes)
      && s' == s.(wire := s.wire[n..], received := s.received + s.wire[..n],
                  inBuf := s'.inBuf, handled := s'.handled, closes := s'.closes)
    case Break(n) =>
      n <= |s.wire| && s' == s.(wire := s.wire[..n], cut := true)
  }

  ghost predicate IsRun(states: seq<Link>, actions: seq<Action>) {
    && |states| == |actions| + 1
    && states[0] == START
    && forall i :: 0 <= i < |actions| ==> Next(states[i], actions[i], states[i + 1])
  }

  // ---- What every step keeps

  ghost predicate Conserved(s: Link) {
    if s.cut then s.received + s.wire <= Flatten(s.submitted)
    else s.received + s.wire + s.out == Flatten(s.submitted)
  }

  ghost predicate SenderInv(s: Link) {
    AllFrames(s.submitted) && Conserved(s) && (s.busy <==> s.out != [])
  }

  ghost predicate ReceiverInv(s: Link) {
    Decode(s.received) == Decoded(s.handled, s.inBuf, false) && s.closes == 0
  }

  ghost predicate Inv(s: Link) {
    SenderInv(s) && ReceiverInv(s)
  }

  lemma {:induction false} BadDecodeStops(s: seq<byte>)
    requires Decode(s).bad
    ensures IsPduAvailable(Decode(s).rest) == ZeroLength
  {
    if IsPduAvailable(s).Ready? {
      BadDecodeStops(s[IsPduAvailable(s).pduLen..]);
    }
  }

  // Any prefix of a stream of frames decodes to a prefix of the frames.
  lemma {:induction false} PrefixDecode(frames: seq<seq<byte>>, a: seq<byte>)
    requires AllFrames(frames) && a <= Flatten(frames)
    ensures Decode(a).pdus <= PdusOf(frames) && !Decode(a).bad
  {
    var b := Flatten(frames)[|a|..];
    assert a + b == Flatten(frames);
    DecodeSplit(a, b);
    DecodeFrames(frames);
    if Decode(a).bad {
      BadDecodeStops(a);
      AvailabilityKept(Decode(a).rest, b);
    }
  }

  // The first k bytes of the out buffer move on to the wire.
  lemma MovedOn(received: seq<byte>, wire: seq<byte>, out: seq<byte>, k: nat)
    requires k <= |out|
    ensures received + (wire + out[..k]) + out[k..] == received + wire + out
  {
    Associates(received, wire, out[..k]);
    Associates(received + wire, out[..k], out[k..]);
    Cut(out, k);
  }

  lemma SubmitConserves(s: Link, f: seq<byte>, k: nat, s': Link)
    requires SenderInv(s) && Next(s, Submit(f, k), s') && !s.cut
    ensures s'.received + s'.wire + s'.out == s.received + s.wire + s.out + f
  {
    if s.busy {
      assert s'.wire == s.wire;
      Associates(s.received + s.wire, s.out, f);
    } else {
      MovedOn(s.received, s.wire, f, k);
    }
  }

  lemma SubmitKeeps(s: Link, f: seq<byte>, k: nat, s': Link)
    requires SenderInv(s) && Next(s, Submit(f, k), s')
    ensures SenderInv(s')
  {
    FlattenAppend(s.submitted, f);
    if !s.cut {
      SubmitConserves(s, f, k, s');
    }
    assert s'.busy <==> s'.out != [];
  }

  lemma FlushKeeps(s: Link, k: nat, s': Link)
    requires SenderInv(s) && Next(s, Flush(k), s')
    ensures SenderInv(s')
  {
    MovedOn(s.received, s.wire, s.out, k);
  }

  lemma ArriveKeeps(s: Link, n: nat, s': Link)
    requires SenderInv(s) && Next(s, Arrive(n), s')
    ensures SenderInv(s')
  {
    assert s.received + s.wire[..n] + s.wire[n..] == s.received + s.wire;
  }

  lemma {:induction false} HandledKeeps(s: Link, n: nat, s': Link)
    requires Inv(s) && Next(s, Arrive(n), s')
    ensures ReceiverInv(s')
  {
    DecodeSplit(s.received, s.wire[..n]);
    assert s'.received <= s.received + s.wire;
    PrefixDecode(s.submitted, s'.received);
  }

  lemma NextKeeps(s: Link, a: Action, s': Link)
    requires Inv(s) && Next(s, a, s')
    ensures Inv(s')
  {
    match a
    case Submit(f, k) => SubmitKeeps(s, f, k, s');
    case Flush(k) => FlushKeeps(s, k, s');
    case Arrive(n) =>
      ArriveKeeps(s, n, s');
      HandledKeeps(s, n, s');
    case Break(n) =>
      assert s.received + s.wire[..n] <= s.received + s.wire;
  }

  lemma {:induction false} RunKeeps(states: seq<Link>, actions: seq<Action>)
    requires IsRun(states, actions)
    ensures Inv(states[|actions|])
    decreases |actions|
  {
    var n := |actions|;
    if n > 0 {
      assert IsRun(states[..n], actions[..n - 1]);
      RunKeeps(states[..n], actions[..n - 1]);
      NextKeeps(states[n - 1], actions[n - 1], states[n]);
    }
  }

  // The flagship: at every point of every run, what the peer handled is a prefix, in order
  // and byte for byte, of what was submitted, and nothing made it close the connection.
  lemma DeliveryIsPrefix(states: seq<Link>, actions: seq<Action>)
    requires IsRun(states, actions)
    ensures var s := states[|actions|];
            AllFrames(s.submitted) && s.handled <= PdusOf(s.submitted) && s.closes == 0
  {
    RunKeeps(states, actions);
    var s := states[|actions|];
    assert s.received <= Flatten(s.submitted);
    PrefixDecode(s.submitted, s.received);
  }

  // ... and it is all of it once the out buffer and the wire of an unbroken connection are empty.
  lemma DeliveryIsComplete(states: seq<Link>, actions: seq<Action>)
    requires IsRun(states, actions)
    requires var s := states[|actions|]; !s.cut && s.out == [] && s.wire == []
    ensures var s := states[|actions|];
            AllFrames(s.submitted) && s.handled == PdusOf(s.submitted) && s.inBuf == [] && !s.busy
  {
    RunKeeps(states, actions);
    var s := states[|actions|];
    assert s.received + s.wire + s.out == s.received;
    DecodeFrames(s.submitted);
  }

  // The sending side alone: the bytes on the wire so far, then the out buffer, are
  // everything submitted, and the busy flag says whether bytes are waiting.
  lemma SendConservation(states: seq<Link>, actions: seq<Action>)
    requires IsRun(states, actions) && !states[|actions|].cut
    ensures var s := states[|actions|];
            s.received + s.wire + s.out == Flatten(s.submitted) && (s.busy <==> s.out != [])
  {
    RunKeeps(states, actions);
  }
}
