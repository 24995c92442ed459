// Two ImConn objects with a network between their sockets (src/core/ImConn.cpp): their calls
// of SendPdu, OnWrite and OnRead are steps of the link of Delivery.dfy, so what is proved
// there of every run holds of the objects, whatever sequence of calls is made.

module ConnPairs {
  import opened Bytes
  import opened Counting
  import opened Delivery
  import opened ImConns
  import opened ImPdus
  import opened SimpleBuffers

  lemma Arrived(s: Link, incoming: seq<byte>, rest: seq<byte>, n: nat, t: Link)
    requires s.wire == incoming + rest && n <= |incoming|
    requires ReadOutcome(Decode(s.inBuf + incoming[..n]), s.handled, t.handled, t.inBuf, t.closes - s.closes)
    requires t == s.(wire := incoming[n..] + rest, received := s.received + incoming[..n],
                     inBuf := t.inBuf, handled := t.handled, closes := t.closes)
    ensures Next(s, Arrive(n), t)
  {
    assert s.wire[..n] == incoming[..n] && s.wire[n..] == incoming[n..] + rest;
  }

  lemma Sent(s: Link, f: seq<byte>, k: nat, t: Link)
    requires IsFrame(f) && k <= |f| && SendOutcome(s.busy, s.out, f, k, t.busy, t.out)
    requires t == s.(submitted := s.submitted + [f], busy := t.busy, out := t.out,
                     wire := if s.cut then s.wire else s.wire + f[..k])
    ensures Next(s, Submit(f, k), t)
  {
  }

  lemma Flushed(s: Link, k: nat, t: Link)
    requires k <= |s.out| && WriteOutcome(s.busy, s.out, k, t.busy, t.out)
    requires t == s.(busy := t.busy, out := t.out, wire := if s.cut then s.wire else s.wire + s.out[..k])
    ensures Next(s, Flush(k), t)
  {
  }

  lemma MovesOn(incoming: seq<byte>, sent: seq<byte>, moved: nat, n: nat)
    requires moved + n <= |sent|
    ensures incoming + sent[moved..moved + n] + sent[moved + n..] == incoming + sent[moved..]
  {
  }

  lemma SentGrows(incoming: seq<byte>, sent: seq<byte>, more: seq<byte>, moved: nat)
    requires moved <= |sent|
    ensures incoming + (sent + more)[moved..] == incoming + sent[moved..] + more
  {
  }

  // ---- What calls there are, and the steps they take

  datatype Call =
    | SendPdu(serviceId: uint16, commandId: uint16, seqNum: uint16, body: seq<byte>)
    | OnWrite
    | OnRead
    | Carry(n: nat)  // by the network, if it has that much
    | Break(n: nat)  // of the network, leaving at most n bytes to arrive

  // The length field has 32 bits.
  function LengthField(body: seq<byte>): (n: uint32)
    ensures FitsInt(IM_PDU_HEADER_LEN + |body|) ==> n == IM_PDU_HEADER_LEN + |body|
  {
    (IM_PDU_HEADER_LEN + |body|) % 0x1_0000_0000
  }

  function HeaderOf(serviceId: uint16, commandId: uint16, seqNum: uint16, body: seq<byte>): Header {
    Header(LengthField(body), IM_PDU_VERSION, 0, serviceId, commandId, seqNum, 0)
  }

  function FrameOf(serviceId: uint16, commandId: uint16, seqNum: uint16, body: seq<byte>): seq<byte> {
    HeaderBytes(HeaderOf(serviceId, commandId, seqNum, body)) + body
  }

  function FramesOf(call: Call): seq<seq<byte>> {
    if call.SendPdu? then [FrameOf(call.serviceId, call.commandId, call.seqNum, call.body)] else []
  }

  function Frames(calls: seq<Call>): seq<seq<byte>> {
    if calls == [] then [] else Frames(calls[..|calls| - 1]) + FramesOf(calls[|calls| - 1])
  }

  function Size(): Call -> nat {
    (call: Call) => if call.SendPdu? then IM_PDU_HEADER_LEN + |call.body| else 0
  }

  // The action is of the kind of the call.
  predicate IsBy(a: Action, call: Call) {
    match call
    case SendPdu(_, _, _, _) => a.Submit? && [a.frame] == FramesOf(call)
    case OnWrite => a.Flush?
    case OnRead => a.Arrive?
    case Carry(_) => false
    case Break(n) => a.Break? && a.kept <= n
  }

  // What a call does to the link: one step of its kind, or nothing if bytes are carried on.
  ghost predicate Took(call: Call, s: Link, taken: seq<Action>, t: Link) {
    if call.Carry? then taken == [] && t == s
    else
      && |taken| == 1 && IsBy(taken[0], call) && Next(s, taken[0], t)
      && (call.Break? ==> taken[0].kept == if call.n < |s.wire| then call.n else |s.wire|)
  }

  // The actions are those of the calls, in order.
  predicate Matches(calls: seq<Call>, actions: seq<Action>) {
    if calls == [] then actions == []
    else
      var front, call := calls[..|calls| - 1], calls[|calls| - 1];
      if call.Carry? then Matches(front, actions)
      else
        && actions != [] && IsBy(actions[|actions| - 1], call)
        && Matches(front, actions[..|actions| - 1])
  }

  // The calls took the link through a run to t.
  ghost predicate Performed(calls: seq<Call>, states: seq<Link>, actions: seq<Action>, t: Link) {
    && IsRun(states, actions) && states[|actions|] == t
    && Matches(calls, actions) && t.submitted == Frames(calls)
  }

  lemma OneMore(calls: seq<Call>, states: seq<Link>, actions: seq<Action>,
                call: Call, s: Link, taken: seq<Action>, t: Link)
    returns (states': seq<Link>, actions': seq<Action>)
    requires Performed(calls, states, actions, s) && Took(call, s, taken, t)
    ensures Performed(calls + [call], states', actions', t)
  {
    FramesGrow(calls, call);
    if call.Carry? {
      states', actions' := states, actions;
      CarryMatches(calls, call, actions);
    } else {
      states', actions' := states + [t], actions + [taken[0]];
      OneMoreStep(calls, states, actions, call, s, taken[0], t);
    }
  }

  lemma OneMoreStep(calls: seq<Call>, states: seq<Link>, actions: seq<Action>, call: Call, s: Link, a: Action, t: Link)
    requires Performed(calls, states, actions, s) && IsBy(a, call) && Next(s, a, t)
    ensures Performed(calls + [call], states + [t], actions + [a], t)
  {
    FramesGrow(calls, call);
    NextSubmits(s, a, t, call);
    RunGrows(states, actions, a, t);
    StepMatches(calls, call, actions, a);
  }

  lemma NextSubmits(s: Link, a: Action, t: Link, call: Call)
    requires IsBy(a, call) && Next(s, a, t)
    ensures t.submitted == s.submitted + FramesOf(call)
  {
  }

  lemma RunGrows(states: seq<Link>, actions: seq<Action>, a: Action, t: Link)
    requires IsRun(states, actions) && Next(states[|actions|], a, t)
    ensures IsRun(states + [t], actions + [a])
  {
  }

  lemma FramesGrow(calls: seq<Call>, call: Call)
    ensures Frames(calls + [call]) == Frames(calls) + FramesOf(call)
  {
    assert (calls + [call])[..|calls|] == calls;
  }

  lemma CarryMatches(calls: seq<Call>, call: Call, actions: seq<Action>)
    requires Matches(calls, actions) && call.Carry?
    ensures Matches(calls + [call], actions)
  {
    assert (calls + [call])[..|calls|] == calls;
  }

  lemma StepMatches(calls: seq<Call>, call: Call, actions: seq<Action>, a: Action)
    requires Matches(calls, actions) && IsBy(a, call)
    ensures Matches(calls + [call], actions + [a])
  {
    assert (calls + [call])[..|calls|] == calls && (actions + [a])[..|actions|] == actions;
  }

  // What is proved of every run of the link, of these calls.
  lemma Delivered(calls: seq<Call>, states: seq<Link>, actions: seq<Action>, t: Link)
    requires Performed(calls, states, actions, t)
    ensures AllFrames(Frames(calls)) && t.handled <= PdusOf(Frames(calls)) && t.closes == 0
    ensures !t.cut && t.out == [] && t.wire == [] ==> t.handled == PdusOf(Frames(calls)) && t.inBuf == []
  {
    DeliveryIsPrefix(states, actions);
    if !t.cut && t.out == [] && t.wire == [] {
      DeliveryIsComplete(states, actions);
    }
  }

  lemma NextCall(calls: seq<Call>, i: nat)
    requires i < |calls|
    ensures calls[..i + 1] == calls[..i] + [calls[i]]
    ensures Total(Size(), calls[i..]) == Size()(calls[i]) + Total(Size(), calls[i + 1..])
  {
    assert calls[i..][1..] == calls[i + 1..];
  }

  // The bytes between the two ends.
  function Load(s: Link): nat {
    |s.out| + |s.wire| + |s.inBuf|
  }

  lemma {:induction false} RestIsNoLonger(s: seq<byte>)
    ensures |Decode(s).rest| <= |s|
  {
    if IsPduAvailable(s).Ready? {
      RestIsNoLonger(s[IsPduAvailable(s).pduLen..]);
    }
  }

  lemma CallLoads(call: Call, s: Link, taken: seq<Action>, t: Link)
    requires Took(call, s, taken, t)
    ensures Load(t) <= Load(s) + Size()(call)
  {
    if call == Call.OnRead {
      RestIsNoLonger(s.inBuf + s.wire[..taken[0].count]);
    }
  }

  // ---- The PDU of a message

  lemma FromHeader(f: seq<byte>, h: Header, body: seq<byte>)
    requires |f| >= IM_PDU_HEADER_LEN && ParseHeader(f) == h && f[IM_PDU_HEADER_LEN..] == body
    ensures f == HeaderBytes(h) + body
  {
    assert f == f[..IM_PDU_HEADER_LEN] + body;
    HeaderWriteBack(f[..IM_PDU_HEADER_LEN]);
  }

  lemma IsFrameOf(f: seq<byte>, serviceId: uint16, commandId: uint16, seqNum: uint16, body: seq<byte>)
    requires |f| >= IM_PDU_HEADER_LEN && f[IM_PDU_HEADER_LEN..] == body
    requires ParseHeader(f) == HeaderOf(serviceId, commandId, seqNum, body)
    ensures f == FrameOf(serviceId, commandId, seqNum, body)
  {
    FromHeader(f, HeaderOf(serviceId, commandId, seqNum, body), body);
  }

  method MakePdu(serviceId: uint16, commandId: uint16, seqNum: uint16, body: seq<byte>) returns (pdu: ImPdu)
    requires FitsInt(IM_PDU_HEADER_LEN + |body|)
    ensures fresh(pdu) && fresh(pdu.buf) && fresh(pdu.buf.buffer) && pdu.Valid()
    ensures pdu.Contents() == FrameOf(serviceId, commandId, seqNum, body) && IsFrame(pdu.Contents())
  {
    pdu := WithBody(body);
    Address(pdu, serviceId, commandId, seqNum, body);
    IsFrameOf(pdu.Contents(), serviceId, commandId, seqNum, body);
  }

  method WithBody(body: seq<byte>) returns (pdu: ImPdu)
    requires FitsInt(IM_PDU_HEADER_LEN + |body|)
    ensures fresh(pdu) && fresh(pdu.buf) && fresh(pdu.buf.buffer) && pdu.Valid()
    ensures IsFrame(pdu.Contents()) && pdu.Contents()[IM_PDU_HEADER_LEN..] == body
    ensures ParseHeader(pdu.Contents()) == HeaderOf(SID_OTHER, 0, 0, body)
  {
    pdu := new ImPdu();
    NewHeader(pdu.header, body);
    SetBody(pdu, body);
  }

  // SetPBMsg, as seen by a reader of the frame.
  method SetBody(pdu: ImPdu, body: seq<byte>)
    requires pdu.Valid() && FitsInt(IM_PDU_HEADER_LEN + |body|)
    modifies pdu.buf, pdu.buf.buffer
    ensures pdu.Valid() && (pdu.buf.buffer == old(pdu.buf.buffer) || fresh(pdu.buf.buffer))
    ensures IsFrame(pdu.Contents()) && pdu.Contents()[IM_PDU_HEADER_LEN..] == body
    ensures ParseHeader(pdu.Contents()) == pdu.header.(length := IM_PDU_HEADER_LEN + |body|)
  {
    pdu.SetPBMsg(body);
    BodyOf(pdu.Contents(), pdu.header.(length := IM_PDU_HEADER_LEN + |body|), body);
  }

  lemma NewHeader(h: Header, body: seq<byte>)
    requires FitsInt(IM_PDU_HEADER_LEN + |body|) && h == Header(0, IM_PDU_VERSION, 0, SID_OTHER, 0, 0, 0)
    ensures h.(length := IM_PDU_HEADER_LEN + |body|) == HeaderOf(SID_OTHER, 0, 0, body)
  {
  }

  lemma BodyOf(f: seq<byte>, h: Header, body: seq<byte>)
    requires f == HeaderBytes(h) + body
    ensures |f| == IM_PDU_HEADER_LEN + |body| && f[IM_PDU_HEADER_LEN..] == body
  {
  }

  method Address(pdu: ImPdu, serviceId: uint16, commandId: uint16, seqNum: uint16, ghost body: seq<byte>)
    requires pdu.Valid() && IsFrame(pdu.Contents()) && pdu.Contents()[IM_PDU_HEADER_LEN..] == body
    requires ParseHeader(pdu.Contents()) == HeaderOf(SID_OTHER, 0, 0, body)
    modifies pdu.buf.buffer
    ensures pdu.buf.buffer == old(pdu.buf.buffer)
    ensures pdu.Valid() && IsFrame(pdu.Contents()) && pdu.Contents()[IM_PDU_HEADER_LEN..] == body
    ensures ParseHeader(pdu.Contents()) == HeaderOf(serviceId, commandId, seqNum, body)
  {
    pdu.SetServiceId(serviceId);
    pdu.SetCommandId(commandId);
    pdu.SetSeqNum(seqNum);
  }

  class ConnPair {
    const sender: ImConn
    const receiver: ImConn
    var moved: nat  // how much of what the sender's socket took has come out at the receiver's
    var cut: bool
    ghost var submitted: seq<seq<byte>>
    ghost var received: seq<byte>

    // A new connection between two sockets over which nothing has gone yet.
    constructor (a: Socket, b: Socket)
      requires a != b && a.sent == [] && b.incoming == []
      ensures Valid() && State() == START
      ensures fresh(sender) && fresh(receiver) && sender.sock == a && receiver.sock == b
    {
      sender := new ImConn(a);
      receiver := new ImConn(b);
      moved, cut, submitted, received := 0, false, [], [];
    }

    ghost predicate Valid()
      reads this, sender, sender.inBuf, sender.outBuf, sender.sock, receiver, receiver.inBuf, receiver.outBuf
    {
      && sender.Valid() && receiver.Valid() && sender != receiver && sender.sock != receiver.sock
      && sender.inBuf !in {receiver.inBuf, receiver.outBuf} && sender.outBuf !in {receiver.inBuf, receiver.outBuf}
      && sender.inBuf.buffer !in {receiver.inBuf.buffer, receiver.outBuf.buffer}
      && sender.outBuf.buffer !in {receiver.inBuf.buffer, receiver.outBuf.buffer}
      && moved <= |sender.sock.sent|
    }

    // Sent and not yet at the receiver's socket.
    ghost function UnderWay(): seq<byte>
      requires moved <= |sender.sock.sent|
      reads this, sender.sock
    {
      if cut then [] else sender.sock.sent[moved..]
    }

    // The link that the objects represent.
    ghost function State(): Link
      requires Valid()
      reads this, sender, sender.inBuf, sender.outBuf, sender.sock, sender.outBuf.buffer
      reads receiver, receiver.inBuf, receiver.outBuf, receiver.sock, receiver.inBuf.buffer
    {
      Link(submitted, sender.busy, sender.Out(), receiver.sock.incoming + UnderWay(), received,
           receiver.In(), receiver.handled, receiver.closeCalls, cut)
    }

    // The network moves some bytes on. The link does not change.
    method Carry(n: nat)
      requires Valid() && !cut && moved + n <= |sender.sock.sent|
      modifies this`moved, receiver.sock`incoming
      ensures Valid() && State() == old(State())
    {
      var chunk := sender.sock.sent[moved..moved + n];
      MovesOn(receiver.sock.incoming, sender.sock.sent, moved, n);
      receiver.sock.incoming := receiver.sock.incoming + chunk;
      moved := moved + n;
      assert receiver.sock.incoming + UnderWay() == old(State()).wire;
    }

    // The connection breaks; n bytes of what is on the wire still arrive.
    method Break(n: nat)
      requires Valid() && n <= |State().wire|
      modifies this`cut, receiver.sock`incoming
      ensures Valid() && Next(old(State()), Action.Break(n), State())
    {
      var wire := receiver.sock.incoming + if cut then [] else sender.sock.sent[moved..];
      receiver.sock.incoming := wire[..n];
      cut := true;
    }

    method SendPdu(pdu: ImPdu)
      requires Valid() && pdu.Valid() && IsFrame(pdu.Contents())
      requires pdu.buf != sender.outBuf && pdu.buf.buffer != sender.outBuf.buffer
      requires FitsInt(sender.outBuf.writeOffset + |pdu.Contents()|)
      modifies this`submitted, sender, sender.outBuf, sender.outBuf.buffer, sender.sock`sent, sender.sock`refusals
      ensures Valid() && (sender.outBuf.buffer == old(sender.outBuf.buffer) || fresh(sender.outBuf.buffer))
      ensures var k := |sender.sock.sent| - |old(sender.sock.sent)|;
              k >= 0 && Next(old(State()), Submit(old(pdu.Contents()), k), State())
    {
      ghost var s, f, sent := State(), pdu.Contents(), sender.sock.sent;
      ghost var k := SendIt(pdu);
      submitted := submitted + [f];
      SentGrows(receiver.sock.incoming, sent, f[..k], moved);
      Sent(s, f, k, State());
    }

    // The sender's side of that.
    method SendIt(pdu: ImPdu) returns (ghost k: nat)
      requires Valid() && pdu.Valid() && pdu.buf != sender.outBuf && pdu.buf.buffer != sender.outBuf.buffer
      requires FitsInt(sender.outBuf.writeOffset + |pdu.Contents()|)
      modifies sender, sender.outBuf, sender.outBuf.buffer, sender.sock`sent, sender.sock`refusals
      ensures Valid() && (sender.outBuf.buffer == old(sender.outBuf.buffer) || fresh(sender.outBuf.buffer))
      ensures k == |sender.sock.sent| - |old(sender.sock.sent)| && k <= |old(pdu.Contents())|
      ensures sender.sock.sent == old(sender.sock.sent) + old(pdu.Contents())[..k]
      ensures SendOutcome(old(sender.busy), old(sender.Out()), old(pdu.Contents()), k, sender.busy, sender.Out())
      ensures receiver.In() == old(receiver.In())
    {
      var _ := sender.SendPdu(pdu);
      k := |sender.sock.sent| - |old(sender.sock.sent)|;
    }

    method OnWrite()
      requires Valid() && FitsInt(sender.outBuf.writeOffset)
      modifies sender`busy, sender.outBuf`writeOffset, sender.outBuf.buffer
      modifies sender.sock`sent, sender.sock`refusals
      ensures Valid()
      ensures var k := |sender.sock.sent| - |old(sender.sock.sent)|;
              k >= 0 && Next(old(State()), Flush(k), State())
    {
      ghost var s, sent := State(), sender.sock.sent;
      ghost var k := FlushIt();
      SentGrows(receiver.sock.incoming, sent, s.out[..k], moved);
      Flushed(s, k, State());
    }

    // The sender's side of that.
    method FlushIt() returns (ghost k: nat)
      requires Valid() && FitsInt(sender.outBuf.writeOffset)
      modifies sender`busy, sender.outBuf`writeOffset, sender.outBuf.buffer
      modifies sender.sock`sent, sender.sock`refusals
      ensures Valid()
      ensures k == |sender.sock.sent| - |old(sender.sock.sent)| && k <= |old(sender.Out())|
      ensures sender.sock.sent == old(sender.sock.sent) + old(sender.Out())[..k]
      ensures WriteOutcome(old(sender.busy), old(sender.Out()), k, sender.busy, sender.Out())
      ensures receiver.In() == old(receiver.In())
    {
      sender.OnWrite();
      k := |sender.sock.sent| - |old(sender.sock.sent)|;
    }

    method OnRead()
      requires Valid()
      requires MayGrowTo(receiver.inBuf.writeOffset + |receiver.sock.incoming| + READ_BUF_SIZE)
      modifies this`received, receiver, receiver.inBuf, receiver.inBuf.buffer, receiver.sock`incoming
      ensures Valid() && (receiver.inBuf.buffer == old(receiver.inBuf.buffer) || fresh(receiver.inBuf.buffer))
      ensures var n := |old(receiver.sock.incoming)| - |receiver.sock.incoming|;
              n >= 0 && Next(old(State()), Arrive(n), State())
    {
      ghost var s, incoming := State(), receiver.sock.incoming;
      ghost var n := Receive();
      received := received + incoming[..n];
      Arrived(s, incoming, UnderWay(), n, State());
    }

    // The receiver's side of that.
    method Receive() returns (ghost n: nat)
      requires Valid()
      requires MayGrowTo(receiver.inBuf.writeOffset + |receiver.sock.incoming| + READ_BUF_SIZE)
      modifies receiver, receiver.inBuf, receiver.inBuf.buffer, receiver.sock`incoming
      ensures Valid() && (receiver.inBuf.buffer == old(receiver.inBuf.buffer) || fresh(receiver.inBuf.buffer))
      ensures n == |old(receiver.sock.incoming)| - |receiver.sock.incoming|
      ensures receiver.sock.incoming == old(receiver.sock.incoming)[n..]
      ensures sender.Out() == old(sender.Out())
      ensures ReadOutcome(Decode(old(receiver.In()) + old(receiver.sock.incoming)[..n]), old(receiver.handled),
                          receiver.handled, receiver.In(), receiver.closeCalls - old(receiver.closeCalls))
    {
      receiver.OnRead();
      n := |old(receiver.sock.incoming)| - |receiver.sock.incoming|;
    }

    // ---- Any sequence of calls

    method Perform(call: Call) returns (ghost taken: seq<Action>)
      requires Valid() && FitsInt(Load(State()) + Size()(call))
      modifies this, sender, sender.outBuf, sender.outBuf.buffer, sender.sock
      modifies receiver, receiver.inBuf, receiver.inBuf.buffer, receiver.sock
      ensures Valid()
      ensures sender.outBuf.buffer == old(sender.outBuf.buffer) || fresh(sender.outBuf.buffer)
      ensures receiver.inBuf.buffer == old(receiver.inBuf.buffer) || fresh(receiver.inBuf.buffer)
      ensures Took(call, old(State()), taken, State())
    {
      match call
      case SendPdu(sid, cid, seqNum, body) =>
        taken := SendMessage(sid, cid, seqNum, body);
      case OnWrite =>
        taken := WriteOut();
      case OnRead =>
        taken := ReadIn();
      case Carry(n) =>
        taken := CarryOn(n);
      case Break(n) =>
        taken := BreakOff(n);
    }

    method SendMessage(serviceId: uint16, commandId: uint16, seqNum: uint16, body: seq<byte>)
      returns (ghost taken: seq<Action>)
      requires Valid() && FitsInt(sender.outBuf.writeOffset + IM_PDU_HEADER_LEN + |body|)
      modifies this`submitted, sender, sender.outBuf, sender.outBuf.buffer, sender.sock`sent, sender.sock`refusals
      ensures Valid() && (sender.outBuf.buffer == old(sender.outBuf.buffer) || fresh(sender.outBuf.buffer))
      ensures Took(Call.SendPdu(serviceId, commandId, seqNum, body), old(State()), taken, State())
    {
      var pdu := MakePdu(serviceId, commandId, seqNum, body);
      ghost var before := |sender.sock.sent|;
      SendPdu(pdu);
      taken := [Submit(FrameOf(serviceId, commandId, seqNum, body), |sender.sock.sent| - before)];
    }

    method WriteOut() returns (ghost taken: seq<Action>)
      requires Valid() && FitsInt(sender.outBuf.writeOffset)
      modifies sender`busy, sender.outBuf`writeOffset, sender.outBuf.buffer
      modifies sender.sock`sent, sender.sock`refusals
      ensures Valid() && Took(Call.OnWrite, old(State()), taken, State())
    {
      ghost var before := |sender.sock.sent|;
      OnWrite();
      taken := [Flush(|sender.sock.sent| - before)];
    }

    method ReadIn() returns (ghost taken: seq<Action>)
      requires Valid()
      requires MayGrowTo(receiver.inBuf.writeOffset + |receiver.sock.incoming| + READ_BUF_SIZE)
      modifies this`received, receiver, receiver.inBuf, receiver.inBuf.buffer, receiver.sock`incoming
      ensures Valid() && (receiver.inBuf.buffer == old(receiver.inBuf.buffer) || fresh(receiver.inBuf.buffer))
      ensures Took(Call.OnRead, old(State()), taken, State())
    {
      ghost var before := |receiver.sock.incoming|;
      OnRead();
      taken := [Arrive(before - |receiver.sock.incoming|)];
    }

    method CarryOn(n: nat) returns (ghost taken: seq<Action>)
      requires Valid()
      modifies this`moved, receiver.sock`incoming
      ensures Valid() && Took(Call.Carry(n), old(State()), taken, State())
    {
      taken := [];
      if !cut && moved + n <= |sender.sock.sent| {
        Carry(n);
      }
    }

    // At most n bytes of what is on the wire still arrive.
    method BreakOff(n: nat) returns (ghost taken: seq<Action>)
      requires Valid()
      modifies this`cut, receiver.sock`incoming
      ensures Valid() && Took(Call.Break(n), old(State()), taken, State())
    {
      var size := |receiver.sock.incoming| + if cut then 0 else |sender.sock.sent| - moved;
      var kept := if n < size then n else size;
      Break(kept);
      taken := [Action.Break(kept)];
    }

    method PerformNext(call: Call, ghost calls: seq<Call>, ghost states: seq<Link>, ghost actions: seq<Action>)
      returns (ghost states': seq<Link>, ghost actions': seq<Action>)
      requires Valid() && FitsInt(Load(State()) + Size()(call))
      requires Performed(calls, states, actions, State())
      modifies this, sender, sender.outBuf, sender.outBuf.buffer, sender.sock
      modifies receiver, receiver.inBuf, receiver.inBuf.buffer, receiver.sock
      ensures Valid() && Load(State()) <= old(Load(State())) + Size()(call)
      ensures sender.outBuf.buffer == old(sender.outBuf.buffer) || fresh(sender.outBuf.buffer)
      ensures receiver.inBuf.buffer == old(receiver.inBuf.buffer) || fresh(receiver.inBuf.buffer)
      ensures Performed(calls + [call], states', actions', State())
    {
      ghost var s := State();
      ghost var taken := Perform(call);
      CallLoads(call, s, taken, State());
      states', actions' := OneMore(calls, states, actions, call, s, taken, State());
    }

    // Whatever calls are made on a new connection, in any order, and whatever the sockets answer:
    // the calls are a run of the link, so the receiver has handled a prefix of the PDUs sent,
    // and all of them if nothing is left in between.
    method PerformAll(calls: seq<Call>) returns (ghost states: seq<Link>, ghost actions: seq<Action>)
      requires Valid() && State() == START && FitsInt(Total(Size(), calls))
      modifies this, sender, sender.outBuf, sender.outBuf.buffer, sender.sock
      modifies receiver, receiver.inBuf, receiver.inBuf.buffer, receiver.sock
      ensures Valid() && Performed(calls, states, actions, State())
      ensures AllFrames(Frames(calls)) && receiver.handled <= PdusOf(Frames(calls)) && receiver.closeCalls == 0
      ensures !cut && sender.Out() == [] && receiver.sock.incoming + UnderWay() == [] ==>
                receiver.handled == PdusOf(Frames(calls)) && receiver.In() == []
    {
      states, actions := [State()], [];
      ghost var outBuffer, inBuffer := sender.outBuf.buffer, receiver.inBuf.buffer;
      for i := 0 to |calls|
        invariant Valid() && Performed(calls[..i], states, actions, State())
        invariant FitsInt(Load(State()) + Total(Size(), calls[i..]))
        invariant sender.outBuf.buffer == outBuffer || fresh(sender.outBuf.buffer)
        invariant receiver.inBuf.buffer == inBuffer || fresh(receiver.inBuf.buffer)
      {
        NextCall(calls, i);
        states, actions := PerformNext(calls[i], calls[..i], states, actions);
      }
      assert calls[..|calls|] == calls;
      Delivered(calls, states, actions, State());
    }
  }
}
