// Short-lived HTTP connections: two indexes, one response each, and a queue of responses
// from the worker threads (src/http_svr/HttpConn.cpp). The out buffer is the byte sequence
// that SimpleBuffer implements.

module HttpConns {
  import opened Bytes
  import opened Sequences

  type Handle = int
  type Uuid = uint32

  const INVALID_HANDLE: Handle := -1
  const HTTP_CONN_TIMEOUT := 60000 * 2

  datatype ConnState = Idle | Connected | Closed

  datatype Response = Response(connUuid: Uuid, content: seq<byte>)

  // What the parser makes of a request: not complete, handed to a task, or without handler
  // and answered with a text.
  datatype Request = Incomplete | Handed | Unhandled(text: seq<byte>)

  datatype Message = MsgRead(chunks: seq<seq<byte>>, now: nat, request: Request) | MsgWrite | MsgClose

  // ++g_uuidAlloctor, once more if that gives 0.
  function NextUuid(allocator: uint32): (u: uint32)
    ensures u != 0
  {
    if allocator == 0xFFFF_FFFF then 1 else allocator + 1
  }

  function Joined<T>(chunks: seq<seq<T>>): seq<T> {
    if chunks == [] then [] else Joined(chunks[..|chunks| - 1]) + chunks[|chunks| - 1]
  }

  lemma JoinedNext<T>(chunks: seq<seq<T>>, i: nat)
    requires i < |chunks|
    ensures Joined(chunks[..i + 1]) == Joined(chunks[..i]) + chunks[i]
  {
    assert chunks[..i + 1][..i] == chunks[..i];
  }

  // Of the entries of m the late ones among those seen are gone.
  function Visited<V>(m: map<Handle, V>, late: set<Handle>, seen: seq<Handle>): map<Handle, V> {
    m - late * set h | h in seen
  }

  lemma VisitedOneMore<V>(m: map<Handle, V>, late: set<Handle>, order: seq<Handle>, i: nat)
    requires i < |order| && order[i] in m && order[i] !in order[..i]
    ensures var v := Visited(m, late, order[..i]);
            && order[i] in v && v[order[i]] == m[order[i]]
            && Visited(m, late, order[..i + 1]) == if order[i] in late then v - {order[i]} else v
  {
    assert order[..i + 1] == order[..i] + [order[i]];
  }

  lemma VisitedAll<V>(m: map<Handle, V>, late: set<Handle>, order: seq<Handle>)
    requires late <= m.Keys && forall h :: h in m ==> h in order
    ensures Visited(m, late, order) == m - late
  {
    forall h | h in late ensures h in order {
      assert h in m;
    }
    assert late * (set h | h in order) == late;
  }

  // The first element of a queue is done and others arrive.
  lemma OneDone<T>(before: seq<T>, done: seq<T>, queue: seq<T>, arrived: seq<T>, start: seq<T>, more: seq<T>)
    requires queue != [] && done + queue == start + more
    ensures before + done + [queue[0]] == before + (done + [queue[0]])
    ensures done + [queue[0]] + (queue[1..] + arrived) == start + (more + arrived)
    ensures arrived == [] ==> done + [queue[0]] + queue[1..] == start + more
  {
    assert done + [queue[0]] + (queue[1..] + arrived) == done + queue + arrived;
  }

  class HttpConn {
    const server: HttpServer
    const uuid: Uuid
    var handle: Handle
    var state: ConnState
    var busy: bool
    var outBuf: seq<byte>
    var inBuf: seq<byte>
    var lastRecvTick: nat
    var refCount: int
    ghost var submitted: seq<byte>  // all data given to Send
    ghost var wire: seq<byte>       // all bytes the socket took
    ghost var refusals: nat         // how often it took less than it was offered

    // The object itself; HttpServer.NewConn enters it under its uuid.
    constructor (server: HttpServer, uuid: Uuid, now: nat)
      ensures this.server == server && this.uuid == uuid && handle == INVALID_HANDLE && state == Idle
      ensures !busy && outBuf == inBuf == submitted == wire == []
      ensures refCount == 1 && lastRecvTick == now
    {
      this.server, this.uuid, handle, state, busy := server, uuid, INVALID_HANDLE, Idle, false;
      outBuf, inBuf, lastRecvTick, refCount := [], [], now, 1;
      submitted, wire, refusals := [], [], 0;
    }

    // What concerns the connection alone: it is deleted, once, when it is closed; the busy
    // flag holds exactly when something is buffered; and no byte is lost or reordered.
    ghost predicate Sound()
      reads this
    {
      && refCount == (if state == Closed then 0 else 1)
      && (busy <==> outBuf != [])
      && submitted == wire + outBuf
      && (state == Idle ==> handle == INVALID_HANDLE)
    }

    method ReleaseRef()
      requires refCount > 0
      modifies this`refCount
      ensures refCount == old(refCount) - 1
    {
      refCount := refCount - 1;
    }

    method Close()
      requires Sound()
      modifies this`state, this`refCount, server`connMap, server`uuidMap, server`open
      ensures Sound() && state == Closed
      ensures old(server.Agree() && this in server.all) ==> server.Agree()
      ensures old(state) == Closed ==> unchanged(server)
      ensures old(state) != Closed ==> Gone()
    {
      if state != Closed {
        ghost var listed := server.Agree() && this in server.all;
        assert listed ==> server.Indexed(this);
        state := Closed;
        server.Erase(handle, uuid);
        ReleaseRef();
        if listed {
          forall c | c in server.all && c != this ensures server.Indexed(c) {
            assert c.state != Closed ==> c.uuid != uuid;
            assert c.state == Connected ==> c.handle != handle;
          }
        }
      }
    }

    // The connection has been closed: whatever was under its handle and under its uuid is
    // erased, and the descriptor is given back.
    twostate predicate Gone()
      reads this, server
    {
      && state == Closed
      && server.connMap == old(server.connMap) - {handle} && server.uuidMap == old(server.uuidMap) - {uuid}
      && server.open == old(server.open) - {handle}
    }

    // Reached only with everything sent.
    method OnWriteCompelete()
      requires server.Agree() && Sound() && this in server.all && state != Closed && outBuf == []
      modifies this`state, this`refCount, server`connMap, server`uuidMap, server`open
      ensures server.Agree() && Sound() && Gone()
    {
      Close();
    }

    // netlib_send and what both its callers make of an error: nothing was sent.
    method NetlibSend(data: seq<byte>) returns (ret: nat)
      modifies this`wire, this`refusals
      ensures ret <= |data| && wire + data[ret..] == old(wire) + data
      ensures refusals == old(refusals) + if ret < |data| then 1 else 0
    {
      var result: int :| -1 <= result <= |data|;
      ret := if result < 0 then 0 else result;
      refusals := refusals + if ret < |data| then 1 else 0;
      wire := wire + data[..ret];
      assert data[..ret] + data[ret..] == data;
    }

    // If the socket takes everything at once the connection is closed, else what is left
    // is buffered.
    method Send(data: seq<byte>) returns (len: nat)
      requires server.Agree() && Sound() && this in server.all && state != Closed
      modifies this, server`connMap, server`uuidMap, server`open
      ensures server.Agree() && Sound() && len == |data| && submitted == old(submitted) + data
      ensures handle == old(handle) && inBuf == old(inBuf) && lastRecvTick == old(lastRecvTick)
      ensures old(busy) ==> wire == old(wire) && refusals == old(refusals)
      // something stays behind only because the socket took less than all
      ensures !old(busy) && busy ==> refusals == old(refusals) + 1
      ensures busy ==> state == old(state) && unchanged(server)
      ensures !busy ==> Gone()
    {
      if busy {
        Associates(wire, outBuf, data);
        submitted := submitted + data;
        outBuf := outBuf + data;
      } else {
        SendAtOnce(data);
      }
      len := |data|;
    }

    // The case that nothing is buffered.
    method SendAtOnce(data: seq<byte>)
      requires server.Agree() && Sound() && this in server.all && state != Closed && !busy
      modifies this, server`connMap, server`uuidMap, server`open
      ensures server.Agree() && Sound() && submitted == old(submitted) + data
      ensures handle == old(handle) && inBuf == old(inBuf) && lastRecvTick == old(lastRecvTick)
      ensures if busy then refusals == old(refusals) + 1 && state == old(state) && unchanged(server) else Gone()
    {
      var ret := Offer(data);
      if ret < |data| {
        busy := true;
      } else {
        OnWriteCompelete();
      }
    }

    // What the socket does not take is in the out buffer.
    method Offer(data: seq<byte>) returns (ret: nat)
      requires submitted == wire && outBuf == []
      modifies this`submitted, this`wire, this`refusals, this`outBuf
      ensures ret <= |data| && outBuf == data[ret..]
      ensures submitted == old(submitted) + data && submitted == wire + outBuf
      ensures refusals == old(refusals) + if ret < |data| then 1 else 0
    {
      submitted := submitted + data;
      ret := NetlibSend(data);
      outBuf := outBuf + data[ret..];
    }

    method OnConnect(handle: Handle)
      requires Sound() && state == Idle
      requires handle >= 0 && handle in server.open && handle !in server.connMap
      modifies this`handle, this`state, server`connMap
      ensures Sound() && state == Connected && this.handle == handle
      ensures old(server.Agree() && this in server.all) ==> server.Agree()
      ensures server.connMap == old(server.connMap)[handle := this]
    {
      this.handle := handle;
      state := Connected;
      server.connMap := server.connMap[handle := this];
    }

    // The receives return the chunks, then nothing or an error.
    method OnRead(chunks: seq<seq<byte>>, now: nat, request: Request)
      requires server.Agree() && Sound() && this in server.all && state != Closed
      modifies this, server`connMap, server`uuidMap, server`open
      ensures server.Agree() && Sound()
      ensures inBuf == old(inBuf) + Joined(chunks)
      ensures lastRecvTick == if chunks == [] then old(lastRecvTick) else now
      ensures submitted == old(submitted) + if request.Unhandled? then request.text else []
      ensures !request.Unhandled? || busy ==> state == old(state) && unchanged(server)
      ensures request.Unhandled? && !busy ==> Gone()
      ensures request.Unhandled? && !old(busy) && busy ==> refusals == old(refusals) + 1
    {
      Receive(chunks, now);
      if request.Unhandled? {
        var _ := Send(request.text);
      }
    }

    // The loop of OnRead.
    method Receive(chunks: seq<seq<byte>>, now: nat)
      modifies this`inBuf, this`lastRecvTick
      ensures inBuf == old(inBuf) + Joined(chunks)
      ensures lastRecvTick == if chunks == [] then old(lastRecvTick) else now
    {
      for i := 0 to |chunks|
        invariant inBuf == old(inBuf) + Joined(chunks[..i])
        invariant lastRecvTick == if i == 0 then old(lastRecvTick) else now
      {
        inBuf := inBuf + chunks[i];
        lastRecvTick := now;
        JoinedNext(chunks, i);
      }
      assert chunks[..|chunks|] == chunks;
    }

    method OnWrite()
      requires server.Agree() && Sound() && this in server.all && state != Closed
      modifies this`state, this`refCount, this`busy, this`outBuf, this`wire, this`refusals
      modifies server`connMap, server`uuidMap, server`open
      ensures server.Agree() && Sound()
      ensures !old(busy) ==> unchanged(this) && unchanged(server)
      ensures old(busy) && busy ==> refusals == old(refusals) + 1
      ensures busy ==> state == old(state) && unchanged(server)
      ensures old(busy) && !busy ==> Gone()
    {
      if !busy {
        return;
      }
      var size := |outBuf|;
      var ret := Flush();
      if ret < size {
        busy := true;
      } else {
        busy := false;
        OnWriteCompelete();
      }
    }

    method Flush() returns (ret: nat)
      requires submitted == wire + outBuf
      modifies this`wire, this`refusals, this`outBuf
      ensures ret <= |old(outBuf)| && outBuf == old(outBuf)[ret..] && submitted == wire + outBuf
      ensures refusals == old(refusals) + if ret < |old(outBuf)| then 1 else 0
    {
      ret := NetlibSend(outBuf);
      outBuf := outBuf[ret..];
    }

    method OnTimer(currTick: nat)
      requires server.Agree() && Sound() && this in server.all
      modifies this`state, this`refCount, server`connMap, server`uuidMap, server`open
      ensures server.Agree() && Sound()
      ensures currTick <= lastRecvTick + 120000 || old(state) == Closed ==>
                unchanged(this) && unchanged(server)
      ensures currTick > lastRecvTick + 120000 && old(state) != Closed ==> Gone()
    {
      if currTick > lastRecvTick + HTTP_CONN_TIMEOUT {
        Close();
      }
    }

    // What the connection has done about a message: received the chunks and answered an
    // unhandled request; sent what the socket would take, and closed if that was all; closed.
    twostate predicate Answered(msg: Message)
      reads this
    {
      match msg
      case MsgRead(chunks, now, request) =>
        && inBuf == old(inBuf) + Joined(chunks)
        && lastRecvTick == (if chunks == [] then old(lastRecvTick) else now)
        && submitted == old(submitted) + (if request.Unhandled? then request.text else [])
        && (state == if request.Unhandled? && !busy then Closed else old(state))
      case MsgWrite =>
        && submitted == old(submitted) && inBuf == old(inBuf)
        && (if !old(busy) then outBuf == old(outBuf) && state == old(state)
            else if busy then refusals == old(refusals) + 1 && state == old(state)
            else outBuf == [] && state == Closed)
      case MsgClose => state == Closed && submitted == old(submitted) && outBuf == old(outBuf)
    }

    ghost function Now(): Snapshot
      reads this
    {
      Snapshot(handle, state, busy, outBuf, inBuf, lastRecvTick, refCount, submitted, wire, refusals)
    }

    // What SendResponseList does with a response to this connection.
    method Take(r: Response)
      requires server.Agree() && Sound() && this in server.all && state != Closed
      modifies this, server`connMap, server`uuidMap, server`open
      ensures server.Agree() && Sound() && Taken(old(Now()), r, Now())
    {
      if |r.content| > 0 {
        var _ := Send(r.content);
      } else {
        assert submitted + r.content == submitted;
        Close();
      }
    }

    // The switch of HttpConnCallback.
    method HandleMessage(msg: Message)
      requires server.Agree() && Sound() && this in server.all && state != Closed
      modifies this, server`connMap, server`uuidMap, server`open
      ensures server.Agree() && Sound() && Answered(msg)
    {
      match msg {
        case MsgRead(chunks, now, request) => OnRead(chunks, now, request);
        case MsgWrite => OnWrite();
        case MsgClose => Close();
      }
    }
  }

  // Until the allocator wraps, no two connections have ever had the same uuid.
  ghost predicate NoReuse(all: set<HttpConn>, allocator: uint32) {
    && (forall c :: c in all ==> 1 <= c.uuid <= allocator)
    && (forall c, d :: c in all && d in all && c.uuid == d.uuid ==> c == d)
  }

  lemma NoReuseYet(all: set<HttpConn>, allocator: uint32, c: HttpConn)
    requires c.uuid == NextUuid(allocator)
    ensures NoReuse(all, allocator) && allocator < 0xFFFF_FFFF ==> NoReuse(all + {c}, c.uuid)
  {
  }

  // ---- What a connection gets of a sequence of responses

  // Those with its uuid.
  function Mine(rs: seq<Response>, uuid: Uuid): (mine: seq<Response>)
    ensures forall r :: r in rs && r.connUuid == uuid ==> r in mine
  {
    if rs == [] then []
    else
      var n := |rs| - 1;
      Mine(rs[..n], uuid) + if rs[n].connUuid == uuid then [rs[n]] else []
  }

  function Contents(rs: seq<Response>): seq<byte> {
    if rs == [] then [] else Contents(rs[..|rs| - 1]) + rs[|rs| - 1].content
  }

  // All there is to a connection at some time.
  datatype Snapshot = Snapshot(
    handle: Handle, state: ConnState, busy: bool, outBuf: seq<byte>, inBuf: seq<byte>, lastRecvTick: nat,
    refCount: int, submitted: seq<byte>, wire: seq<byte>, refusals: nat)

  // The connection went from a to b by getting the first j of the responses, and no more
  // because it was closed: by the last of them, or at the start. An empty one closes it.
  ghost predicate GotFirst(a: Snapshot, mine: seq<Response>, j: nat, b: Snapshot) {
    && j <= |mine| && b.submitted == a.submitted + Contents(mine[..j])
    && (forall i :: 0 <= i < j ==> mine[i].content != [] || (i == j - 1 && b.state == Closed))
    && (if a.state == Closed then j == 0 && b.state == Closed
        else if b.state == Closed then j > 0
        else j == |mine|)
    && (j > 0 && mine[j - 1].content != [] ==> ClosedIfSent(b))
  }

  // And without any it is left alone.
  ghost predicate Got(a: Snapshot, mine: seq<Response>, b: Snapshot) {
    && (exists j: nat :: GotFirst(a, mine, j, b))
    && (mine == [] ==> b == a)
  }

  lemma GotNothing(a: Snapshot)
    ensures Got(a, [], a)
  {
    assert a.submitted + [] == a.submitted;
    assert GotFirst(a, [], 0, a);
  }

  // What one more response to this connection does to it.
  predicate Taken(b: Snapshot, r: Response, c: Snapshot) {
    if b.state == Closed then c == b
    else
      && c.submitted == b.submitted + r.content
      && (if r.content == [] then c.state == Closed && c.wire == b.wire else ClosedIfSent(c))
  }

  // A connection is closed by a response exactly if everything has been sent.
  predicate ClosedIfSent(c: Snapshot) {
    c.state == Closed <==> c.outBuf == []
  }

  lemma GotOneMore(a: Snapshot, mine: seq<Response>, b: Snapshot, r: Response, c: Snapshot)
    requires Got(a, mine, b) && Taken(b, r, c)
    ensures Got(a, mine + [r], c)
  {
    var j: nat :| GotFirst(a, mine, j, b);
    var more := mine + [r];
    if b.state == Closed {
      assert more[..j] == mine[..j];
      assert GotFirst(a, more, j, c);
    } else {
      assert more[..j] == mine[..j] && more[..j + 1][..j] == mine[..j];
      Associates(a.submitted, Contents(mine[..j]), r.content);
      assert GotFirst(a, more, j + 1, c);
    }
  }

  type Shots = map<HttpConn, Snapshot>

  // What a response does to all connections: those with its uuid take it, if they are open.
  ghost predicate AllTaken(before: Shots, r: Response, after: Shots) {
    && before.Keys == after.Keys
    && forall d :: d in before ==> if d.uuid == r.connUuid then Taken(before[d], r, after[d]) else after[d] == before[d]
  }

  // What a sequence of responses does.
  ghost predicate Routed(start: Shots, done: seq<Response>, now: Shots) {
    && start.Keys == now.Keys
    && forall d :: d in start ==> Got(start[d], Mine(done, d.uuid), now[d])
  }

  lemma RoutedNothing(start: Shots)
    ensures Routed(start, [], start)
  {
    forall d | d in start ensures Got(start[d], Mine([], d.uuid), start[d]) {
      GotNothing(start[d]);
    }
  }

  lemma RoutedMore(start: Shots, done: seq<Response>, now: Shots, r: Response, after: Shots)
    requires Routed(start, done, now) && AllTaken(now, r, after)
    ensures Routed(start, done + [r], after)
  {
    forall d | d in start ensures Got(start[d], Mine(done + [r], d.uuid), after[d]) {
      MineOfMore(done, r, d.uuid);
      if d.uuid == r.connUuid {
        GotOneMore(start[d], Mine(done, d.uuid), now[d], r, after[d]);
      } else {
        assert Mine(done, d.uuid) + [] == Mine(done, d.uuid);
      }
    }
  }

  lemma MineOfMore(rs: seq<Response>, r: Response, uuid: Uuid)
    ensures Mine(rs + [r], uuid) == Mine(rs, uuid) + if r.connUuid == uuid then [r] else []
  {
    assert (rs + [r])[..|rs|] == rs;
  }

  class HttpServer {
    var connMap: map<Handle, HttpConn>
    var uuidMap: map<Uuid, HttpConn>
    var uuidAllocator: uint32
    var responseList: seq<Response>
    var open: set<Handle>               // the descriptors accepted and not closed
    ghost var all: set<HttpConn>        // every connection ever made
    ghost var dequeued: seq<Response>

    constructor ()
      ensures connMap == map[] && uuidMap == map[] && open == {}
      ensures Valid() && all == {} && responseList == dequeued == [] && uuidAllocator == 0
    {
      connMap, uuidMap, uuidAllocator, responseList, open, all, dequeued := map[], map[], 0, [], {}, {}, [];
    }

    method Erase(handle: Handle, uuid: Uuid)
      modifies this`connMap, this`uuidMap, this`open
      ensures connMap == old(connMap) - {handle} && uuidMap == old(uuidMap) - {uuid} && open == old(open) - {handle}
    {
      connMap := connMap - {handle};
      uuidMap := uuidMap - {uuid};
      open := open - {handle};  // netlib_close
    }

    // A connection is under its uuid until it is closed, and under its handle while it is
    // connected ...
    ghost predicate Indexed(c: HttpConn)
      reads this`connMap, this`uuidMap, c`handle, c`state
    {
      && (c.state != Closed ==> c.uuid in uuidMap && uuidMap[c.uuid] == c)
      && (c.state == Connected ==> c.handle in connMap && connMap[c.handle] == c)
    }

    // ... and the indexes hold nothing else.
    ghost predicate Agree()
      reads this`connMap, this`uuidMap, this`open, this`all, all`handle, all`state
    {
      && (forall c :: c in all ==> c.server == this)
      && (forall c :: c in all ==> Indexed(c))
      && (forall u :: u in uuidMap ==> uuidMap[u] in all && uuidMap[u].uuid == u && uuidMap[u].state != Closed)
      && (forall h :: h in connMap ==>
            h >= 0 && connMap[h] in all && connMap[h].handle == h && connMap[h].state == Connected)
      && connMap.Keys <= open
    }

    ghost predicate Valid()
      reads this`connMap, this`uuidMap, this`open, this`all, all
    {
      Agree() && forall c :: c in all ==> c.Sound()
    }

    ghost predicate Unwrapped()
      reads this`all, this`uuidAllocator
    {
      NoReuse(all, uuidAllocator)
    }

    lemma UnwrappedUuidIsFree()
      requires Agree() && Unwrapped() && uuidAllocator < 0xFFFF_FFFF
      ensures NextUuid(uuidAllocator) !in uuidMap
    {
    }

    // What OnConnect and Close keep is exactly this: each index finds the connections it
    // should, and no others.
    lemma IndexesAgree(c: HttpConn)
      requires Agree() && c in all
      ensures c.state != Closed <==> c.uuid in uuidMap && uuidMap[c.uuid] == c
      ensures c.state == Connected <==> c.handle in connMap && connMap[c.handle] == c
    {
      assert Indexed(c);
      var h := c.handle;
      if h in connMap {
        assert connMap[h].state == Connected;
      }
    }

    // insert leaves the map as it is if the key is there.
    static function Inserted(m: map<Uuid, HttpConn>, u: Uuid, c: HttpConn): map<Uuid, HttpConn> {
      if u in m then m else m[u := c]
    }

    // The indexes go on agreeing if and only if no open connection has the next uuid: insert
    // does not replace an entry, so the new connection would be under no uuid.
    method NewConn(now: nat) returns (c: HttpConn)
      requires Valid()
      modifies this`uuidAllocator, this`uuidMap, this`all
      ensures Valid() <==> NextUuid(old(uuidAllocator)) !in old(uuidMap)
      ensures fresh(c) && all == old(all) + {c} && c.server == this && c.Sound()
      ensures c.uuid == uuidAllocator == NextUuid(old(uuidAllocator)) && c.state == Idle && c.submitted == []
      ensures c.uuid == if old(uuidAllocator) == 0xFFFF_FFFF then 1 else old(uuidAllocator) + 1
      ensures uuidMap == Inserted(old(uuidMap), c.uuid, c)
      ensures c.uuid in old(uuidMap) ==> uuidMap[c.uuid] != c
      ensures old(Unwrapped()) && old(uuidAllocator) < 0xFFFF_FFFF ==> Unwrapped()
    {
      c := new HttpConn(this, NextUuid(uuidAllocator), now);
      Enter(c);
    }

    method Enter(c: HttpConn)
      requires Valid()
      requires c !in all && c.server == this && c.uuid == NextUuid(uuidAllocator) && c.state == Idle && c.Sound()
      modifies this`uuidAllocator, this`uuidMap, this`all
      ensures Valid() <==> NextUuid(old(uuidAllocator)) !in old(uuidMap)
      ensures all == old(all) + {c} && uuidAllocator == c.uuid && uuidMap == Inserted(old(uuidMap), c.uuid, c)
      ensures c.uuid in old(uuidMap) ==> uuidMap[c.uuid] != c
      ensures old(Unwrapped()) && old(uuidAllocator) < 0xFFFF_FFFF ==> Unwrapped()
    {
      NoReuseYet(all, uuidAllocator, c);
      uuidAllocator := c.uuid;
      Insert(c);
    }

    method Insert(c: HttpConn)
      requires Valid() && c !in all && c.server == this && c.state == Idle && c.Sound()
      modifies this`uuidMap, this`all
      ensures Valid() <==> c.uuid !in old(uuidMap)
      ensures all == old(all) + {c} && uuidMap == Inserted(old(uuidMap), c.uuid, c)
      ensures c.uuid in old(uuidMap) ==> uuidMap[c.uuid] != c
    {
      ghost var free := c.uuid !in uuidMap;
      uuidMap := Inserted(uuidMap, c.uuid, c);
      all := all + {c};
      if free {
        forall d | d in all ensures Indexed(d) {
          assert d != c ==> old(Indexed(d));
        }
      } else {
        UnderNoUuid(c);
      }
    }

    // With another connection under its uuid the indexes do not agree.
    lemma UnderNoUuid(c: HttpConn)
      requires c in all && c.state != Closed && c.uuid in uuidMap && uuidMap[c.uuid] != c
      ensures !Valid()
    {
      assert !Indexed(c);
    }

    // The listening socket accepted handle.
    method HttpCallback(handle: Handle, now: nat) returns (c: HttpConn)
      requires Valid() && handle >= 0 && handle !in open
      modifies this`uuidAllocator, this`uuidMap, this`connMap, this`open, this`all
      ensures Valid() <==> NextUuid(old(uuidAllocator)) !in old(uuidMap)
      ensures fresh(c) && all == old(all) + {c} && c.server == this && c.Sound()
      ensures c.uuid == uuidAllocator == NextUuid(old(uuidAllocator))
      ensures c.state == Connected && c.handle == handle && c.submitted == []
      ensures uuidMap == Inserted(old(uuidMap), c.uuid, c) && connMap == old(connMap)[handle := c]
      ensures open == old(open) + {handle}
      ensures old(Unwrapped()) && old(uuidAllocator) < 0xFFFF_FFFF ==> Unwrapped()
    {
      c := Accept(handle, now);
      Connect(c, handle);
    }

    // OnConnect does not change whether the indexes agree.
    method Connect(c: HttpConn, handle: Handle)
      requires c in all && c.server == this && c.Sound() && c.state == Idle
      requires handle >= 0 && handle in open && handle !in connMap
      requires Valid() || (c.uuid in uuidMap && uuidMap[c.uuid] != c)
      modifies c`handle, c`state, this`connMap
      ensures c.Sound() && c.state == Connected && c.handle == handle && connMap == old(connMap)[handle := c]
      ensures c.uuid in uuidMap && uuidMap[c.uuid] != c ==> !Valid()
      ensures old(Valid()) ==> Valid()
    {
      c.OnConnect(handle);
      if c.uuid in uuidMap && uuidMap[c.uuid] != c {
        UnderNoUuid(c);
      }
    }

    method Accept(handle: Handle, now: nat) returns (c: HttpConn)
      requires Valid() && handle >= 0 && handle !in open
      modifies this`uuidAllocator, this`uuidMap, this`open, this`all
      ensures Valid() <==> NextUuid(old(uuidAllocator)) !in old(uuidMap)
      ensures fresh(c) && all == old(all) + {c} && c.server == this && c.Sound()
      ensures c.uuid == uuidAllocator == NextUuid(old(uuidAllocator)) && c.state == Idle && c.submitted == []
      ensures uuidMap == Inserted(old(uuidMap), c.uuid, c) && (c.uuid in old(uuidMap) ==> uuidMap[c.uuid] != c)
      ensures open == old(open) + {handle} && handle !in connMap
      ensures old(Unwrapped()) && old(uuidAllocator) < 0xFFFF_FFFF ==> Unwrapped()
    {
      open := open + {handle};
      c := NewConn(now);
    }

    // A connection that is accepted and closed at once.
    method ComeAndGo(handle: Handle, now: nat) returns (c: HttpConn)
      requires Valid() && handle >= 0 && handle !in open
      requires Unwrapped() && uuidAllocator < 0xFFFF_FFFF
      modifies this`uuidAllocator, this`uuidMap, this`connMap, this`open, this`all
      ensures Valid() && Unwrapped() && open == old(open) && uuidAllocator == old(uuidAllocator) + 1
      ensures fresh(c) && all == old(all) + {c} && c.state == Closed
    {
      UnwrappedUuidIsFree();
      c := HttpCallback(handle, now);
      c.Close();
      assert open == old(open) + {handle} - {handle};
    }

    // After a wrap: a connection accepted while another open one has the next uuid takes the
    // other one's entry with it when it is closed. The other is open still, but no event and
    // no response finds it any more.
    method AcceptAndClose(handle: Handle, now: nat) returns (c: HttpConn, other: HttpConn)
      requires Valid() && NextUuid(uuidAllocator) in uuidMap && handle >= 0 && handle !in open
      modifies this`uuidAllocator, this`uuidMap, this`connMap, this`open, this`all
      ensures other == old(uuidMap[NextUuid(uuidAllocator)]) && other.uuid == c.uuid && c != other
      ensures c.state == Closed && other.state != Closed && unchanged(other)
      ensures other.uuid !in uuidMap
    {
      other := uuidMap[NextUuid(uuidAllocator)];
      c := HttpCallback(handle, now);
      c.Close();
    }

    method GetHttpConnByUuid(uuid: Uuid) returns (c: HttpConn?)
      ensures c == if uuid in uuidMap then uuidMap[uuid] else null
    {
      c := if uuid in uuidMap then uuidMap[uuid] else null;
    }

    // An event of a socket whose callback data is uuid. Whatever it is, it touches that
    // connection alone, and nothing if the connection is closed.
    method HttpConnCallback(uuid: Uuid, msg: Message)
      requires Valid()
      modifies this`connMap, this`uuidMap, this`open, all
      ensures Valid()
      ensures uuid !in old(uuidMap) ==> unchanged(this) && unchanged(all)
      ensures forall d :: d in all && d.uuid != uuid ==> unchanged(d)
      ensures uuid in old(uuidMap) ==> old(uuidMap[uuid]).Answered(msg)
    {
      var c := GetHttpConnByUuid(uuid);
      if c == null {
        return;
      }
      c.HandleMessage(msg);
    }

    // Called by the worker threads.
    method AddResponse(uuid: Uuid, content: seq<byte>)
      modifies this`responseList
      ensures responseList == old(responseList) + [Response(uuid, content)]
    {
      responseList := responseList + [Response(uuid, content)];
    }

    // The open connection with the uuid of r gets its content, and an empty one closes it; all
    // other connections are left alone.
    method HandleResponse(r: Response)
      requires Valid()
      modifies this`connMap, this`uuidMap, this`open, all
      ensures Valid()
      ensures r.connUuid !in old(uuidMap) ==> unchanged(this) && unchanged(all)
      ensures forall d :: d in all ==>
                if d.uuid == r.connUuid then Taken(old(d.Now()), r, d.Now()) else d.Now() == old(d.Now())
    {
      var c := GetHttpConnByUuid(r.connUuid);
      if c != null {
        c.Take(r);
      }
    }

    ghost function Shots(): (shots: Shots)
      reads this`all, all
      ensures shots.Keys == all
    {
      map d | d in all :: d.Now()
    }

    method RouteResponse(r: Response)
      requires Valid()
      modifies this`connMap, this`uuidMap, this`open, all
      ensures Valid() && AllTaken(old(Shots()), r, Shots())
    {
      HandleResponse(r);
    }

    method PopFront() returns (r: Response)
      requires Valid() && responseList != []
      modifies this`responseList, this`dequeued
      ensures Valid() && Shots() == old(Shots())
      ensures r == old(responseList)[0] && responseList == old(responseList)[1..] && dequeued == old(dequeued) + [r]
    {
      r := responseList[0];
      responseList := responseList[1..];
      dequeued := dequeued + [r];
    }

    // What other threads add between two turns.
    method AddResponses(rs: seq<Response>)
      requires Valid()
      modifies this`responseList
      ensures Valid() && Shots() == old(Shots()) && responseList == old(responseList) + rs
    {
      for i := 0 to |rs|
        invariant responseList == old(responseList) + rs[..i]
      {
        AddResponse(rs[i].connUuid, rs[i].content);
        assert rs[..i + 1] == rs[..i] + [rs[i]];
      }
      assert rs[..|rs|] == rs;
    }

    // One turn of the loop of SendResponseList.
    method HandleFront(ghost start: Shots, ghost done: seq<Response>)
      requires Valid() && responseList != [] && Routed(start, done, Shots())
      modifies this`connMap, this`uuidMap, this`open, this`responseList, this`dequeued, all
      ensures Valid() && Routed(start, done + [old(responseList)[0]], Shots())
      ensures responseList == old(responseList)[1..] && dequeued == old(dequeued) + [old(responseList)[0]]
    {
      ghost var before := Shots();
      var r := PopFront();
      RouteResponse(r);
      RoutedMore(start, done, before, r, Shots());
    }

    // arrivals[k] is what the worker threads add while the k-th response is handled. Each
    // response is dequeued once, in order; every connection gets those with its uuid until one
    // closes it, and one to which none is addressed is left alone.
    method SendResponseList(arrivals: seq<seq<Response>>) returns (rounds: nat)
      requires Valid()
      modifies this`connMap, this`uuidMap, this`open, this`responseList, this`dequeued, all
      ensures Valid() && responseList == [] && rounds <= |arrivals|
      ensures var done := old(responseList) + Joined(arrivals[..rounds]);
              && dequeued == old(dequeued) + done
              && Routed(old(Shots()), done, Shots())
    {
      rounds := 0;
      ghost var start, done, more := Shots(), [], [];
      RoutedNothing(start);
      while responseList != []
        invariant Valid() && Routed(start, done, Shots())
        invariant dequeued == old(dequeued) + done
        invariant rounds <= |arrivals| && more == Joined(arrivals[..rounds])
        invariant done + responseList == old(responseList) + more
        decreases |arrivals| - rounds, |responseList|
      {
        ghost var r, list := responseList[0], responseList;
        HandleFront(start, done);
        if rounds < |arrivals| {
          JoinedNext(arrivals, rounds);
          OneDone(old(dequeued), done, list, arrivals[rounds], old(responseList), more);
          AddResponses(arrivals[rounds]);
          more := more + arrivals[rounds];
          rounds := rounds + 1;
        } else {
          OneDone(old(dequeued), done, list, [], old(responseList), more);
        }
        done := done + [r];
      }
      assert done + [] == done;
    }

    // The handles of the connections that have not received anything for too long.
    ghost function Late(currTick: nat): set<Handle>
      reads this`connMap, connMap.Values`lastRecvTick
    {
      set h | h in connMap && currTick > connMap[h].lastRecvTick + 120000
    }

    // Exactly those are closed. The map is traversed in the given order.
    method HttpConnTimerCallback(currTick: nat, order: seq<Handle>)
      requires Valid()
      requires forall i :: 0 <= i < |order| ==> order[i] in connMap
      requires forall i, j :: 0 <= i < j < |order| ==> order[i] != order[j]
      requires forall h :: h in connMap ==> h in order
      modifies this`connMap, this`uuidMap, this`open, all`state, all`refCount
      ensures Valid()
      ensures connMap == old(connMap) - old(Late(currTick))
    {
      ghost var before, late := connMap, Late(currTick);
      for i := 0 to |order|
        invariant Valid() && connMap == Visited(before, late, order[..i])
      {
        VisitedOneMore(before, late, order, i);
        TimeOne(order[i], currTick);
      }
      assert order[..|order|] == order;
      VisitedAll(before, late, order);
    }

    method TimeOne(h: Handle, currTick: nat)
      requires Valid() && h in connMap
      modifies this`connMap, this`uuidMap, this`open, all`state, all`refCount
      ensures Valid()
      ensures connMap == if currTick > old(connMap[h].lastRecvTick) + 120000 then old(connMap) - {h}
                         else old(connMap)
    {
      connMap[h].OnTimer(currTick);
    }
  }

  // A run that gets there: the first connection stays open while the allocator hands out all
  // the other uuids.
  method WrapHappens() returns (server: HttpServer, first: HttpConn)
    ensures server.Valid() && NextUuid(server.uuidAllocator) in server.uuidMap
    ensures server.uuidMap[NextUuid(server.uuidAllocator)] == first && first.state == Connected
  {
    server := new HttpServer();
    first := server.HttpCallback(0, 0);
    while server.uuidAllocator < 0xFFFF_FFFF
      invariant fresh(server) && fresh(server.all)
      invariant FirstIsOpen(server, first)
      decreases 0xFFFF_FFFF - server.uuidAllocator
    {
      OneMore(server, first);
    }
    server.IndexesAgree(first);
  }

  ghost predicate FirstIsOpen(server: HttpServer, first: HttpConn)
    reads server, server.all
  {
    && server.Valid() && server.Unwrapped() && server.open == {0}
    && first in server.all && first.uuid == 1 && first.state == Connected && first.handle == 0
  }

  method OneMore(server: HttpServer, first: HttpConn)
    requires FirstIsOpen(server, first) && server.uuidAllocator < 0xFFFF_FFFF
    modifies server
    ensures FirstIsOpen(server, first) && server.uuidAllocator == old(server.uuidAllocator) + 1
    ensures fresh(server.all - old(server.all))
  {
    var next := server.ComeAndGo(1, 0);
    assert server.all - old(server.all) <= {next};
  }
}
