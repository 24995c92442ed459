// Reference-counted sockets, the table that finds them by descriptor, and the epoll
// dispatch loop whose callbacks may send, receive, close and open sockets, the one being
// dispatched included (src/core/BaseSocket.cpp, NetLib.cpp, EventDispatch.cpp and the
// reference counts of Util.cpp).

module Sockets {
  import opened Options
  import opened Sequences

  type Fd = int

  const INVALID_SOCKET: Fd := -1
  const NETLIB_OK := 0
  const NETLIB_ERROR := -1
  const NETLIB_INVALID_HANDLE := -1

  datatype SocketState = Idle | Listening | Connecting | Connected | Closing

  // What the system calls under one operation answer.
  datatype Answer = Count(n: nat) | WouldBlock | Failure

  datatype Opening = NoSocket | Refused | Accepted

  // What a callback may do with the library.
  datatype Op =
    | Send(to: Fd, answer: Answer)
    | Recv(from: Fd, answer: Answer)
    | Close(handle: Fd)
    | Connect(connected: Opening)
    | Listen(listening: Opening)
    | StopEvent

  datatype Event = Event(
    fd: Fd,
    rdhup: Option<seq<Op>>,
    in_: Option<Reading>,
    out: Option<Writing>,
    hup: Option<seq<Op>>)

  // On a listening socket, one script for each connection accepted; else the one script.
  datatype Reading = Reading(accepts: seq<seq<Op>>, script: seq<Op>)

  datatype Writing = Writing(error: int, script: seq<Op>)

  // One turn of the loop: the events, then what timers and loop callbacks do.
  datatype Turn = Turn(events: seq<Event>, after: seq<Op>)

  // What the callbacks of OnRead do on a socket in the given state.
  function Scripts(r: Reading, state: SocketState): seq<seq<Op>> {
    if state == Listening then r.accepts else [r.script]
  }

  // One of the scripts does op.
  predicate OpIn(op: Op, scripts: seq<seq<Op>>) {
    exists j :: 0 <= j < |scripts| && op in scripts[j]
  }

  predicate CloseIn(handle: Fd, scripts: seq<seq<Op>>) {
    OpIn(Close(handle), scripts)
  }

  // All the callbacks that an event runs on a socket in the given state, in turn.
  function Executed(e: Event, state: SocketState): seq<seq<Op>> {
    InputScripts(e, state) + OutputScripts(e)
  }

  function InputScripts(e: Event, state: SocketState): seq<seq<Op>> {
    (if e.rdhup.Some? then [e.rdhup.value] else []) +
    (if e.in_.Some? then Scripts(e.in_.value, AfterInput(e, state)) else [])
  }

  function OutputScripts(e: Event): seq<seq<Op>> {
    (if e.out.Some? then [e.out.value.script] else []) + (if e.hup.Some? then [e.hup.value] else [])
  }

  // What becomes of the state of the socket an event is for.
  function AfterEvent(e: Event, state: SocketState): SocketState {
    AfterOutput(e, AfterInput(e, state))
  }

  function AfterInput(e: Event, state: SocketState): SocketState {
    if e.rdhup.Some? then Closing else state
  }

  function AfterOutput(e: Event, state: SocketState): SocketState {
    if e.hup.Some? then Closing else if e.out.Some? then AfterWrite(e.out.value, state) else state
  }

  function AfterWrite(w: Writing, state: SocketState): SocketState {
    if state == Connecting && w.error == 0 then Connected else state
  }

  // An event closes the socket, or connects a connecting one if there is no error, or leaves
  // its state alone.
  lemma StateAfterEvent(e: Event, state: SocketState)
    ensures var after := AfterEvent(e, state);
            && (after == Closing <==> e.rdhup != None || e.hup != None || state == Closing)
            && (after == Connected <==> (e.rdhup == None && e.hup == None &&
                (state == Connected || (state == Connecting && e.out.Some? && e.out.value.error == 0))))
            && (after != Closing && after != Connected ==> after == state)
  {
  }

  // It runs the callbacks of those of its handlers that the flags ask for, and of no others.
  lemma ExecutedMeans(e: Event, state: SocketState, op: Op)
    ensures OpIn(op, Executed(e, state)) <==>
            || (e.rdhup.Some? && op in e.rdhup.value)
            || (e.in_.Some? && if state == Listening && e.rdhup == None then OpIn(op, e.in_.value.accepts)
                               else op in e.in_.value.script)
            || (e.out.Some? && op in e.out.value.script)
            || (e.hup.Some? && op in e.hup.value)
  {
    OpInBoth(op, InputScripts(e, state), OutputScripts(e));
    OpInBoth(op, if e.rdhup.Some? then [e.rdhup.value] else [],
             if e.in_.Some? then Scripts(e.in_.value, AfterInput(e, state)) else []);
    OpInBoth(op, if e.out.Some? then [e.out.value.script] else [], if e.hup.Some? then [e.hup.value] else []);
    if e.rdhup.Some? {
      OpInOne(op, e.rdhup.value);
    }
    if e.in_.Some? {
      OpInOne(op, e.in_.value.script);
    }
    if e.out.Some? {
      OpInOne(op, e.out.value.script);
    }
    if e.hup.Some? {
      OpInOne(op, e.hup.value);
    }
  }

  lemma OpInBoth(op: Op, a: seq<seq<Op>>, b: seq<seq<Op>>)
    ensures OpIn(op, a + b) <==> OpIn(op, a) || OpIn(op, b)
  {
    if OpIn(op, a) {
      var j :| 0 <= j < |a| && op in a[j];
      assert op in (a + b)[j];
    }
    if OpIn(op, b) {
      var j :| 0 <= j < |b| && op in b[j];
      assert op in (a + b)[|a| + j];
    }
  }

  lemma OpInOne(op: Op, script: seq<Op>)
    ensures OpIn(op, [script]) <==> op in script
    ensures !OpIn(op, [])
  {
    assert op in script ==> op in [script][0];
  }

  // ---- What the loop does, seen from one event to the next

  datatype Info = Info(fd: Fd, state: SocketState)

  // The table, all sockets that were ever in it, and whether the loop goes on.
  datatype Table = Table(
    sockets: map<Fd, BaseSocket>,
    info: map<BaseSocket, Info>,
    gone: set<BaseSocket>,
    running: bool)

  // Callbacks with these scripts have run: closed are exactly the sockets whose handles they
  // close, and the loop goes on unless one of them stops it.
  ghost predicate Ran(a: Table, scripts: seq<seq<Op>>, b: Table) {
    && (forall d :: d in a.info ==>
          && d in b.info && b.info[d].fd == a.info[d].fd
          && (d in b.gone <==> d in a.gone || CloseIn(a.info[d].fd, scripts)))
    && b.running == (a.running && !OpIn(StopEvent, scripts))
  }

  ghost predicate SameStates(a: Table, b: Table) {
    forall d :: d in a.info ==> d in b.info && b.info[d].state == a.info[d].state
  }

  lemma DoesOp(op: Op)
    ensures forall x :: OpIn(x, [[op]]) <==> x == op
  {
    forall x ensures OpIn(x, [[op]]) <==> x == op {
      OpInOne(x, [op]);
    }
  }

  lemma RanNothing(a: Table)
    ensures Ran(a, [], a) && Ran(a, [[]], a)
  {
    forall op ensures !OpIn(op, [[]]) {
      OpInOne(op, []);
    }
  }

  lemma RanThen(a: Table, x: seq<seq<Op>>, b: Table, y: seq<seq<Op>>, c: Table)
    requires Ran(a, x, b) && Ran(b, y, c)
    ensures Ran(a, x + y, c)
  {
    OpInBoth(StopEvent, x, y);
    forall d | d in a.info ensures d in c.info && c.info[d].fd == a.info[d].fd {
      assert d in b.info;
    }
    forall d | d in a.info ensures d in c.gone <==> d in a.gone || CloseIn(a.info[d].fd, x + y) {
      OpInBoth(Close(a.info[d].fd), x, y);
      assert b.info[d].fd == a.info[d].fd;
    }
  }

  lemma RanOneMore(a: Table, script: seq<Op>, b: Table, op: Op, c: Table)
    requires Ran(a, [script], b) && Ran(b, [[op]], c)
    ensures Ran(a, [script + [op]], c)
  {
    RanThen(a, [script], b, [[op]], c);
    forall x ensures OpIn(x, [script] + [[op]]) <==> OpIn(x, [script + [op]]) {
      OpInBoth(x, [script], [[op]]);
      OpInOne(x, script);
      OpInOne(x, [op]);
      OpInOne(x, script + [op]);
    }
  }

  ghost predicate OnlyAdded(a: Table, b: Table) {
    (forall d :: d in a.info ==> d in b.info && b.info[d] == a.info[d]) && b.gone == a.gone && b.running == a.running
  }

  // s, not yet closed in b, is closed if the script closes it.
  ghost predicate Taken(s: BaseSocket, script: seq<Op>, c: Table) {
    s in c.info && c.info[s].state == Connected && (s in c.gone <==> CloseIn(c.info[s].fd, [script]))
  }

  lemma AddedThenRan(a: Table, b: Table, s: BaseSocket, script: seq<Op>, c: Table)
    requires OnlyAdded(a, b) && Ran(b, [script], c) && SameStates(b, c)
    requires s in b.info && b.info[s].state == Connected && s !in b.gone
    ensures Ran(a, [script], c) && SameStates(a, c) && Taken(s, script, c)
  {
  }

  // Since a the connections accepted have come into the table, each with its script run after
  // it: they are there, connected, unless a script run since has closed them.
  ghost predicate TookIn(a: Table, scripts: seq<seq<Op>>, accepted: seq<BaseSocket>, b: Table) {
    && |accepted| == |scripts|
    && (forall i :: 0 <= i < |accepted| ==>
          && accepted[i] !in a.info && accepted[i] in b.info && b.info[accepted[i]].state == Connected
          && (accepted[i] in b.gone <==> CloseIn(b.info[accepted[i]].fd, scripts[i..])))
    && (forall i, j :: 0 <= i < j < |accepted| ==> accepted[i] != accepted[j])
  }

  lemma TookOneMore(a: Table, scripts: seq<seq<Op>>, accepted: seq<BaseSocket>, b: Table,
                    script: seq<Op>, s: BaseSocket, c: Table)
    requires TookIn(a, scripts, accepted, b) && Ran(b, [script], c) && SameStates(b, c)
    requires a.info.Keys <= b.info.Keys && s !in b.info && Taken(s, script, c)
    ensures TookIn(a, scripts + [script], accepted + [s], c)
  {
    var more, n := accepted + [s], |accepted|;
    forall i | 0 <= i <= n
      ensures more[i] in c.info && c.info[more[i]].state == Connected
      ensures more[i] in c.gone <==> CloseIn(c.info[more[i]].fd, (scripts + [script])[i..])
    {
      assert (scripts + [script])[i..] == scripts[i..] + [script];
      if i < n {
        assert accepted[i] in b.info;
        OpInBoth(Close(b.info[accepted[i]].fd), scripts[i..], [script]);
      } else {
        assert scripts[i..] + [script] == [script];
      }
    }
  }

  // An event of a socket that is not in the table does nothing. Any other runs its handlers
  // on that socket, whose state alone changes.
  ghost predicate EventStep(a: Table, e: Event, b: Table) {
    if e.fd !in a.sockets then b == a
    else
      var s := a.sockets[e.fd];
      && s in a.info
      && Ran(a, Executed(e, a.info[s].state), b)
      && forall d :: d in a.info ==>
           b.info[d].state == if d == s then AfterEvent(e, a.info[s].state) else a.info[d].state
  }

  ghost predicate CallbackStep(a: Table, script: seq<Op>, b: Table) {
    Ran(a, [script], b) && SameStates(a, b)
  }

  // Each event in turn, then the timers and loop callbacks.
  ghost predicate EventSteps(tables: seq<Table>, events: seq<Event>) {
    && |tables| == |events| + 1
    && forall i :: 0 <= i < |events| ==> EventStep(tables[i], events[i], tables[i + 1])
  }

  lemma OneMoreEvent(tables: seq<Table>, events: seq<Event>, i: nat, t: Table)
    requires i < |events| && EventSteps(tables, events[..i]) && EventStep(tables[i], events[i], t)
    ensures EventSteps(tables + [t], events[..i + 1])
  {
  }

  ghost predicate TurnSteps(a: Table, turn: Turn, tables: seq<Table>, b: Table) {
    && EventSteps(tables, turn.events) && tables[0] == a
    && CallbackStep(tables[|turn.events|], turn.after, b)
  }

  // The turns in their order, each begun with the loop running. rounds[k] are the tables
  // between the events of the k-th turn, and tables[k] is the one it begins with.
  ghost predicate LoopSteps(tables: seq<Table>, rounds: seq<seq<Table>>, turns: seq<Turn>) {
    && |tables| == |turns| + 1 && |rounds| == |turns|
    && forall k :: 0 <= k < |turns| ==> tables[k].running && TurnSteps(tables[k], turns[k], rounds[k], tables[k + 1])
  }

  lemma OneMoreTurn(tables: seq<Table>, rounds: seq<seq<Table>>, turns: seq<Turn>, k: nat, round: seq<Table>, t: Table)
    requires k < |turns| && LoopSteps(tables, rounds, turns[..k])
    requires tables[k].running && TurnSteps(tables[k], turns[k], round, t)
    ensures LoopSteps(tables + [t], rounds + [round], turns[..k + 1])
  {
  }

  // The event that says a connect is over.
  function ConnectOver(fd: Fd, error: int): Event {
    Event(fd, None, None, Some(Writing(error, [])), None)
  }

  lemma ConnectEnds(a: Table, fd: Fd, error: int, b: Table)
    requires fd in a.sockets && a.sockets[fd] in a.info && a.sockets[fd] !in a.gone
    requires a.info[a.sockets[fd]] == Info(fd, Connecting) && EventStep(a, ConnectOver(fd, error), b)
    ensures var s := a.sockets[fd];
            && s in b.info && s !in b.gone && b.info[s].fd == fd
            && b.info[s].state == if error == 0 then Connected else Connecting
  {
    ExecutedMeans(ConnectOver(fd, error), Connecting, Close(fd));
    StateAfterEvent(ConnectOver(fd, error), Connecting);
  }

  class BaseSocket {
    var refCount: int
    var socket: Fd
    var state: SocketState
    ghost var deletes: nat  // how often the object was deleted

    constructor ()
      ensures refCount == 1 && socket == INVALID_SOCKET && state == Idle && deletes == 0
    {
      refCount, socket, state, deletes := 1, INVALID_SOCKET, Idle, 0;
    }

    method AddRef()
      requires deletes == 0
      modifies this`refCount
      ensures refCount == old(refCount) + 1
    {
      refCount := refCount + 1;
    }

    method ReleaseRef()
      requires deletes == 0
      modifies this`refCount, this`deletes
      ensures refCount == old(refCount) - 1
      ensures deletes == if refCount == 0 then 1 else 0
    {
      refCount := refCount - 1;
      if refCount == 0 {
        deletes := deletes + 1;
      }
    }
  }

  lemma {:induction false} Above(s: set<Fd>) returns (top: nat)
    ensures forall x :: x in s ==> x < top
  {
    top := 0;
    if x :| x in s {
      var rest := Above(s - {x});
      top := if x < rest then rest else x + 1;
      forall y | y in s ensures y < top {
        assert y == x || y in s - {x};
      }
    }
  }

  class Netlib {
    var sockets: map<Fd, BaseSocket>
    var open: set<Fd>  // the descriptors the kernel has given out
    var running: bool
    ghost var all: set<BaseSocket>         // every socket that was ever in the table
    ghost var gone: set<BaseSocket>        // those that were closed
    ghost var finds: multiset<BaseSocket>  // found and not yet released

    constructor ()
      ensures Valid() && sockets == map[] && finds == multiset{} && all == {} && !running
    {
      sockets, open, running, all, gone, finds := map[], {}, false, {}, {}, multiset{};
    }

    ghost predicate Registered(s: BaseSocket)
      reads this, s
    {
      s.socket in sockets && sockets[s.socket] == s
    }

    // The count is one for the table plus one for each find under way. The object is
    // deleted, once, when the count is zero. It is in the table until it is closed.
    ghost predicate Counted(s: BaseSocket)
      reads this, s
    {
      && s.refCount == (if s in gone then 0 else 1) + finds[s]
      && s.deletes == (if s.refCount == 0 then 1 else 0)
      && (s in gone <==> !Registered(s))
    }

    ghost predicate Valid()
      reads this, all
    {
      && (forall s :: s in all ==> Counted(s))
      && (forall s :: s in finds ==> s in all)
      && (forall fd :: fd in sockets ==> sockets[fd] in all && sockets[fd].socket == fd)
      && sockets.Keys <= open
      && gone <= all
    }

    // What an operation that is over leaves behind: the finds are as before, and a socket
    // once closed stays closed.
    twostate predicate Done()
      reads this
    {
      old(all) <= all && old(gone) <= gone && finds == old(finds)
    }

    // Gives s, just made, a descriptor and puts it into the table.
    method Open(s: BaseSocket, state: SocketState)
      requires Valid() && s !in all && s.refCount == 1 && s.deletes == 0
      modifies this`sockets, this`all, this`open, s`socket, s`state
      ensures Valid() && Done() && all == old(all) + {s}
      ensures s.socket !in old(sockets) && sockets == old(sockets)[s.socket := s] && s.state == state
    {
      s.socket := NewDescriptor();
      s.state := state;
      AddBaseSocket(s);
    }

    method AddBaseSocket(s: BaseSocket)
      requires Valid() && s !in all && s.refCount == 1 && s.deletes == 0
      requires s.socket !in sockets && s.socket in open
      modifies this`sockets, this`all
      ensures Valid() && sockets == old(sockets)[s.socket := s] && all == old(all) + {s}
    {
      sockets := sockets[s.socket := s];
      all := all + {s};
    }

    method FindBaseSocket(fd: Fd) returns (s: BaseSocket?)
      requires Valid()
      modifies this`finds, all`refCount
      ensures Valid()
      ensures Seen() == old(Seen())
      ensures fd !in sockets ==> s == null && finds == old(finds)
      ensures fd in sockets ==> s == sockets[fd] && s.deletes == 0 && finds == old(finds) + multiset{s}
    {
      s := null;
      if fd in sockets {
        s := sockets[fd];
        Hold(s);
      }
    }

    method Hold(s: BaseSocket)
      requires Valid() && s in all && Registered(s)
      modifies this`finds, all`refCount
      ensures Valid() && s.deletes == 0 && Seen() == old(Seen()) && finds == old(finds) + multiset{s}
    {
      assert Counted(s);
      s.AddRef();
      finds := finds + multiset{s};
      forall d | d in all ensures Counted(d) {
        assert old(Counted(d));
      }
    }

    // The end of a find.
    method ReleaseFound(s: BaseSocket, ghost others: multiset<BaseSocket>)
      requires Valid() && finds == others + multiset{s}
      modifies this`finds, all`refCount, all`deletes
      ensures Valid() && finds == others
    {
      assert Counted(s);
      s.ReleaseRef();
      finds := others;
      forall d | d in all ensures Counted(d) {
        assert old(Counted(d));
      }
    }

    // CBaseSocket::Close. Whoever calls it found s first.
    method CloseSocket(s: BaseSocket) returns (ret: int)
      requires Valid() && s in finds && Registered(s)
      modifies this`sockets, this`open, this`gone, all`refCount, all`deletes
      ensures Valid() && sockets == old(sockets) - {s.socket} && open == old(open) - {s.socket}
      ensures gone == old(gone) + {s} && s.deletes == 0 && ret == 0
    {
      sockets := sockets - {s.socket};
      open := open - {s.socket};
      gone := gone + {s};
      s.ReleaseRef();
      forall d | d in all ensures Counted(d) {
        assert old(Counted(d));
      }
      return 0;
    }

    // The system call under a descriptor: socket or accept.
    method NewDescriptor() returns (fd: Fd)
      requires Valid()
      modifies this`open
      ensures fd >= 0 && fd !in old(open) && open == old(open) + {fd} && Valid()
    {
      ghost var top := Above(open);
      assert top >= 0 && top !in open;
      fd :| fd >= 0 && fd !in open;
      open := open + {fd};
    }

    method NetlibSend(handle: Fd, answer: Answer) returns (ret: int)
      requires Valid()
      modifies this`finds, all`refCount, all`deletes
      ensures Valid() && finds == old(finds)
      ensures ret == if handle in sockets && sockets[handle].state == Connected && answer != Failure
                     then (if answer.Count? then answer.n else 0) else NETLIB_ERROR
    {
      var s := FindBaseSocket(handle);
      if s == null {
        return NETLIB_ERROR;
      }
      ret := if s.state != Connected then NETLIB_ERROR
             else match answer case Count(n) => n case WouldBlock => 0 case Failure => NETLIB_ERROR;
      ReleaseFound(s, old(finds));
    }

    method NetlibRecv(handle: Fd, answer: Answer) returns (ret: int)
      requires Valid()
      modifies this`finds, all`refCount, all`deletes
      ensures Valid() && finds == old(finds)
      ensures ret == if handle in sockets && answer.Count? then answer.n else NETLIB_ERROR
    {
      var s := FindBaseSocket(handle);
      if s == null {
        return NETLIB_ERROR;
      }
      ret := if answer.Count? then answer.n else NETLIB_ERROR;
      ReleaseFound(s, old(finds));
    }

    method NetlibClose(handle: Fd) returns (ret: int)
      requires Valid()
      modifies this`sockets, this`open, this`gone, this`finds, all`refCount, all`deletes
      ensures Valid() && finds == old(finds)
      ensures sockets == old(sockets) - {handle}
      ensures gone == old(gone) + if handle in old(sockets) then {old(sockets[handle])} else {}
      ensures ret == if handle in old(sockets) then NETLIB_OK else NETLIB_ERROR
    {
      var s := FindBaseSocket(handle);
      if s == null {
        return NETLIB_ERROR;
      }
      ret := CloseSocket(s);
      ReleaseFound(s, old(finds));
    }

    method NetlibConnect(answer: Opening) returns (handle: Fd, ghost s: BaseSocket)
      requires Valid()
      modifies this`sockets, this`open, this`all
      ensures Valid() && Done() && fresh(all - old(all))
      ensures answer != Accepted ==> handle == NETLIB_INVALID_HANDLE && sockets == old(sockets)
      ensures answer == Accepted ==>
                && handle == s.socket && fresh(s) && s.state == Connecting
                && handle !in old(sockets) && sockets == old(sockets)[handle := s]
    {
      var made := new BaseSocket();
      s := made;
      if answer != Accepted {
        handle := NETLIB_INVALID_HANDLE;
        return;
      }
      Open(made, Connecting);
      handle := made.socket;
    }

    method NetlibListen(answer: Opening) returns (ret: int, ghost s: BaseSocket)
      requires Valid()
      modifies this`sockets, this`open, this`all
      ensures Valid() && Done() && fresh(all - old(all))
      ensures answer != Accepted ==> ret == NETLIB_ERROR && sockets == old(sockets)
      ensures answer == Accepted ==>
                && ret == NETLIB_OK && fresh(s) && s.state == Listening
                && s.socket !in old(sockets) && sockets == old(sockets)[s.socket := s]
    {
      var made := new BaseSocket();
      s := made;
      if answer != Accepted {
        ret := NETLIB_ERROR;
        return;
      }
      Open(made, Listening);
      ret := NETLIB_OK;
    }

    ghost function Seen(): Table
      reads this`sockets, this`all, this`gone, this`running, all`socket, all`state
    {
      Table(sockets, map d | d in all :: Info(d.socket, d.state), gone, running)
    }

    method PerformOp(op: Op)
      requires Valid()
      modifies this, all`refCount, all`deletes
      ensures Valid() && Done() && fresh(all - old(all))
      ensures forall s :: s in old(all) ==> (s in gone <==> s in old(gone) || op == Close(s.socket))
      ensures running == (old(running) && op != StopEvent)
    {
      match op {
        case Send(handle, answer) => var ret := NetlibSend(handle, answer);
        case Recv(handle, answer) => var ret := NetlibRecv(handle, answer);
        case Close(handle) => var ret := NetlibClose(handle);
        case Connect(answer) => var handle, s := NetlibConnect(answer);
        case Listen(answer) => var ret, s := NetlibListen(answer);
        case StopEvent => running := false;
      }
    }

    method Perform(op: Op)
      requires Valid()
      modifies this, all`refCount, all`deletes
      ensures Valid() && Done() && fresh(all - old(all))
      ensures Ran(old(Seen()), [[op]], Seen()) && SameStates(old(Seen()), Seen())
    {
      PerformOp(op);
      DoesOp(op);
    }

    // A callback: any sequence of calls into the library. It closes exactly the sockets
    // whose handles it closes.
    method Callback(script: seq<Op>)
      requires Valid()
      modifies this, all`refCount, all`deletes
      ensures Valid() && Done() && fresh(all - old(all))
      ensures Ran(old(Seen()), [script], Seen()) && SameStates(old(Seen()), Seen())
    {
      ghost var start := Seen();
      RanNothing(start);
      for i := 0 to |script|
        invariant Valid() && Done() && fresh(all - old(all))
        invariant Ran(start, [script[..i]], Seen()) && SameStates(start, Seen())
      {
        PerformNext(script, i, start);
      }
      assert script[..|script|] == script;
    }

    method PerformNext(script: seq<Op>, i: nat, ghost start: Table)
      requires Valid() && i < |script| && Ran(start, [script[..i]], Seen()) && SameStates(start, Seen())
      modifies this, all`refCount, all`deletes
      ensures Valid() && Done() && fresh(all - old(all))
      ensures Ran(start, [script[..i + 1]], Seen()) && SameStates(start, Seen())
    {
      ghost var before := Seen();
      Perform(script[i]);
      assert script[..i + 1] == script[..i] + [script[i]];
      RanOneMore(start, script[..i], before, script[i], Seen());
    }

    // The handlers run on a socket that has been found and is not deleted.
    method OnClose(s: BaseSocket, script: seq<Op>)
      requires Valid() && s in finds && s.deletes == 0
      modifies this, all`refCount, all`deletes, s`state
      ensures Valid() && Done() && fresh(all - old(all)) && s.state == Closing
      ensures Ran(old(Seen()), [script], Seen())
    {
      s.state := Closing;
      Callback(script);
    }

    method OnRead(s: BaseSocket, r: Reading) returns (ghost accepted: seq<BaseSocket>)
      requires Valid() && s in finds && s.deletes == 0
      modifies this, all`refCount, all`deletes
      ensures Valid() && Done() && fresh(all - old(all))
      ensures s.state == Listening ==> TookIn(old(Seen()), r.accepts, accepted, Seen())
      ensures Ran(old(Seen()), Scripts(r, s.state), Seen())
    {
      accepted := [];
      if s.state == Listening {
        accepted := AcceptAll(r.accepts);
      } else {
        Callback(r.script);
      }
    }

    method AcceptAll(scripts: seq<seq<Op>>) returns (ghost accepted: seq<BaseSocket>)
      requires Valid()
      modifies this, all`refCount, all`deletes
      ensures Valid() && Done() && fresh(all - old(all))
      ensures TookIn(old(Seen()), scripts, accepted, Seen()) && Ran(old(Seen()), scripts, Seen())
    {
      accepted := [];
      ghost var start := Seen();
      RanNothing(start);
      for i := 0 to |scripts|
        invariant Valid() && Done() && fresh(all - old(all)) && start.info.Keys <= all
        invariant TookIn(start, scripts[..i], accepted, Seen()) && Ran(start, scripts[..i], Seen())
      {
        accepted := AcceptNext(scripts, i, start, accepted);
      }
      assert scripts[..|scripts|] == scripts;
    }

    method AcceptNext(scripts: seq<seq<Op>>, i: nat, ghost start: Table, ghost accepted: seq<BaseSocket>)
      returns (ghost accepted': seq<BaseSocket>)
      requires Valid() && start.info.Keys <= all && i < |scripts|
      requires TookIn(start, scripts[..i], accepted, Seen()) && Ran(start, scripts[..i], Seen())
      modifies this, all`refCount, all`deletes
      ensures Valid() && Done() && fresh(all - old(all))
      ensures TookIn(start, scripts[..i + 1], accepted', Seen()) && Ran(start, scripts[..i + 1], Seen())
    {
      ghost var before := Seen();
      ghost var s := AcceptNewSocket(scripts[i]);
      TookOneMore(start, scripts[..i], accepted, before, scripts[i], s, Seen());
      RanThen(start, scripts[..i], before, [scripts[i]], Seen());
      assert scripts[..i + 1] == scripts[..i] + [scripts[i]];
      accepted' := accepted + [s];
    }

    // One turn of the loop of _AcceptNewSocket.
    method AcceptNewSocket(script: seq<Op>) returns (ghost s: BaseSocket)
      requires Valid()
      modifies this, all`refCount, all`deletes
      ensures Valid() && Done() && fresh(all - old(all))
      ensures Ran(old(Seen()), [script], Seen()) && SameStates(old(Seen()), Seen())
      ensures s !in old(all) && Taken(s, script, Seen())
    {
      ghost var before := Seen();
      ghost var accepted;
      s, accepted := TakeIn(script);
      AddedThenRan(before, accepted, s, script, Seen());
    }

    method TakeIn(script: seq<Op>) returns (ghost s: BaseSocket, ghost accepted: Table)
      requires Valid()
      modifies this, all`refCount, all`deletes
      ensures Valid() && Done() && fresh(all - old(all)) && s !in old(all)
      ensures OnlyAdded(old(Seen()), accepted) && s in accepted.info && accepted.info[s].state == Connected
      ensures s !in accepted.gone && Ran(accepted, [script], Seen()) && SameStates(accepted, Seen())
    {
      s := NewSocket();
      accepted := Seen();
      Callback(script);
    }

    // accept has returned a descriptor.
    method NewSocket() returns (s: BaseSocket)
      requires Valid()
      modifies this`sockets, this`all, this`open
      ensures Valid() && Done() && fresh(all - old(all)) && s in all - old(all) && s.state == Connected && s !in gone
      ensures all == old(all) + {s}
      ensures OnlyAdded(old(Seen()), Seen())
    {
      s := new BaseSocket();
      Open(s, Connected);
    }

    method OnWrite(s: BaseSocket, w: Writing)
      requires Valid() && s in finds && s.deletes == 0
      modifies this, all`refCount, all`deletes, s`state
      ensures Valid() && Done() && fresh(all - old(all))
      ensures s.state == if old(s.state) == Connecting && w.error == 0 then Connected else old(s.state)
      ensures Ran(old(Seen()), [w.script], Seen())
    {
      if s.state == Connecting && w.error == 0 {
        s.state := Connected;
      }
      Callback(w.script);
    }

    // The two halves of the handlers of one event, in turn. An earlier one may close s; that
    // does not delete it.
    method HandleInput(s: BaseSocket, e: Event)
      requires Valid() && s in finds
      modifies this, all`refCount, all`deletes, s`state
      ensures Valid() && Done() && fresh(all - old(all))
      ensures s.state == AfterInput(e, old(s.state)) && Ran(old(Seen()), InputScripts(e, old(s.state)), Seen())
    {
      HandleClosing(s, e);
      ghost var x := if e.rdhup.Some? then [e.rdhup.value] else [];
      if e.in_.Some? {
        ghost var closed := Seen();
        ghost var _ := OnRead(s, e.in_.value);
        RanThen(old(Seen()), x, closed, Scripts(e.in_.value, s.state), Seen());
      } else {
        Empty(x);
      }
    }

    method HandleClosing(s: BaseSocket, e: Event)
      requires Valid() && s in finds
      modifies this, all`refCount, all`deletes, s`state
      ensures Valid() && Done() && fresh(all - old(all)) && s.state == AfterInput(e, old(s.state))
      ensures Ran(old(Seen()), if e.rdhup.Some? then [e.rdhup.value] else [], Seen())
    {
      RanNothing(Seen());
      if e.rdhup.Some? {
        OnClose(s, e.rdhup.value);
      }
    }

    method HandleOutput(s: BaseSocket, e: Event)
      requires Valid() && s in finds
      modifies this, all`refCount, all`deletes, s`state
      ensures Valid() && Done() && fresh(all - old(all))
      ensures s.state == AfterOutput(e, old(s.state)) && Ran(old(Seen()), OutputScripts(e), Seen())
    {
      HandleWriting(s, e);
      ghost var x := if e.out.Some? then [e.out.value.script] else [];
      if e.hup.Some? {
        ghost var written := Seen();
        OnClose(s, e.hup.value);
        RanThen(old(Seen()), x, written, [e.hup.value], Seen());
      } else {
        Empty(x);
      }
    }

    method HandleWriting(s: BaseSocket, e: Event)
      requires Valid() && s in finds
      modifies this, all`refCount, all`deletes, s`state
      ensures Valid() && Done() && fresh(all - old(all))
      ensures s.state == if e.out.Some? then AfterWrite(e.out.value, old(s.state)) else old(s.state)
      ensures Ran(old(Seen()), if e.out.Some? then [e.out.value.script] else [], Seen())
    {
      RanNothing(Seen());
      if e.out.Some? {
        OnWrite(s, e.out.value);
      }
    }

    method Handle(s: BaseSocket, e: Event)
      requires Valid() && s in finds
      modifies this, all`refCount, all`deletes, s`state
      ensures Valid() && Done() && fresh(all - old(all))
      ensures s.state == AfterEvent(e, old(s.state)) && Ran(old(Seen()), Executed(e, old(s.state)), Seen())
    {
      HandleInput(s, e);
      ghost var between := Seen();
      HandleOutput(s, e);
      RanThen(old(Seen()), InputScripts(e, old(s.state)), between, OutputScripts(e), Seen());
    }

    // An event of the socket s.
    method HandleFound(s: BaseSocket, e: Event)
      requires Valid() && s in finds && e.fd in sockets && sockets[e.fd] == s
      modifies this, all`refCount, all`deletes, s`state
      ensures Valid() && Done() && fresh(all - old(all))
      ensures EventStep(old(Seen()), e, Seen())
    {
      Handle(s, e);
    }

    method EndEvent(s: BaseSocket, ghost others: multiset<BaseSocket>)
      requires Valid() && finds == others + multiset{s}
      modifies this`finds, all`refCount, all`deletes
      ensures Valid() && finds == others && Seen() == old(Seen())
    {
      ReleaseFound(s, others);
    }

    method DispatchEvent(e: Event)
      requires Valid()
      modifies this, all`refCount, all`deletes, all`state
      ensures Valid() && Done() && fresh(all - old(all))
      ensures EventStep(old(Seen()), e, Seen())
    {
      var s := FindBaseSocket(e.fd);
      if s == null {
        return;
      }
      assert s in finds;
      HandleFound(s, e);
      EndEvent(s, old(finds));
    }

    // Data can be sent on a new connection exactly if the connect ends without an error.
    method ConnectAndSend(error: int, n: nat) returns (handle: Fd, early: int, ret: int)
      requires Valid()
      modifies this, all`refCount, all`deletes, all`state
      ensures Valid() && handle !in old(sockets) && handle in sockets
      ensures early == -1 && ret == if error == 0 then n else -1
    {
      ghost var s;
      handle, s := NetlibConnect(Accepted);
      early := NetlibSend(handle, Count(n));
      ret := EndConnect(handle, error, n);
    }

    method EndConnect(handle: Fd, error: int, n: nat) returns (ret: int)
      requires Valid() && handle in sockets && sockets[handle].state == Connecting
      modifies this, all`refCount, all`deletes, all`state
      ensures Valid() && handle in sockets && ret == if error == 0 then n else -1
    {
      ghost var before, s := Seen(), sockets[handle];
      assert Counted(s);
      DispatchEvent(ConnectOver(handle, error));
      ConnectEnds(before, handle, error, Seen());
      assert Counted(s);
      ret := NetlibSend(handle, Count(n));
    }

    method DispatchEvents(events: seq<Event>) returns (ghost tables: seq<Table>)
      requires Valid()
      modifies this, all`refCount, all`deletes, all`state
      ensures Valid() && Done() && fresh(all - old(all))
      ensures EventSteps(tables, events) && tables[0] == old(Seen()) && tables[|events|] == Seen()
    {
      tables := [Seen()];
      for i := 0 to |events|
        invariant Valid() && Done() && fresh(all - old(all))
        invariant EventSteps(tables, events[..i]) && tables[0] == old(Seen()) && tables[i] == Seen()
      {
        tables := DispatchNext(events, i, tables);
      }
      assert events[..|events|] == events;
    }

    method DispatchNext(events: seq<Event>, i: nat, ghost tables: seq<Table>) returns (ghost tables': seq<Table>)
      requires Valid() && i < |events| && EventSteps(tables, events[..i]) && tables[i] == Seen()
      modifies this, all`refCount, all`deletes, all`state
      ensures Valid() && Done() && fresh(all - old(all))
      ensures EventSteps(tables', events[..i + 1]) && tables'[0] == tables[0] && tables'[i + 1] == Seen()
    {
      DispatchEvent(events[i]);
      OneMoreEvent(tables, events, i, Seen());
      tables' := tables + [Seen()];
    }

    method DispatchTurn(turn: Turn) returns (ghost tables: seq<Table>)
      requires Valid()
      modifies this, all`refCount, all`deletes, all`state
      ensures Valid() && Done() && fresh(all - old(all))
      ensures TurnSteps(old(Seen()), turn, tables, Seen())
    {
      tables := DispatchEvents(turn.events);
      Callback(turn.after);
    }

    // turns says what each round of epoll_wait and the callbacks brings, for as many rounds
    // as one looks at; the loop makes them in turn until a callback stops it. Between events
    // nothing is found, so a socket has been deleted, once, exactly if it was closed.
    method StartDispatch(turns: seq<Turn>) returns (ghost tables: seq<Table>, ghost rounds: seq<seq<Table>>)
      requires Valid() && finds == multiset{}
      modifies this, all`refCount, all`deletes, all`state
      ensures Valid() && Done() && fresh(all - old(all))
      ensures old(running) ==> unchanged(this)
      ensures !old(running) ==>
                && |rounds| <= |turns| && LoopSteps(tables, rounds, turns[..|rounds|])
                && tables[0] == old(Seen()).(running := true) && tables[|rounds|] == Seen()
                && (running ==> |rounds| == |turns|)
      ensures forall s :: s in all ==> s.refCount == (if s in gone then 0 else 1) == 1 - s.deletes
      ensures forall s :: s in all ==> (s.deletes == 0 <==> Registered(s))
    {
      tables, rounds := [], [];
      if running {
        return;
      }
      running := true;
      var k := 0;
      tables := [Seen()];
      while running && k < |turns|
        invariant Valid() && Done() && fresh(all - old(all))
        invariant k <= |turns| && |rounds| == k && LoopSteps(tables, rounds, turns[..k])
        invariant tables[0] == old(Seen()).(running := true) && tables[k] == Seen()
      {
        ghost var round := DispatchTurn(turns[k]);
        OneMoreTurn(tables, rounds, turns, k, round, Seen());
        tables, rounds := tables + [Seen()], rounds + [round];
        k := k + 1;
      }
    }
  }
}
