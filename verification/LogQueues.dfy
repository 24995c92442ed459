// CLogger::Log and the loop of CLogger::ThreadCallback (src/core/Log.cpp) on the two heap
// queues, and the steps of the system of Logger.dfy that they take. Other threads may step
// between any two of these; their steps are those of the system too.

module LogQueues {
  import opened Logger
  import opened ObjectPools
  import opened Options

  type Nodes = seq<Node<Record>>

  // The two pools share no node.
  ghost predicate Apart(a: Nodes, s: Nodes, b: Nodes, t: Nodes) {
    && (forall n :: n in a ==> n !in b && n !in t)
    && (forall n :: n in s ==> n !in b && n !in t)
  }

  lemma ApartSymmetric(a: Nodes, s: Nodes, b: Nodes, t: Nodes)
    requires Apart(a, s, b, t)
    ensures Apart(b, t, a, s)
  {
  }

  lemma ApartAt(a: Nodes, s: Nodes, b: Nodes, t: Nodes)
    requires Apart(a, s, b, t)
    ensures forall k :: 0 <= k < |b| ==> b[k] !in a && b[k] !in s
    ensures forall k :: 0 <= k < |t| ==> t[k] !in a && t[k] !in s
  {
    ApartSymmetric(a, s, b, t);
  }

  lemma ApartAfterGet(a: Nodes, s: Nodes, b: Nodes, t: Nodes)
    requires Apart(a, s, b, t) && a != []
    ensures Apart(a[1..], [a[0]] + s, b, t)
  {
  }

  lemma ApartAfterPut(a: Nodes, s: Nodes, a': Nodes, s': Nodes, b: Nodes, t: Nodes)
    requires Apart(a, s, b, t) && ObjectPool<Record>.OneMoreNode(a, s, a', s')
    requires s == [] ==> a'[|a|] !in b && a'[|a|] !in t
    ensures Apart(a', s', b, t)
  {
  }

  ghost function NodeSet(a: Nodes, s: Nodes): set<object> {
    (set n | n in a) + (set n | n in s)
  }

  lemma NodesAfterGet(a: Nodes, s: Nodes)
    requires a != []
    ensures NodeSet(a[1..], [a[0]] + s) <= NodeSet(a, s)
  {
  }

  lemma NodesAfterPut(a: Nodes, s: Nodes, a': Nodes, s': Nodes)
    requires ObjectPool<Record>.OneMoreNode(a, s, a', s')
    ensures NodeSet(a', s') <= NodeSet(a, s) + if s == [] then {a'[|a|]} else {}
  {
  }

  ghost function NodesOf(q: ObjectPool<Record>): set<object>
    reads q
  {
    NodeSet(q.active, q.spare)
  }

  function FirstOf(q: seq<Record>): Option<Record> {
    if q == [] then None else Some(q[0])
  }

  function WithoutFirst(q: seq<Record>): seq<Record> {
    if q == [] then [] else q[1..]
  }

  // The state after producer i has taken the steps, None if one of them is not enabled.
  function Performed(s: State, i: nat, steps: seq<ProducerStep>): Option<State> {
    if steps == [] then Some(s)
    else
      var n := |steps| - 1;
      var t := Performed(s, i, steps[..n]);
      if t.Some? && ProducerEnabled(t.value, i, steps[n]) then Some(ProducerApply(t.value, i, steps[n])) else None
  }

  lemma Extend(s: State, i: nat, steps: seq<ProducerStep>, t: State, a: ProducerStep) returns (more: seq<ProducerStep>)
    requires Performed(s, i, steps) == Some(t) && ProducerEnabled(t, i, a)
    ensures more == steps + [a] && Performed(s, i, more) == Some(ProducerApply(t, i, a))
  {
    more := steps + [a];
    assert more[..|steps|] == steps;
  }

  // ---- What the parts of Log do

  // Getting a record: an idle one, or a new one at the address made.
  function Acquired(s: State, i: nat, made: Record): (t: State)
    requires i < |s.producers| && s.producers[i] == Outside && made !in s.records
    ensures |t.producers| == |s.producers| && t.producers[i].Holding?
    ensures t.producers == s.producers[i := t.producers[i]]
    ensures t.submitted == s.submitted
  {
    var t := ProducerApply(s, i, ProducerStep.GetIdle);
    if s.idleQ == [] then ProducerApply(t, i, Allocate(made)) else t
  }

  // Formatting it, and handing it over.
  function Submitted(s: State, i: nat, text: string): (t: State)
    requires i < |s.producers| && s.producers[i].Holding?
    ensures t.producers == s.producers[i := Enqueued] && t.submitted == s.submitted + [Line(text)]
  {
    ProducerApply(ProducerApply(s, i, Format(text)), i, ProducerStep.Enqueue)
  }

  // Reading the semaphore, and posting it unless it is positive.
  function Woken(s: State, i: nat): (t: State)
    requires i < |s.producers| && s.producers[i] == Enqueued
    ensures t == s.(producers := s.producers[i := Outside], sem := t.sem) && t.sem > 0
  {
    var t := ProducerApply(s, i, ReadSemaphore);
    if s.sem <= 0 then ProducerApply(t, i, Post) else t
  }

  function Logged(s: State, i: nat, made: Record, text: Option<string>): State
    requires i < |s.producers| && s.producers[i] == Outside && made !in s.records
  {
    var t := Acquired(s, i, made);
    if text.Some? then Woken(Submitted(t, i, text.value), i) else ProducerApply(t, i, ProducerStep.Reject)
  }

  lemma AcquireSteps(s: State, i: nat, made: Record) returns (steps: seq<ProducerStep>)
    requires i < |s.producers| && s.producers[i] == Outside && made !in s.records
    ensures Performed(s, i, steps) == Some(Acquired(s, i, made))
  {
    steps := Extend(s, i, [], s, ProducerStep.GetIdle);
    if s.idleQ == [] {
      steps := Extend(s, i, steps, ProducerApply(s, i, ProducerStep.GetIdle), Allocate(made));
    }
  }

  lemma SubmitSteps(s0: State, i: nat, before: seq<ProducerStep>, s: State, text: string)
    returns (steps: seq<ProducerStep>)
    requires i < |s.producers| && s.producers[i].Holding? && Performed(s0, i, before) == Some(s)
    ensures Performed(s0, i, steps) == Some(Submitted(s, i, text))
  {
    steps := Extend(s0, i, before, s, Format(text));
    steps := Extend(s0, i, steps, ProducerApply(s, i, Format(text)), ProducerStep.Enqueue);
  }

  lemma WakeSteps(s0: State, i: nat, before: seq<ProducerStep>, s: State) returns (steps: seq<ProducerStep>)
    requires i < |s.producers| && s.producers[i] == Enqueued && Performed(s0, i, before) == Some(s)
    ensures Performed(s0, i, steps) == Some(Woken(s, i))
  {
    steps := Extend(s0, i, before, s, ReadSemaphore);
    if s.sem <= 0 {
      steps := Extend(s0, i, steps, ProducerApply(s, i, ReadSemaphore), Post);
    }
  }

  lemma LogSteps(s: State, i: nat, made: Record, text: Option<string>) returns (steps: seq<ProducerStep>)
    requires i < |s.producers| && s.producers[i] == Outside && made !in s.records
    ensures Performed(s, i, steps) == Some(Logged(s, i, made, text))
    ensures var t := Logged(s, i, made, text);
            && t.producers == s.producers
            && t.submitted == (if text.Some? then s.submitted + [Line(text.value)] else s.submitted)
            && (text.Some? ==> t.sem > 0)
  {
    steps := AcquireSteps(s, i, made);
    var t := Acquired(s, i, made);
    if text.Some? {
      steps := SubmitSteps(s, i, steps, t, text.value);
      steps := WakeSteps(s, i, steps, Submitted(t, i, text.value));
    } else {
      steps := Extend(s, i, steps, t, ProducerStep.Reject);
    }
  }

  // Which branch a turn of the loop takes: nSend is what send returns, again says that errno
  // is EAGAIN or EINTR, and written is how much of the record Write gets into the file.
  function OutcomeOf(remote: bool, nSend: int, again: bool, written: nat): Outcome {
    if !remote then Written(written)
    else if nSend > 0 then Sent(nSend)
    else if again then Retry
    else HardError(written)
  }

  // What one turn of the log thread's loop does.
  function Turn(s: State, o: Outcome): State
    requires s.consumer == Draining && forall r :: r in s.logQ ==> r in s.content
    requires s.logQ != [] ==> s.logQ[0] in s.content && Possible(o, s.remote, s.content[s.logQ[0]])
  {
    var t := ConsumerApply(s, ConsumerStep.GetLog);
    if s.logQ == [] then t
    else
      var u := ConsumerApply(t, Work(o));
      if o == Retry then u else ConsumerApply(u, Recycle)
  }

  // ---- What the threads share

  datatype Shared = Shared(idleQ: seq<Record>, logQ: seq<Record>, sem: nat, content: map<Record, Message>,
                           remote: bool, out: seq<Message>)

  function SharedOf(s: State): Shared {
    Shared(s.idleQ, s.logQ, s.sem, s.content, s.remote, s.left)
  }

  function AfterSubmit(v: Shared, r: Record, text: string): Shared {
    v.(content := v.content[r := Line(text)], logQ := v.logQ + [r])
  }

  function AfterWake(v: Shared): Shared {
    v.(sem := if v.sem <= 0 then v.sem + 1 else v.sem)
  }

  function AfterLog(v: Shared, made: Record, text: Option<string>): Shared {
    var r := if v.idleQ == [] then made else v.idleQ[0];
    AfterFinish(v.(idleQ := WithoutFirst(v.idleQ)), r, text)
  }

  function AfterFinish(v: Shared, r: Record, text: Option<string>): Shared {
    match text
    case Some(x) => AfterWake(AfterSubmit(v, r, x))
    case None => v.(idleQ := v.idleQ + [r])
  }

  lemma AcquiredIsShared(s: State, i: nat, made: Record)
    requires i < |s.producers| && s.producers[i] == Outside && made !in s.records
    ensures SharedOf(Acquired(s, i, made)) == SharedOf(s).(idleQ := WithoutFirst(s.idleQ))
    ensures Acquired(s, i, made).producers[i] == Holding(if s.idleQ == [] then made else s.idleQ[0])
  {
  }

  lemma SubmittedIsShared(s: State, i: nat, r: Record, text: string)
    requires i < |s.producers| && s.producers[i] == Holding(r)
    ensures SharedOf(Submitted(s, i, text)) == AfterSubmit(SharedOf(s), r, text)
  {
  }

  lemma LoggedIsShared(s: State, i: nat, made: Record, text: Option<string>)
    requires i < |s.producers| && s.producers[i] == Outside && made !in s.records
    ensures SharedOf(Logged(s, i, made, text)) == AfterLog(SharedOf(s), made, text)
  {
    AcquiredIsShared(s, i, made);
    var t := Acquired(s, i, made);
    if text.Some? {
      SubmittedIsShared(t, i, t.producers[i].record, text.value);
    }
  }

  function AfterDispose(v: Shared, r: Record, o: Outcome): Shared
    requires r in v.content && Possible(o, v.remote, v.content[r])
  {
    if o == Retry then v.(logQ := v.logQ + [r])
    else v.(out := v.out + [v.content[r][..o.count]], idleQ := v.idleQ + [r])
  }

  function AfterTurn(v: Shared, o: Outcome): Shared
    requires v.logQ != [] ==> v.logQ[0] in v.content && Possible(o, v.remote, v.content[v.logQ[0]])
  {
    if v.logQ == [] then v else AfterDispose(v.(logQ := v.logQ[1..]), v.logQ[0], o)
  }

  // What becomes of the record taken. After EAGAIN or EINTR it is behind all others in the log
  // queue and nothing got out. After any other failed send, and without a server, what Write
  // wrote got out; after a send, what it took. The record is then idle.
  ghost predicate Handled(v: Shared, nSend: int, again: bool, written: nat, w: Shared)
    requires v.logQ != [] && v.logQ[0] in v.content
    requires nSend <= |v.content[v.logQ[0]]| && written <= |v.content[v.logQ[0]]|
  {
    var r := v.logQ[0];
    && w.sem == v.sem && w.content == v.content && w.remote == v.remote
    && (v.remote && nSend <= 0 && again ==> w.logQ == v.logQ[1..] + [r] && w.idleQ == v.idleQ && w.out == v.out)
    && (!(v.remote && nSend <= 0 && again) ==> w.logQ == v.logQ[1..] && w.idleQ == v.idleQ + [r])
    && (v.remote && nSend <= 0 && !again ==> w.out == v.out + [v.content[r][..written]])
    && (v.remote && nSend > 0 ==> w.out == v.out + [v.content[r][..nSend]])
    && (!v.remote ==> w.out == v.out + [v.content[r][..written]])
  }

  lemma TurnHandles(v: Shared, nSend: int, again: bool, written: nat)
    requires v.logQ != [] && v.logQ[0] in v.content
    requires nSend <= |v.content[v.logQ[0]]| && written <= |v.content[v.logQ[0]]|
    ensures Handled(v, nSend, again, written, AfterTurn(v, OutcomeOf(v.remote, nSend, again, written)))
  {
  }

  lemma TurnIsShared(s: State, o: Outcome)
    requires s.consumer == Draining && forall r :: r in s.logQ ==> r in s.content
    requires s.logQ != [] ==> s.logQ[0] in s.content && Possible(o, s.remote, s.content[s.logQ[0]])
    ensures SharedOf(Turn(s, o)) == AfterTurn(SharedOf(s), o)
  {
  }

  class LogQueues {
    const idleQ: ObjectPool<Record>
    const logQ: ObjectPool<Record>
    const remote: bool
    var sem: nat
    var content: map<Record, Message>
    var out: seq<Message>  // what reached the file or the socket
    ghost var repr: set<object>

    constructor (remote: bool)
      ensures Valid() && idleQ.contents == logQ.contents == [] && sem == 0
      ensures content == map[] && out == []
      ensures fresh(repr) && this.remote == remote
    {
      idleQ := new ObjectPool();
      logQ := new ObjectPool();
      this.remote, sem, content, out := remote, 0, map[], [];
      repr := {idleQ, logQ};
    }

    ghost predicate Valid()
      reads this`repr, idleQ, logQ, idleQ.active, idleQ.spare, logQ.active, logQ.spare
    {
      Covered() && ValidAndApart(idleQ, logQ)
    }

    // repr covers the queues.
    ghost predicate Covered()
      reads this`repr, idleQ, logQ
    {
      this !in repr && idleQ in repr && logQ in repr && NodesOf(idleQ) <= repr && NodesOf(logQ) <= repr
    }

    static ghost predicate ValidAndApart(q: ObjectPool<Record>, other: ObjectPool<Record>)
      reads q, other, q.active, q.spare, other.active, other.spare
    {
      BothValid(q, other) && q != other && Apart(q.active, q.spare, other.active, other.spare)
    }

    static ghost predicate BothValid(q: ObjectPool<Record>, other: ObjectPool<Record>)
      reads q, other, q.active, q.spare, other.active, other.spare
    {
      q.Valid() && other.Valid()
    }

    ghost function View(): Shared
      reads this, idleQ, logQ
    {
      Shared(idleQ.contents, logQ.contents, sem, content, remote, out)
    }

    // What the threads share in the state is what the heap holds.
    ghost predicate Represents(s: State)
      reads this, idleQ, logQ
    {
      SharedOf(s) == View()
    }

    // ---- The two queues

    // GetObject leaves a pool that shares no node alone.
    static method TakeBeside(q: ObjectPool<Record>, ghost other: ObjectPool<Record>) returns (r: Option<Record>)
      requires ValidAndApart(q, other)
      modifies q, q.active, q.spare
      ensures BothValid(q, other)
      ensures old(q.active) == [] ==> r == None && q.active == [] && q.spare == old(q.spare) && q.contents == []
      ensures old(q.active) != [] ==>
                && q.active == old(q.active)[1..] && q.spare == [old(q.active)[0]] + old(q.spare)
                && old(q.contents) != [] && r == Some(old(q.contents)[0]) && q.contents == old(q.contents)[1..]
    {
      ApartAt(q.active, q.spare, other.active, other.spare);
      var code;
      code, r := q.GetObject();
    }

    static method Take(q: ObjectPool<Record>, ghost other: ObjectPool<Record>) returns (r: Option<Record>)
      requires ValidAndApart(q, other)
      modifies q, q.active, q.spare
      ensures ValidAndApart(q, other)
      ensures NodesOf(q) <= old(NodesOf(q))
      ensures r == FirstOf(old(q.contents)) && q.contents == WithoutFirst(old(q.contents))
    {
      if q.active != [] {
        ApartAfterGet(q.active, q.spare, other.active, other.spare);
        NodesAfterGet(q.active, q.spare);
      }
      r := TakeBeside(q, other);
    }

    // SetObject puts r on a node that was idle or is new, and leaves the other pool alone.
    static method PutBeside(q: ObjectPool<Record>, r: Record, ghost other: ObjectPool<Record>)
      requires ValidAndApart(q, other)
      modifies q, q.active, q.spare
      ensures BothValid(q, other) && q.contents == old(q.contents) + [r]
      ensures ObjectPool<Record>.OneMoreNode(old(q.active), old(q.spare), q.active, q.spare)
      ensures old(q.spare) == [] ==> fresh(q.active[|old(q.active)|])
    {
      ApartAt(q.active, q.spare, other.active, other.spare);
      var _ := q.SetObject(Some(r));
    }

    static method Put(q: ObjectPool<Record>, r: Record, ghost other: ObjectPool<Record>)
      requires ValidAndApart(q, other)
      modifies q, q.active, q.spare
      ensures ValidAndApart(q, other)
      ensures fresh(NodesOf(q) - old(NodesOf(q)))
      ensures q.contents == old(q.contents) + [r]
    {
      ghost var a, s, b, t := q.active, q.spare, other.active, other.spare;
      PutBeside(q, r, other);
      ApartAfterPut(a, s, q.active, q.spare, b, t);
      NodesAfterPut(a, s, q.active, q.spare);
    }

    method TakeIdle() returns (r: Option<Record>)
      requires Valid()
      modifies repr
      ensures Valid() && r == FirstOf(old(idleQ.contents))
      ensures View() == old(View()).(idleQ := WithoutFirst(old(idleQ.contents)))
    {
      r := Take(idleQ, logQ);
    }

    method TakeLog() returns (r: Option<Record>)
      requires Valid()
      modifies repr
      ensures Valid() && r == FirstOf(old(logQ.contents))
      ensures View() == old(View()).(logQ := WithoutFirst(old(logQ.contents)))
    {
      ApartSymmetric(idleQ.active, idleQ.spare, logQ.active, logQ.spare);
      r := Take(logQ, idleQ);
      ApartSymmetric(logQ.active, logQ.spare, idleQ.active, idleQ.spare);
    }

    method PutIdle(r: Record)
      requires Valid()
      modifies this`repr, repr
      ensures Valid() && fresh(repr - old(repr))
      ensures View() == old(View()).(idleQ := old(idleQ.contents) + [r])
    {
      Put(idleQ, r, logQ);
      repr := repr + NodesOf(idleQ);
    }

    method PutLog(r: Record)
      requires Valid()
      modifies this`repr, repr
      ensures Valid() && fresh(repr - old(repr))
      ensures View() == old(View()).(logQ := old(logQ.contents) + [r])
    {
      ApartSymmetric(idleQ.active, idleQ.spare, logQ.active, logQ.spare);
      Put(logQ, r, idleQ);
      repr := repr + NodesOf(logQ);
      ApartSymmetric(logQ.active, logQ.spare, idleQ.active, idleQ.spare);
    }

    // ---- Log

    // An idle record, or a new one at the address made.
    method Acquire(made: Record) returns (r: Record)
      requires Valid()
      modifies repr
      ensures Valid() && r == if old(idleQ.contents) == [] then made else old(idleQ.contents)[0]
      ensures View() == old(View()).(idleQ := WithoutFirst(old(idleQ.contents)))
    {
      var info := TakeIdle();
      r := if info == None then made else info.value;
    }

    method Submit(r: Record, text: string)
      requires Valid()
      modifies this`content, this`repr, repr
      ensures Valid() && fresh(repr - old(repr))
      ensures View() == AfterSubmit(old(View()), r, text)
    {
      content := content[r := Line(text)];
      PutLog(r);
    }

    method Wake()
      requires Valid()
      modifies this`sem
      ensures Valid() && View() == AfterWake(old(View()))
    {
      var value := sem;
      if value <= 0 {
        sem := sem + 1;
      }
    }

    method Deliver(r: Record, text: string)
      requires Valid()
      modifies this`content, this`sem, this`repr, repr
      ensures Valid() && fresh(repr - old(repr))
      ensures View() == AfterWake(AfterSubmit(old(View()), r, text))
    {
      Submit(r, text);
      Wake();
    }

    // text is None if formatting fails.
    method Finish(r: Record, text: Option<string>) returns (ok: bool)
      requires Valid()
      modifies this`content, this`sem, this`repr, repr
      ensures Valid() && fresh(repr - old(repr))
      ensures ok == text.Some? && View() == AfterFinish(old(View()), r, text)
    {
      ok := text.Some?;
      if ok {
        Deliver(r, text.value);
      } else {
        PutIdle(r);
      }
    }

    method LogText(made: Record, text: Option<string>) returns (ok: bool)
      requires Valid()
      modifies this`content, this`sem, this`repr, repr
      ensures Valid() && fresh(repr - old(repr))
      ensures ok == text.Some? && View() == AfterLog(old(View()), made, text)
    {
      var r := Acquire(made);
      ok := Finish(r, text);
    }

    // A call of Log by producer i.
    method Log(made: Record, text: Option<string>, ghost s: State, ghost i: nat)
      returns (ok: bool, ghost steps: seq<ProducerStep>, ghost t: State)
      requires Valid() && Represents(s) && i < |s.producers| && s.producers[i] == Outside && made !in s.records
      modifies this`content, this`sem, this`repr, repr
      ensures fresh(repr - old(repr))
      ensures Valid() && Represents(t) && Performed(s, i, steps) == Some(t)
      ensures ok == text.Some? && t.producers == s.producers
      ensures t.submitted == if ok then s.submitted + [Line(text.value)] else s.submitted
      ensures ok ==> t.sem > 0
    {
      ok := LogText(made, text);
      steps := LogSteps(s, i, made, text);
      t := Logged(s, i, made, text);
      LoggedIsShared(s, i, made, text);
    }

    // ---- The loop of the log thread

    // One turn of the loop, after Wait; more is false if the loop ends.
    method HandleOne(nSend: int, again: bool, written: nat, ghost s: State) returns (more: bool, ghost t: State)
      requires Valid() && Represents(s) && s.consumer == Draining
      requires forall r :: r in s.logQ ==> r in s.content
      requires s.logQ != [] ==>
                 s.logQ[0] in s.content && nSend <= |s.content[s.logQ[0]]| && written <= |s.content[s.logQ[0]]|
      modifies this`out, this`repr, repr
      ensures fresh(repr - old(repr))
      ensures Valid() && Represents(t) && t == Turn(s, OutcomeOf(remote, nSend, again, written))
      ensures more == (s.logQ != [])
      ensures more ==> Handled(old(View()), nSend, again, written, View())
    {
      if s.logQ != [] {
        TurnHandles(View(), nSend, again, written);
      }
      t := Turn(s, OutcomeOf(remote, nSend, again, written));
      TurnIsShared(s, OutcomeOf(remote, nSend, again, written));
      more := TakeTurn(nSend, again, written);
    }

    method TakeTurn(nSend: int, again: bool, written: nat) returns (more: bool)
      requires Valid()
      requires logQ.contents != [] ==>
                 && logQ.contents[0] in content
                 && nSend <= |content[logQ.contents[0]]| && written <= |content[logQ.contents[0]]|
      modifies this`out, this`repr, repr
      ensures Valid() && fresh(repr - old(repr))
      ensures more == (old(logQ.contents) != [])
      ensures View() == AfterTurn(old(View()), OutcomeOf(remote, nSend, again, written))
    {
      var info := TakeLog();
      more := info != None;
      if more {
        Dispose(info.value, nSend, again, written);
      }
    }

    // What the loop does with a record it has taken.
    method Dispose(r: Record, nSend: int, again: bool, written: nat)
      requires Valid() && r in content && nSend <= |content[r]| && written <= |content[r]|
      modifies this`out, this`repr, repr
      ensures Valid() && fresh(repr - old(repr))
      ensures View() == AfterDispose(old(View()), r, OutcomeOf(remote, nSend, again, written))
    {
      var count := written;
      if remote {
        if nSend <= 0 && again {
          PutLog(r);
          return;
        }
        if nSend > 0 {
          count := nSend;
        }
      }
      Recycled(r, count);
    }

    // count bytes of the record got out.
    method Recycled(r: Record, count: nat)
      requires Valid() && r in content && count <= |content[r]|
      modifies this`out, this`repr, repr
      ensures Valid() && fresh(repr - old(repr))
      ensures View() == old(View()).(out := old(out) + [content[r][..count]], idleQ := old(idleQ.contents) + [r])
    {
      out := out + [content[r][..count]];
      PutIdle(r);
    }
  }
}
