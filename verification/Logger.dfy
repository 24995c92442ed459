// The logger: any number of producers calling Log, and one thread that writes or sends the
// records (src/core/Log.cpp). Two CObjectPool queues pass records back and forth; each of
// their operations is one step here, as ObjectPool.dfy proves it atomic under its lock
// and a FIFO. The thread sleeps on a semaphore that a producer posts only when it reads a
// value of at most 0. It recycles a record whatever became of it: also if the socket took
// only a part of it, or the file could not be opened.

module Logger {
  import opened Counting

  type Record = nat    // the address of a LOG_INFO
  type Message = string

  const MAX_LOG_BUFFER: nat := 2048

  // What Log leaves in the buffer for a formatted text: cut to the room there is, and a
  // newline.
  function Line(text: string): Message {
    (if |text| >= MAX_LOG_BUFFER then text[..MAX_LOG_BUFFER - 1] else text) + "\n"
  }

  // A text shorter than the buffer goes out whole, any other as its longest prefix that leaves
  // room for the newline.
  lemma LineFits(text: string)
    ensures |text| < 2048 ==> Line(text) == text + "\n"
    ensures |text| >= 2048 ==> Line(text) == text[..2047] + "\n" && |Line(text)| == 2048
    ensures |Line(text)| <= 2048 && Line(text)[|Line(text)| - 1] == '\n'
  {
  }

  datatype Producer =
    | Outside                  // not inside Log
    | NeedsNew                 // found no idle record
    | Holding(record: Record)  // has a record
    | Formatted(record: Record)
    | Enqueued                 // the record is in the log queue, the semaphore is not read yet
    | MustPost                 // read a value of at most 0

  datatype Consumer =
    | AtWait                    // about to wait, or blocked in Wait
    | Draining
    | Working(record: Record)   // took a record out of the log queue
    | Finished(record: Record)  // wrote or sent it

  datatype State = State(
    remote: bool,  // records go to a server rather than to a file
    idleQ: seq<Record>,
    logQ: seq<Record>,
    sem: nat,
    producers: seq<Producer>,
    consumer: Consumer,
    content: map<Record, Message>,
    records: set<Record>,
    // history
    submitted: seq<Message>,
    handled: seq<Message>,  // those the log thread has done with
    left: seq<Message>,     // what of each of them reached the file or the socket
    retried: bool)

  function Start(n: nat, remote: bool): State {
    State(remote, [], [], 0, seq(n, _ => Outside), AtWait, map[], {}, [], [], [], false)
  }

  // What becomes of a record, with the number of its bytes that got out: Write to the file,
  // which writes nothing if it cannot open it; a send that took that many bytes; a failed
  // send, after which Write is tried; a send to be tried again.
  datatype Outcome = Written(count: nat) | Sent(count: nat) | HardError(count: nat) | Retry

  predicate Possible(o: Outcome, remote: bool, m: Message) {
    match o
    case Written(k) => !remote && k <= |m|
    case Sent(k) => remote && 0 < k <= |m|
    case HardError(k) => remote && k <= |m|
    case Retry => remote
  }

  datatype ProducerStep =
    | GetIdle
    | Allocate(record: Record)
    | Format(text: string)
    | Reject                  // formatting failed
    | Enqueue
    | ReadSemaphore
    | Post

  datatype ConsumerStep =
    | Wake
    | Interrupted             // Wait returns without having taken a unit
    | GetLog
    | Work(outcome: Outcome)
    | Recycle

  datatype Action = ByProducer(i: nat, p: ProducerStep) | ByConsumer(c: ConsumerStep)

  predicate ProducerEnabled(s: State, i: nat, a: ProducerStep) {
    && i < |s.producers|
    && var p := s.producers[i];
       match a
       case GetIdle => p == Outside
       case Allocate(r) => p == NeedsNew && r !in s.records
       case Format(_) => p.Holding?
       case Reject => p.Holding?
       case Enqueue => p.Formatted? && p.record in s.content
       case ReadSemaphore => p == Enqueued
       case Post => p == MustPost
  }

  predicate ConsumerEnabled(s: State, a: ConsumerStep) {
    match a
    case Wake => s.consumer == AtWait && s.sem > 0
    case Interrupted => s.consumer == AtWait
    case GetLog => s.consumer == Draining
    case Work(o) =>
      && s.consumer.Working? && s.consumer.record in s.content
      && Possible(o, s.remote, s.content[s.consumer.record])
    case Recycle => s.consumer.Finished?
  }

  function Become(s: State, i: nat, p: Producer): State
    requires i < |s.producers|
  {
    s.(producers := s.producers[i := p])
  }

  function ProducerApply(s: State, i: nat, a: ProducerStep): State
    requires ProducerEnabled(s, i, a)
  {
    match a
    case GetIdle =>
      if s.idleQ == [] then Become(s, i, NeedsNew)
      else Become(s, i, Holding(s.idleQ[0])).(idleQ := s.idleQ[1..])
    case Allocate(r) => Become(s, i, Holding(r)).(records := s.records + {r})
    case Format(text) =>
      var r := s.producers[i].record;
      Become(s, i, Formatted(r)).(content := s.content[r := Line(text)])
    case Reject => Become(s, i, Outside).(idleQ := s.idleQ + [s.producers[i].record])
    case Enqueue =>
      var r := s.producers[i].record;
      Become(s, i, Enqueued).(logQ := s.logQ + [r], submitted := s.submitted + [s.content[r]])
    case ReadSemaphore => Become(s, i, if s.sem <= 0 then MustPost else Outside)
    case Post => Become(s, i, Outside).(sem := s.sem + 1)
  }

  function ConsumerApply(s: State, a: ConsumerStep): State
    requires ConsumerEnabled(s, a)
  {
    match a
    case Wake => s.(sem := s.sem - 1, consumer := Draining)
    case Interrupted => s.(consumer := Draining)
    case GetLog =>
      if s.logQ == [] then s.(consumer := AtWait)
      else s.(logQ := s.logQ[1..], consumer := Working(s.logQ[0]))
    case Work(Retry) =>
      s.(logQ := s.logQ + [s.consumer.record], consumer := Draining, retried := true)
    case Work(o) =>
      var m := s.content[s.consumer.record];
      s.(handled := s.handled + [m], left := s.left + [m[..o.count]], consumer := Finished(s.consumer.record))
    case Recycle => s.(idleQ := s.idleQ + [s.consumer.record], consumer := Draining)
  }

  predicate Enabled(s: State, a: Action) {
    match a
    case ByProducer(i, p) => ProducerEnabled(s, i, p)
    case ByConsumer(c) => ConsumerEnabled(s, c)
  }

  function Apply(s: State, a: Action): State
    requires Enabled(s, a)
  {
    match a
    case ByProducer(i, p) => ProducerApply(s, i, p)
    case ByConsumer(c) => ConsumerApply(s, c)
  }

  // ---- Where the records are

  predicate Holds(p: Producer, r: Record) {
    (p.Holding? || p.Formatted?) && p.record == r
  }

  function HoldersOf(r: Record): Producer -> nat {
    (p: Producer) => if Holds(p, r) then 1 else 0
  }

  function HeldByConsumer(c: Consumer, r: Record): nat {
    if (c.Working? || c.Finished?) && c.record == r then 1 else 0
  }

  // The number of places where r is.
  function Places(s: State, r: Record): nat {
    Occurrences(s.idleQ, r) + Occurrences(s.logQ, r) + Total(HoldersOf(r), s.producers) + HeldByConsumer(s.consumer, r)
  }

  // Every allocated record is in exactly one place: idle queue, log queue, one producer's
  // hands or the log thread's hands. No other address is anywhere.
  ghost predicate Conserved(s: State) {
    forall r :: Places(s, r) == if r in s.records then 1 else 0
  }

  lemma ProducerPlaces(s: State, i: nat, a: ProducerStep, r: Record)
    requires ProducerEnabled(s, i, a)
    ensures Places(ProducerApply(s, i, a), r) == Places(s, r) + if a.Allocate? && a.record == r then 1 else 0
  {
    TotalUpdate(HoldersOf(r), s.producers, i, ProducerApply(s, i, a).producers[i]);
    if a == Reject {
      OccurrencesAppend(s.idleQ, s.producers[i].record, r);
    } else if a == Enqueue {
      OccurrencesAppend(s.logQ, s.producers[i].record, r);
    }
  }

  lemma ConsumerPlaces(s: State, a: ConsumerStep, r: Record)
    requires ConsumerEnabled(s, a)
    ensures Places(ConsumerApply(s, a), r) == Places(s, r)
  {
    if a.Work? {
      OccurrencesAppend(s.logQ, s.consumer.record, r);
    } else if a.Recycle? {
      OccurrencesAppend(s.idleQ, s.consumer.record, r);
    }
  }

  lemma StepConserves(s: State, a: Action)
    requires Conserved(s) && Enabled(s, a)
    ensures Conserved(Apply(s, a))
  {
    var t := Apply(s, a);
    forall r ensures Places(t, r) == if r in t.records then 1 else 0 {
      match a
      case ByProducer(i, p) => ProducerPlaces(s, i, p, r);
      case ByConsumer(c) => ConsumerPlaces(s, c, r);
    }
  }

  // ---- What becomes of the messages

  function MessagesIn(q: seq<Record>, content: map<Record, Message>): (ms: seq<Message>)
    requires forall r :: r in q ==> r in content
    ensures |ms| == |q|
    ensures forall k :: 0 <= k < |q| ==> q[k] in q && ms[k] == content[q[k]]
  {
    seq(|q|, k requires 0 <= k < |q| => assert q[k] in q; content[q[k]])
  }

  predicate InHandKnown(s: State) {
    s.consumer.Working? ==> s.consumer.record in s.content
  }

  function InHand(s: State): seq<Message>
    requires InHandKnown(s)
  {
    if s.consumer.Working? then [s.content[s.consumer.record]] else []
  }

  ghost predicate Readable(s: State) {
    && InHandKnown(s)
    && (forall r :: r in s.logQ ==> r in s.content)
    && (forall i :: 0 <= i < |s.producers| && s.producers[i].Formatted? ==> s.producers[i].record in s.content)
  }

  // Handled, in the log thread's hands, or waiting in the log queue.
  function Known(s: State): seq<Message>
    requires InHandKnown(s) && forall r :: r in s.logQ ==> r in s.content
  {
    s.handled + InHand(s) + MessagesIn(s.logQ, s.content)
  }

  // No submitted message is lost, duplicated or overwritten.
  ghost predicate Complete(s: State) {
    && Readable(s)
    && multiset(s.handled) + multiset(InHand(s)) + multiset(MessagesIn(s.logQ, s.content)) == multiset(s.submitted)
  }

  // Without retries the messages keep their order.
  ghost predicate InOrder(s: State) {
    Readable(s) && (!s.retried ==> Known(s) == s.submitted)
  }

  ghost predicate Accounted(s: State) {
    Complete(s) && InOrder(s)
  }

  lemma InOnePlace(s: State, i: nat, r: Record)
    requires Conserved(s) && i < |s.producers| && Holds(s.producers[i], r)
    ensures r !in s.logQ && HeldByConsumer(s.consumer, r) == 0
  {
    TotalUpdate(HoldersOf(r), s.producers, i, Outside);
    OccursIffIn(s.logQ, r);
    assert Places(s, r) <= 1;
  }

  lemma FormatKeepsMessages(s: State, i: nat, text: string)
    requires Conserved(s) && Accounted(s) && ProducerEnabled(s, i, Format(text))
    ensures Accounted(ProducerApply(s, i, Format(text)))
  {
    InOnePlace(s, i, s.producers[i].record);
    var t := ProducerApply(s, i, Format(text));
    assert MessagesIn(t.logQ, t.content) == MessagesIn(s.logQ, s.content);
    assert InHand(t) == InHand(s);
  }

  // A message moves from the queue into the hand, or from the hand to the handled ones.
  lemma MessageMoves(d: seq<Message>, m: Message, q: seq<Message>)
    ensures d + [] + ([m] + q) == d + [m] + q == (d + [m]) + [] + q
  {
  }

  lemma QueueGrows(q: seq<Record>, r: Record, content: map<Record, Message>)
    requires r in content && forall x :: x in q ==> x in content
    ensures MessagesIn(q + [r], content) == MessagesIn(q, content) + [content[r]]
  {
  }

  lemma QueueShrinks(q: seq<Record>, content: map<Record, Message>)
    requires q != [] && forall x :: x in q ==> x in content
    ensures q[0] in content && forall x :: x in q[1..] ==> x in content
    ensures MessagesIn(q, content) == [content[q[0]]] + MessagesIn(q[1..], content)
  {
    assert q[0] in q;
  }

  lemma EnqueueKeepsAll(s: State, i: nat)
    requires Complete(s) && ProducerEnabled(s, i, Enqueue)
    ensures Complete(ProducerApply(s, i, Enqueue))
  {
    QueueGrows(s.logQ, s.producers[i].record, s.content);
  }

  lemma EnqueueKeepsOrder(s: State, i: nat)
    requires InOrder(s) && ProducerEnabled(s, i, Enqueue)
    ensures InOrder(ProducerApply(s, i, Enqueue))
  {
    var r := s.producers[i].record;
    QueueGrows(s.logQ, r, s.content);
    var d, q, m := s.handled + InHand(s), MessagesIn(s.logQ, s.content), s.content[r];
    assert d + (q + [m]) == d + q + [m];
  }

  lemma {:induction false} GetLogKeepsMessages(s: State)
    requires Accounted(s) && ConsumerEnabled(s, GetLog)
    ensures Accounted(ConsumerApply(s, GetLog))
  {
    if s.logQ != [] {
      QueueShrinks(s.logQ, s.content);
      MessageMoves(s.handled, s.content[s.logQ[0]], MessagesIn(s.logQ[1..], s.content));
    }
  }

  lemma WorkKeepsAll(s: State, o: Outcome)
    requires Complete(s) && ConsumerEnabled(s, Work(o))
    ensures Complete(ConsumerApply(s, Work(o)))
  {
    QueueGrows(s.logQ, s.consumer.record, s.content);
  }

  lemma WorkKeepsOrder(s: State, o: Outcome)
    requires InOrder(s) && ConsumerEnabled(s, Work(o))
    ensures InOrder(ConsumerApply(s, Work(o)))
  {
    if o != Retry {
      MessageMoves(s.handled, s.content[s.consumer.record], MessagesIn(s.logQ, s.content));
    }
  }

  // A step that moves no message.
  lemma SameMessages(s: State, t: State)
    requires Accounted(s) && Readable(t)
    requires t.logQ == s.logQ && t.content == s.content && t.handled == s.handled
    requires t.submitted == s.submitted && t.retried == s.retried
    requires t.consumer.Working? || s.consumer.Working? ==> t.consumer == s.consumer
    ensures Accounted(t)
  {
  }

  lemma OtherStepsMoveNothing(s: State, i: nat, a: ProducerStep)
    requires ProducerEnabled(s, i, a) && !a.Format? && a != Enqueue
    ensures var t := ProducerApply(s, i, a);
            && t.logQ == s.logQ && t.content == s.content && t.handled == s.handled
            && t.submitted == s.submitted && t.retried == s.retried && t.consumer == s.consumer
            && t.producers == s.producers[i := t.producers[i]] && !t.producers[i].Formatted?
  {
  }

  lemma OtherProducerSteps(s: State, i: nat, a: ProducerStep)
    requires Accounted(s) && ProducerEnabled(s, i, a) && !a.Format? && a != Enqueue
    ensures Accounted(ProducerApply(s, i, a))
  {
    OtherStepsMoveNothing(s, i, a);
    SameMessages(s, ProducerApply(s, i, a));
  }

  lemma {:induction false} ProducerAccounts(s: State, i: nat, a: ProducerStep)
    requires Conserved(s) && Accounted(s) && ProducerEnabled(s, i, a)
    ensures Accounted(ProducerApply(s, i, a))
  {
    if a.Format? {
      FormatKeepsMessages(s, i, a.text);
    } else if a == Enqueue {
      EnqueueKeepsAll(s, i);
      EnqueueKeepsOrder(s, i);
    } else {
      OtherProducerSteps(s, i, a);
    }
  }

  lemma {:induction false} ConsumerAccounts(s: State, a: ConsumerStep)
    requires Accounted(s) && ConsumerEnabled(s, a)
    ensures Accounted(ConsumerApply(s, a))
  {
    if a == GetLog {
      GetLogKeepsMessages(s);
    } else if a.Work? {
      WorkKeepsAll(s, a.outcome);
      WorkKeepsOrder(s, a.outcome);
    } else {
      SameMessages(s, ConsumerApply(s, a));
    }
  }

  lemma {:induction false} StepAccounts(s: State, a: Action)
    requires Conserved(s) && Accounted(s) && Enabled(s, a)
    ensures Accounted(Apply(s, a))
  {
    match a
    case ByProducer(i, p) => ProducerAccounts(s, i, p);
    case ByConsumer(c) => ConsumerAccounts(s, c);
  }

  // ---- Wakeups

  predicate AboutToPost(p: Producer) {
    p == Enqueued || p == MustPost
  }

  // If the thread sleeps or is about to while records wait, a unit is on the semaphore or
  // some producer is between its enqueue and its post.
  ghost predicate NoLostWakeup(s: State) {
    s.consumer == AtWait && s.logQ != [] ==>
      s.sem > 0 || exists i :: 0 <= i < |s.producers| && AboutToPost(s.producers[i])
  }

  lemma ProducerLosesNoWakeup(s: State, i: nat, a: ProducerStep)
    requires NoLostWakeup(s) && ProducerEnabled(s, i, a)
    ensures NoLostWakeup(ProducerApply(s, i, a))
  {
    var t := ProducerApply(s, i, a);
    if a == Enqueue {
      assert AboutToPost(t.producers[i]);
    } else if s.consumer == AtWait && s.logQ != [] && s.sem == 0 {
      var j :| 0 <= j < |s.producers| && AboutToPost(s.producers[j]);
      assert t.sem > 0 || AboutToPost(t.producers[j]);
    }
  }

  lemma ConsumerLosesNoWakeup(s: State, a: ConsumerStep)
    requires NoLostWakeup(s) && ConsumerEnabled(s, a)
    ensures NoLostWakeup(ConsumerApply(s, a))
  {
  }

  function Posting(): Producer -> nat {
    (p: Producer) => if p == MustPost then 1 else 0
  }

  // The units on the semaphore and those about to be posted are at most the producers.
  predicate SemaphoreBounded(s: State) {
    s.sem + Total(Posting(), s.producers) <= |s.producers|
  }

  lemma ProducerBoundsSemaphore(s: State, i: nat, a: ProducerStep)
    requires SemaphoreBounded(s) && ProducerEnabled(s, i, a)
    ensures SemaphoreBounded(ProducerApply(s, i, a))
  {
    var t := ProducerApply(s, i, a);
    TotalUpdate(Posting(), s.producers, i, t.producers[i]);
    TotalAtMost(Posting(), t.producers);
  }

  lemma StepKeepsWakeups(s: State, a: Action)
    requires NoLostWakeup(s) && SemaphoreBounded(s) && Enabled(s, a)
    ensures NoLostWakeup(Apply(s, a)) && SemaphoreBounded(Apply(s, a))
  {
    match a
    case ByProducer(i, p) =>
      ProducerLosesNoWakeup(s, i, p);
      ProducerBoundsSemaphore(s, i, p);
    case ByConsumer(c) =>
      ConsumerLosesNoWakeup(s, c);
  }

  // ---- What gets out

  predicate Prefixes(a: seq<Message>, b: seq<Message>) {
    |a| == |b| && forall i :: 0 <= i < |a| ==> a[i] <= b[i]
  }

  lemma PrefixAdded(a: seq<Message>, b: seq<Message>, m: Message, k: nat)
    requires Prefixes(a, b) && k <= |m|
    ensures Prefixes(a + [m[..k]], b + [m])
  {
    assert m[..k] <= m;
  }

  // Of every message the thread has done with a prefix got out, perhaps nothing.
  predicate PrefixesLeft(s: State) {
    Prefixes(s.left, s.handled)
  }

  lemma StepKeepsPrefixes(s: State, a: Action)
    requires PrefixesLeft(s) && Enabled(s, a)
    ensures PrefixesLeft(Apply(s, a))
  {
    if a.ByConsumer? && a.c.Work? && a.c.outcome != Retry {
      PrefixAdded(s.left, s.handled, s.content[s.consumer.record], a.c.outcome.count);
    }
  }

  // If a message is done with in this step, all of it got out: the send took the whole
  // record, or Write wrote it.
  predicate Whole(s: State, a: Action) {
    a.ByConsumer? && a.c.Work? && a.c.outcome != Retry && ConsumerEnabled(s, a.c) ==>
      a.c.outcome.count == |s.content[s.consumer.record]|
  }

  lemma ProducersOutputNothing(s: State, i: nat, a: ProducerStep)
    requires ProducerEnabled(s, i, a)
    ensures var t := ProducerApply(s, i, a); t.left == s.left && t.handled == s.handled
  {
  }

  lemma StepWholeIff(s: State, a: Action)
    requires PrefixesLeft(s) && Enabled(s, a)
    ensures var t := Apply(s, a); t.left == t.handled <==> s.left == s.handled && Whole(s, a)
  {
    match a
    case ByProducer(i, p) => ProducersOutputNothing(s, i, p);
    case ByConsumer(Work(o)) =>
      if o != Retry {
        WorkWholeIff(s, o);
      }
    case ByConsumer(_) =>
  }

  lemma WorkWholeIff(s: State, o: Outcome)
    requires PrefixesLeft(s) && ConsumerEnabled(s, Work(o)) && o != Retry
    ensures var t := ConsumerApply(s, Work(o));
            t.left == t.handled <==> s.left == s.handled && o.count == |s.content[s.consumer.record]|
  {
    EqualIffWhole(s.left, s.handled, s.content[s.consumer.record], o.count);
  }

  lemma EqualIffWhole(a: seq<Message>, b: seq<Message>, m: Message, k: nat)
    requires |a| == |b| && k <= |m|
    ensures a + [m[..k]] == b + [m] <==> a == b && k == |m|
  {
    var c, d := a + [m[..k]], b + [m];
    assert c[..|a|] == a && d[..|b|] == b && c[|a|] == m[..k] && d[|b|] == m;
    assert m[..k] == m <==> k == |m|;
  }

  function Length(): Message -> nat {
    (m: Message) => |m|
  }

  lemma {:induction false} PrefixesAreShorter(a: seq<Message>, b: seq<Message>)
    requires Prefixes(a, b)
    ensures Total(Length(), a) <= Total(Length(), b)
    ensures Total(Length(), a) == Total(Length(), b) ==> a == b
  {
    if a != [] {
      PrefixesAreShorter(a[1..], b[1..]);
      assert a[0] <= b[0] && (|a[0]| == |b[0]| ==> a[0] == b[0]);
      assert a == [a[0]] + a[1..] && b == [b[0]] + b[1..];
    }
  }

  // ---- Every run

  ghost predicate Inv(s: State) {
    Conserved(s) && Accounted(s) && PrefixesLeft(s) && NoLostWakeup(s) && SemaphoreBounded(s)
  }

  ghost predicate IsRun(n: nat, remote: bool, states: seq<State>, actions: seq<Action>) {
    && |states| == |actions| + 1
    && states[0] == Start(n, remote)
    && forall k :: 0 <= k < |actions| ==>
         Enabled(states[k], actions[k]) && states[k + 1] == Apply(states[k], actions[k])
  }

  lemma StartInv(n: nat, remote: bool)
    ensures Inv(Start(n, remote))
  {
    var s := Start(n, remote);
    forall r ensures Places(s, r) == 0 {
      TotalZero(HoldersOf(r), s.producers);
    }
    TotalZero(Posting(), s.producers);
  }

  lemma {:induction false} EveryRun(n: nat, remote: bool, states: seq<State>, actions: seq<Action>)
    requires IsRun(n, remote, states, actions)
    ensures Inv(states[|actions|])
    decreases |actions|
  {
    var k := |actions|;
    if k == 0 {
      StartInv(n, remote);
    } else {
      assert IsRun(n, remote, states[..k], actions[..k - 1]);
      EveryRun(n, remote, states[..k], actions[..k - 1]);
      var s, a := states[k - 1], actions[k - 1];
      StepConserves(s, a);
      StepAccounts(s, a);
      StepKeepsPrefixes(s, a);
      StepKeepsWakeups(s, a);
    }
  }

  // Every send took its whole record and every Write succeeded.
  ghost predicate AllWhole(states: seq<State>, actions: seq<Action>)
    requires |states| == |actions| + 1
  {
    forall k :: 0 <= k < |actions| ==> Whole(states[k], actions[k])
  }

  // In every run the messages got out whole if and only if that is so.
  lemma {:induction false} LeftWholeIff(n: nat, remote: bool, states: seq<State>, actions: seq<Action>)
    requires IsRun(n, remote, states, actions)
    ensures var s := states[|actions|]; s.left == s.handled <==> AllWhole(states, actions)
    decreases |actions|
  {
    var k := |actions|;
    if k > 0 {
      var before, earlier := states[..k], actions[..k - 1];
      assert IsRun(n, remote, before, earlier);
      EveryRun(n, remote, before, earlier);
      LeftWholeIff(n, remote, before, earlier);
      StepWholeIff(states[k - 1], actions[k - 1]);
      assert AllWhole(states, actions) <==> AllWhole(before, earlier) && Whole(states[k - 1], actions[k - 1]);
    }
  }

  // Nobody can move but by a new call of Log.
  predicate Quiescent(s: State) {
    && s.consumer == AtWait && s.sem == 0
    && forall i :: 0 <= i < |s.producers| ==> s.producers[i] == Outside
  }

  // Then the log thread has done with every message exactly once, in order unless a send was
  // retried, and every record is idle.
  lemma QuiescentMeansHandled(n: nat, remote: bool, states: seq<State>, actions: seq<Action>)
    requires IsRun(n, remote, states, actions) && Quiescent(states[|actions|])
    ensures var s := states[|actions|];
            && s.logQ == []
            && multiset(s.handled) == multiset(s.submitted)
            && (!s.retried ==> s.handled == s.submitted)
            && forall r :: r in s.records <==> r in s.idleQ
  {
    EveryRun(n, remote, states, actions);
    var s := states[|actions|];
    assert Known(s) == s.handled;
    forall r ensures r in s.records <==> r in s.idleQ {
      TotalZero(HoldersOf(r), s.producers);
      OccursIffIn(s.idleQ, r);
      assert Places(s, r) == Occurrences(s.idleQ, r);
    }
  }

  // And what got out is what was submitted, each message once and whole, if and only if
  // every send took its whole record and every Write succeeded.
  lemma DeliveredIff(n: nat, remote: bool, states: seq<State>, actions: seq<Action>)
    requires IsRun(n, remote, states, actions) && Quiescent(states[|actions|])
    ensures var s := states[|actions|];
            && (multiset(s.left) == multiset(s.submitted) <==> AllWhole(states, actions))
            && (!s.retried ==> (s.left == s.submitted <==> AllWhole(states, actions)))
  {
    var s := states[|actions|];
    EveryRun(n, remote, states, actions);
    QuiescentMeansHandled(n, remote, states, actions);
    LeftWholeIff(n, remote, states, actions);
    PrefixesAreShorter(s.left, s.handled);
    if multiset(s.left) == multiset(s.submitted) {
      SameElementsSameTotal(Length(), s.left, s.handled);
    }
  }

  // ---- How far a run gets without new calls

  function ProducerWork(): Producer -> nat {
    (p: Producer) =>
      match p
      case Outside => 0
      case NeedsNew => 10
      case Holding(_) => 9
      case Formatted(_) => 8
      case Enqueued => 4
      case MustPost => 3
  }

  function ConsumerWork(c: Consumer): nat {
    match c
    case AtWait => 0
    case Draining => 1
    case Working(_) => 3
    case Finished(_) => 2
  }

  // An upper bound on the steps still to be taken by those inside Log and by the log thread.
  function WorkLeft(s: State): nat {
    Total(ProducerWork(), s.producers) + 3 * |s.logQ| + 2 * s.sem + ConsumerWork(s.consumer)
  }

  // Every step but the start of a call, a send to be tried again, and an interrupted wait.
  predicate Progress(a: Action) {
    match a
    case ByProducer(_, p) => p != GetIdle
    case ByConsumer(c) => c != Interrupted && c != Work(Retry)
  }

  function Steps(): Action -> nat {
    (a: Action) => if Progress(a) then 1 else 0
  }

  // What the other steps may add.
  function Allowance(): Action -> nat {
    (a: Action) => if Progress(a) then 0 else if a.ByProducer? then 10 else 1
  }

  lemma ProducerUsesWork(s: State, i: nat, a: ProducerStep)
    requires ProducerEnabled(s, i, a)
    ensures WorkLeft(ProducerApply(s, i, a)) <= WorkLeft(s) + if a == GetIdle then 10 else -1
  {
    var t := ProducerApply(s, i, a);
    assert t.producers == s.producers[i := t.producers[i]];
    TotalUpdate(ProducerWork(), s.producers, i, t.producers[i]);
    assert ProducerWork()(t.producers[i]) + 3 * |t.logQ| + 2 * t.sem
           <= ProducerWork()(s.producers[i]) + 3 * |s.logQ| + 2 * s.sem + if a == GetIdle then 10 else -1;
  }

  lemma ConsumerUsesWork(s: State, a: ConsumerStep)
    requires ConsumerEnabled(s, a)
    ensures WorkLeft(ConsumerApply(s, a)) <= WorkLeft(s) + if a == Interrupted || a == Work(Retry) then 1 else -1
  {
  }

  lemma StepUsesWork(s: State, a: Action)
    requires Enabled(s, a)
    ensures WorkLeft(Apply(s, a)) + Steps()(a) <= WorkLeft(s) + Allowance()(a)
  {
    match a
    case ByProducer(i, p) => ProducerUsesWork(s, i, p);
    case ByConsumer(c) => ConsumerUsesWork(s, c);
  }

  lemma {:induction false} StepsAreBounded(n: nat, remote: bool, states: seq<State>, actions: seq<Action>)
    requires IsRun(n, remote, states, actions)
    ensures Total(Steps(), actions) + WorkLeft(states[|actions|]) <= Total(Allowance(), actions)
    decreases |actions|
  {
    var k := |actions|;
    if k == 0 {
      TotalZero(ProducerWork(), states[0].producers);
    } else {
      var earlier, a := actions[..k - 1], actions[k - 1];
      assert IsRun(n, remote, states[..k], earlier);
      StepsAreBounded(n, remote, states[..k], earlier);
      StepUsesWork(states[k - 1], a);
      TotalAppend(Steps(), earlier, a);
      TotalAppend(Allowance(), earlier, a);
      assert actions == earlier + [a];
    }
  }

  lemma {:induction false} SomeFresh(records: set<Record>) returns (r: Record)
    ensures forall x :: x in records ==> x < r
  {
    if records == {} {
      r := 0;
    } else {
      var x :| x in records;
      var others := records - {x};
      r := SomeFresh(others);
      r := if x < r then r else x + 1;
      forall y | y in records ensures y < r {
        assert y == x || y in others;
      }
    }
  }

  // What a producer inside Log can do.
  lemma ProducerCanMove(s: State, i: nat) returns (a: Action)
    requires Readable(s) && i < |s.producers| && s.producers[i] != Outside
    ensures Progress(a) && Enabled(s, a)
  {
    var r := SomeFresh(s.records);
    a := ByProducer(i, match s.producers[i]
                       case NeedsNew => Allocate(r)
                       case Holding(_) => Reject
                       case Formatted(_) => Enqueue
                       case Enqueued => ReadSemaphore
                       case _ => Post);
  }

  // What the log thread can do unless it waits for a unit.
  lemma ConsumerCanMove(s: State) returns (a: Action)
    requires Readable(s) && (s.consumer != AtWait || s.sem > 0)
    ensures Progress(a) && Enabled(s, a)
  {
    a := ByConsumer(match s.consumer
                    case AtWait => Wake
                    case Draining => GetLog
                    case Working(_) => Work(if s.remote then HardError(0) else Written(0))
                    case Finished(_) => Recycle);
  }

  lemma StuckIffQuiescent(s: State)
    requires Readable(s)
    ensures (forall a :: Progress(a) ==> !Enabled(s, a)) <==> Quiescent(s)
  {
    if s.consumer != AtWait || s.sem > 0 {
      var a := ConsumerCanMove(s);
      assert Progress(a) && Enabled(s, a);
    } else if !Quiescent(s) {
      var i :| 0 <= i < |s.producers| && s.producers[i] != Outside;
      var a := ProducerCanMove(s, i);
      assert Progress(a) && Enabled(s, a);
    }
  }

  // In every run these steps are at most ten for each call, and one for each retry and each
  // interrupted wait. No such step is possible exactly where everything is at rest.
  lemma RunsOut(n: nat, remote: bool, states: seq<State>, actions: seq<Action>)
    requires IsRun(n, remote, states, actions)
    ensures Total(Steps(), actions) + WorkLeft(states[|actions|]) <= Total(Allowance(), actions)
    ensures (forall a :: Progress(a) ==> !Enabled(states[|actions|], a)) <==> Quiescent(states[|actions|])
  {
    StepsAreBounded(n, remote, states, actions);
    EveryRun(n, remote, states, actions);
    StuckIffQuiescent(states[|actions|]);
  }

  // ---- A short send

  lemma ExtendRun(n: nat, remote: bool, states: seq<State>, actions: seq<Action>, a: Action)
    returns (ss: seq<State>, as_: seq<Action>)
    requires IsRun(n, remote, states, actions) && Enabled(states[|actions|], a)
    ensures IsRun(n, remote, ss, as_) && |as_| == |actions| + 1
    ensures ss[|as_|] == Apply(states[|actions|], a)
  {
    ss, as_ := states + [Apply(states[|actions|], a)], actions + [a];
  }

  // One producer calls Log once.
  lemma LogOnce(text: string) returns (states: seq<State>, actions: seq<Action>)
    ensures IsRun(1, true, states, actions)
    ensures states[|actions|] ==
            State(true, [], [0], 1, [Outside], AtWait, map[0 := Line(text)], {0}, [Line(text)], [], [], false)
  {
    states, actions := [Start(1, true)], [];
    states, actions := ExtendRun(1, true, states, actions, ByProducer(0, GetIdle));
    states, actions := ExtendRun(1, true, states, actions, ByProducer(0, Allocate(0)));
    states, actions := ExtendRun(1, true, states, actions, ByProducer(0, Format(text)));
    states, actions := ExtendRun(1, true, states, actions, ByProducer(0, Enqueue));
    states, actions := ExtendRun(1, true, states, actions, ByProducer(0, ReadSemaphore));
    states, actions := ExtendRun(1, true, states, actions, ByProducer(0, Post));
  }

  // The send takes one byte of "a" and the newline. The record is recycled, everything is at
  // rest, and the newline is nowhere.
  lemma ShortSendLosesTail() returns (states: seq<State>, actions: seq<Action>)
    ensures IsRun(1, true, states, actions) && Quiescent(states[|actions|])
    ensures states[|actions|].submitted == ["a\n"] && states[|actions|].left == ["a"]
  {
    states, actions := LogOnce("a");
    states, actions := ExtendRun(1, true, states, actions, ByConsumer(Wake));
    states, actions := ExtendRun(1, true, states, actions, ByConsumer(GetLog));
    states, actions := ExtendRun(1, true, states, actions, ByConsumer(Work(Sent(1))));
    states, actions := ExtendRun(1, true, states, actions, ByConsumer(Recycle));
    states, actions := ExtendRun(1, true, states, actions, ByConsumer(GetLog));
    assert Line("a") == "a\n" && "a\n"[..1] == "a";
  }
}
