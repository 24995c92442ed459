// The database connection pool (src/http_svr/DBPool.cpp) and the threads that share it.
// Between taking the mutex and letting go of it, in Unlock or in Wait, a thread runs alone:
// each such stretch is one method of the pool and one step of the system.

module DBPool {
  import opened Counting

  type Conn = nat  // the address of a CDBConn

  const MIN_DB_CONN_CNT := 2

  datatype Pool = Pool(free: seq<Conn>, cur: int, max: int)

  datatype Outcome = Got(conn: Conn) | Failed | Blocked

  // The stretch of GetDBConn up to Unlock or Wait. If a connection is created, it is at the
  // address made and its Init returns result.
  function Get(p: Pool, made: Conn, result: int): (Pool, Outcome) {
    if p.free != [] then (p.(free := p.free[1..]), Got(p.free[0]))
    else if p.cur >= p.max then (p, Blocked)
    else if result != 0 then (p, Failed)
    else (p.(cur := p.cur + 1), Got(made))
  }

  function Rel(p: Pool, c: Conn): Pool {
    if c in p.free then p else p.(free := p.free + [c])
  }

  // The number of connections Init makes before one fails.
  function Good(results: seq<int>): (k: nat)
    ensures k <= |results|
    ensures forall i :: 0 <= i < k ==> results[i] == 0
    ensures k < |results| ==> results[k] != 0
  {
    if results == [] || results[0] != 0 then 0 else 1 + Good(results[1..])
  }

  class DBPool {
    var freeList: seq<Conn>
    var curConnCnt: int
    const maxConnCnt: int
    var signals: nat  // the calls of Signal on the condition variable

    constructor (max: int)
      ensures View() == Pool([], MIN_DB_CONN_CNT, max) && signals == 0
    {
      freeList, curConnCnt, maxConnCnt, signals := [], MIN_DB_CONN_CNT, max, 0;
    }

    ghost function View(): Pool
      reads this
    {
      Pool(freeList, curConnCnt, maxConnCnt)
    }

    // conns[i] is the address of the i-th connection and results[i] what its Init returns.
    method Init(conns: seq<Conn>, results: seq<int>) returns (ret: int)
      requires |conns| == |results| == curConnCnt
      modifies this`freeList, this`curConnCnt
      ensures View() == old(View()).(free := old(freeList) + conns[..Good(results)])
      ensures ret == if Good(results) < |results| then results[Good(results)] else 0
    {
      var i := 0;
      while i < curConnCnt
        invariant 0 <= i <= curConnCnt == old(curConnCnt)
        invariant i <= Good(results)
        invariant freeList == old(freeList) + conns[..i]
      {
        ret := results[i];
        if ret != 0 {
          return;
        }
        freeList := freeList + [conns[i]];
        i := i + 1;
      }
      ret := 0;
    }

    method GetDBConn(made: Conn, result: int) returns (o: Outcome)
      modifies this`freeList, this`curConnCnt
      ensures (View(), o) == Get(old(View()), made, result)
      // the connection free for longest, or a new one if none is free and its Init succeeds
      ensures o == Failed <==> old(freeList) == [] && old(curConnCnt) < maxConnCnt && result != 0
      ensures o == Blocked <==> old(freeList) == [] && old(curConnCnt) >= maxConnCnt
      ensures o.Got? ==> o.conn == (if old(freeList) == [] then made else old(freeList)[0])
                         && freeList == (if old(freeList) == [] then [] else old(freeList)[1..])
                         && curConnCnt == old(curConnCnt) + if old(freeList) == [] then 1 else 0
      ensures !o.Got? ==> unchanged(this)
    {
      while freeList == []
        invariant (freeList == old(freeList) && curConnCnt == old(curConnCnt))
               || (old(freeList) == [] && old(curConnCnt) < maxConnCnt && result == 0
                  && freeList == [made] && curConnCnt == old(curConnCnt) + 1)
        decreases freeList == []
      {
        if curConnCnt >= maxConnCnt {
          return Blocked;
        }
        if result != 0 {
          return Failed;
        }
        freeList := freeList + [made];
        curConnCnt := curConnCnt + 1;
      }
      o := Got(freeList[0]);
      freeList := freeList[1..];
      assert old(freeList) == [] ==> freeList == [];
    }

    // Signals once, whether or not the connection was free already. Whom that wakes is up to
    // the step Release below.
    method RelDBConn(c: Conn)
      modifies this
      ensures View() == Rel(old(View()), c) && signals == old(signals) + 1
      ensures freeList == old(freeList) + (if c in old(freeList) then [] else [c]) && curConnCnt == old(curConnCnt)
    {
      var it := 0;
      while it < |freeList| && freeList[it] != c
        invariant it <= |freeList|
        invariant c !in freeList[..it]
      {
        it := it + 1;
      }
      if it == |freeList| {
        freeList := freeList + [c];
      }
      signals := signals + 1;
    }
  }

  // ---- The system

  datatype Where =
    | Running    // outside Wait and not on its way out of it
    | Waiting
    | Signalled  // a Signal woke it, it does not have the mutex yet
    | Spurious   // it woke without a Signal, likewise

  datatype Thread = Thread(at: Where, held: multiset<Conn>)

  datatype State = State(pool: Pool, threads: seq<Thread>, created: set<Conn>)

  // After a successful Init that made the given connections.
  function Start(n: nat, max: int, conns: seq<Conn>): State {
    State(Pool(conns, |conns|, max), seq(n, _ => Thread(Running, multiset{})), set c | c in conns)
  }

  datatype Step =
    | Attempt(made: Conn, result: int)  // enter GetDBConn, or go on after Wait
    | Release(conn: Conn, woken: nat)
    | WakeUp                             // a spurious wakeup

  datatype Action = Action(i: nat, step: Step)

  predicate SomeoneWaits(s: State) {
    exists i :: 0 <= i < |s.threads| && s.threads[i].at == Waiting
  }

  predicate Waits(s: State, i: nat) {
    i < |s.threads| && s.threads[i].at == Waiting
  }

  // Signal wakes a waiting thread if there is one.
  predicate Enabled(s: State, a: Action) {
    && a.i < |s.threads|
    && match a.step
       case Attempt(made, _) => s.threads[a.i].at != Waiting && made !in s.created
       case Release(_, w) => s.threads[a.i].at == Running && (SomeoneWaits(s) ==> Waits(s, w))
       case WakeUp => s.threads[a.i].at == Waiting
  }

  function Move(s: State, i: nat, at: Where): State
    requires i < |s.threads|
  {
    s.(threads := s.threads[i := s.threads[i].(at := at)])
  }

  function Handed(t: Thread, c: Conn): Thread {
    Thread(Running, t.held + multiset{c})
  }

  function AttemptBy(s: State, i: nat, made: Conn, result: int): State
    requires i < |s.threads|
  {
    var (pool, o) := Get(s.pool, made, result);
    var t := s.(pool := pool);
    match o
    case Got(c) =>
      t.(threads := s.threads[i := Handed(s.threads[i], c)],
         created := if pool.cur > s.pool.cur then s.created + {made} else s.created)
    case Failed => Move(t, i, Running)
    case Blocked => Move(t, i, Waiting)
  }

  function GiveBack(s: State, i: nat, c: Conn): State
    requires i < |s.threads|
  {
    s.(pool := Rel(s.pool, c),
       threads := s.threads[i := s.threads[i].(held := s.threads[i].held - multiset{c})])
  }

  function Signal(s: State, w: nat): State {
    if Waits(s, w) then Move(s, w, Signalled) else s
  }

  function Apply(s: State, a: Action): State
    requires Enabled(s, a)
  {
    match a.step
    case Attempt(made, result) => AttemptBy(s, a.i, made, result)
    case Release(c, w) => Signal(GiveBack(s, a.i, c), w)
    case WakeUp => Move(s, a.i, Spurious)
  }

  // ---- Conservation

  function HeldOf(c: Conn): Thread -> nat {
    (t: Thread) => t.held[c]
  }

  // The number of places where c is: in the free list, or in the hands of a thread.
  function Places(s: State, c: Conn): nat {
    Occurrences(s.pool.free, c) + Total(HeldOf(c), s.threads)
  }

  // A created connection is once in the free list or with exactly one thread.
  ghost predicate Conserved(s: State) {
    forall c :: Places(s, c) == if c in s.created then 1 else 0
  }

  // The caller holds c, or c is free already.
  predicate MayRelease(s: State, i: nat, c: Conn) {
    i < |s.threads| && (c in s.threads[i].held || c in s.pool.free)
  }

  lemma MovePlaces(s: State, i: nat, at: Where, c: Conn)
    requires i < |s.threads|
    ensures Places(Move(s, i, at), c) == Places(s, c)
  {
    TotalUpdate(HeldOf(c), s.threads, i, s.threads[i].(at := at));
  }

  lemma MoveConserves(s: State, i: nat, at: Where)
    requires Conserved(s) && i < |s.threads|
    ensures Conserved(Move(s, i, at))
  {
    forall c ensures Places(Move(s, i, at), c) == Places(s, c) {
      MovePlaces(s, i, at, c);
    }
  }

  lemma HandedTotal(ts: seq<Thread>, i: nat, c: Conn, d: Conn)
    requires i < |ts|
    ensures Total(HeldOf(d), ts[i := Handed(ts[i], c)]) == Total(HeldOf(d), ts) + if c == d then 1 else 0
  {
    TotalUpdate(HeldOf(d), ts, i, Handed(ts[i], c));
  }

  lemma AttemptPlaces(s: State, i: nat, made: Conn, result: int, c: Conn)
    requires i < |s.threads|
    ensures var t := AttemptBy(s, i, made, result);
            Places(t, c) == Places(s, c) + if t.pool.cur > s.pool.cur && c == made then 1 else 0
  {
    match Get(s.pool, made, result).1
    case Got(d) => HandedTotal(s.threads, i, d, c);
    case Failed => MovePlaces(s, i, Running, c);
    case Blocked => MovePlaces(s, i, Waiting, c);
  }

  // Giving back c changes the number of places of c alone: by one if c was neither held
  // nor free, by minus one if it was both.
  lemma GiveBackPlaces(s: State, i: nat, c: Conn, d: Conn)
    requires i < |s.threads|
    ensures Places(GiveBack(s, i, c), d) == Places(s, d) +
            if d != c then 0
            else (if c in s.pool.free then 0 else 1) - (if c in s.threads[i].held then 1 else 0)
  {
    TotalUpdate(HeldOf(d), s.threads, i, GiveBack(s, i, c).threads[i]);
    OccurrencesAppend(s.pool.free, c, d);
  }

  lemma SignalPlaces(s: State, w: nat, c: Conn)
    ensures Places(Signal(s, w), c) == Places(s, c)
  {
    if Waits(s, w) {
      MovePlaces(s, w, Signalled, c);
    }
  }

  // What is free is not held.
  lemma FreeIsNotHeld(s: State, i: nat, c: Conn)
    requires Conserved(s) && i < |s.threads| && c in s.pool.free
    ensures c !in s.threads[i].held
  {
    OccursIffIn(s.pool.free, c);
    TotalUpdate(HeldOf(c), s.threads, i, s.threads[i]);
    assert Places(s, c) <= 1;
  }

  // Releasing keeps the connections conserved exactly if the caller holds the connection or
  // it is free already.
  lemma ReleaseConservesIff(s: State, i: nat, c: Conn, w: nat)
    requires Conserved(s) && Enabled(s, Action(i, Release(c, w)))
    ensures Conserved(Apply(s, Action(i, Release(c, w)))) <==> MayRelease(s, i, c)
  {
    var t := Apply(s, Action(i, Release(c, w)));
    assert s.created == t.created;
    forall d ensures Places(t, d) == Places(GiveBack(s, i, c), d) {
      SignalPlaces(GiveBack(s, i, c), w, d);
    }
    if MayRelease(s, i, c) {
      forall d ensures Places(t, d) == Places(s, d) {
        GiveBackPlaces(s, i, c, d);
        if c in s.pool.free {
          FreeIsNotHeld(s, i, c);
        }
      }
    } else {
      GiveBackPlaces(s, i, c, c);
      assert Places(t, c) == Places(s, c) + 1;
    }
  }

  lemma AttemptConserves(s: State, i: nat, made: Conn, result: int)
    requires Conserved(s) && Enabled(s, Action(i, Attempt(made, result)))
    ensures Conserved(AttemptBy(s, i, made, result))
  {
    var t := AttemptBy(s, i, made, result);
    forall c ensures Places(t, c) == if c in t.created then 1 else 0 {
      AttemptPlaces(s, i, made, result, c);
    }
  }

  // ---- Counter and capacity

  predicate Counted(s: State) {
    s.pool.cur == |s.created|
  }

  function Capacity(max: int): int {
    if max > MIN_DB_CONN_CNT then max else MIN_DB_CONN_CNT
  }

  predicate WithinCapacity(s: State) {
    s.pool.cur <= Capacity(s.pool.max)
  }

  lemma AttemptKeepsCount(s: State, i: nat, made: Conn, result: int)
    requires Counted(s) && WithinCapacity(s) && Enabled(s, Action(i, Attempt(made, result)))
    ensures Counted(AttemptBy(s, i, made, result)) && WithinCapacity(AttemptBy(s, i, made, result))
  {
  }

  // ---- Wakeups

  function SignalledOf(): Thread -> nat {
    (t: Thread) => if t.at == Signalled then 1 else 0
  }

  // The threads a Signal woke that have not had the mutex since.
  function SignalsUnderWay(s: State): nat {
    Total(SignalledOf(), s.threads)
  }

  predicate NoLostWakeup(s: State) {
    SomeoneWaits(s) ==> |s.pool.free| <= SignalsUnderWay(s) && s.pool.cur >= s.pool.max
  }

  // A thread goes to wait only when nothing is free and the maximum is reached.
  lemma BlocksOnlyAtCapacity(s: State, a: Action, i: nat)
    requires Enabled(s, a) && !Waits(s, i) && Waits(Apply(s, a), i)
    ensures a.i == i && a.step.Attempt? && s.pool.free == [] && s.pool.cur >= s.pool.max
    ensures Apply(s, a).pool == s.pool
  {
  }

  lemma AttemptLosesNoWakeup(s: State, i: nat, made: Conn, result: int)
    requires NoLostWakeup(s) && Enabled(s, Action(i, Attempt(made, result)))
    ensures NoLostWakeup(AttemptBy(s, i, made, result))
  {
    var t := AttemptBy(s, i, made, result);
    TotalUpdate(SignalledOf(), s.threads, i, t.threads[i]);
    if SomeoneWaits(t) && s.pool.free != [] {
      var j :| 0 <= j < |t.threads| && t.threads[j].at == Waiting;
      assert s.threads[j].at == Waiting;
    }
  }

  lemma ReleaseLosesNoWakeup(s: State, i: nat, c: Conn, w: nat)
    requires NoLostWakeup(s) && Enabled(s, Action(i, Release(c, w)))
    ensures NoLostWakeup(Apply(s, Action(i, Release(c, w))))
  {
    var t := GiveBack(s, i, c);
    var u := Signal(t, w);
    TotalUpdate(SignalledOf(), s.threads, i, t.threads[i]);
    if SomeoneWaits(u) {
      var j :| 0 <= j < |u.threads| && u.threads[j].at == Waiting;
      assert s.threads[j].at == Waiting;
      TotalUpdate(SignalledOf(), t.threads, w, u.threads[w]);
    }
  }

  lemma WakeUpLosesNoWakeup(s: State, i: nat)
    requires NoLostWakeup(s) && Enabled(s, Action(i, WakeUp))
    ensures NoLostWakeup(Move(s, i, Spurious))
  {
    TotalUpdate(SignalledOf(), s.threads, i, s.threads[i].(at := Spurious));
  }

  // ---- What an attempt comes to

  // It fails exactly if a connection was to be created and its Init failed. Then nothing has
  // changed but that the thread does not wait.
  lemma AttemptFailsIff(s: State, i: nat, made: Conn, result: int)
    requires Enabled(s, Action(i, Attempt(made, result)))
    ensures var t, o := AttemptBy(s, i, made, result), Get(s.pool, made, result).1;
            && (o == Failed <==> s.pool.free == [] && s.pool.cur < s.pool.max && result != 0)
            && (o == Failed ==> t == s.(threads := s.threads[i := s.threads[i].(at := Running)]))
  {
  }

  // Otherwise it gets the first free connection, or one just created whose Init returned 0.
  lemma AttemptGetsIff(s: State, i: nat, made: Conn, result: int)
    requires Enabled(s, Action(i, Attempt(made, result)))
    ensures var t, o := AttemptBy(s, i, made, result), Get(s.pool, made, result).1;
            && (o.Got? <==> s.pool.free != [] || (s.pool.cur < s.pool.max && result == 0))
            && (o.Got? ==>
                  && o.conn == (if s.pool.free != [] then s.pool.free[0] else made)
                  && t.pool.free == (if s.pool.free != [] then s.pool.free[1..] else [])
                  && t.created == (if s.pool.free != [] then s.created else s.created + {made})
                  && t.threads[i].held == s.threads[i].held + multiset{o.conn} && t.threads[i].at == Running
                  && forall j :: 0 <= j < |s.threads| && j != i ==> t.threads[j] == s.threads[j])
  {
  }

  // ---- Every run

  ghost predicate Inv(s: State) {
    Conserved(s) && Counted(s) && WithinCapacity(s) && NoLostWakeup(s)
  }

  // A run in which callers release only what they hold or what is free already.
  predicate Allowed(s: State, a: Action) {
    Enabled(s, a) && (a.step.Release? ==> MayRelease(s, a.i, a.step.conn))
  }

  lemma {:induction false} StepKeeps(s: State, a: Action)
    requires Inv(s) && Allowed(s, a)
    ensures Inv(Apply(s, a))
  {
    match a.step
    case Attempt(made, result) =>
      AttemptConserves(s, a.i, made, result);
      AttemptKeepsCount(s, a.i, made, result);
      AttemptLosesNoWakeup(s, a.i, made, result);
    case Release(c, w) =>
      ReleaseConservesIff(s, a.i, c, w);
      ReleaseLosesNoWakeup(s, a.i, c, w);
    case WakeUp =>
      MoveConserves(s, a.i, Spurious);
      WakeUpLosesNoWakeup(s, a.i);
  }

  ghost predicate Distinct(conns: seq<Conn>) {
    forall c :: Occurrences(conns, c) <= 1
  }

  ghost predicate IsRun(n: nat, max: int, conns: seq<Conn>, states: seq<State>, actions: seq<Action>) {
    && |states| == |actions| + 1
    && states[0] == Start(n, max, conns)
    && forall k :: 0 <= k < |actions| ==>
         Allowed(states[k], actions[k]) && states[k + 1] == Apply(states[k], actions[k])
  }

  lemma StartInv(n: nat, max: int, conns: seq<Conn>)
    requires |conns| == MIN_DB_CONN_CNT && Distinct(conns)
    ensures Inv(Start(n, max, conns))
  {
    var s := Start(n, max, conns);
    forall c ensures Places(s, c) == if c in s.created then 1 else 0 {
      TotalZero(HeldOf(c), s.threads);
      OccursIffIn(conns, c);
      assert Occurrences(conns, c) <= 1;
    }
    assert Occurrences(conns, conns[0]) <= 1;
    assert conns[1] == conns[1..][0];
    assert s.created == {conns[0], conns[1]};
  }

  lemma {:induction false} EveryRun(n: nat, max: int, conns: seq<Conn>, states: seq<State>, actions: seq<Action>)
    requires |conns| == MIN_DB_CONN_CNT && Distinct(conns)
    requires IsRun(n, max, conns, states, actions)
    ensures Inv(states[|actions|])
    decreases |actions|
  {
    var k := |actions|;
    if k == 0 {
      StartInv(n, max, conns);
    } else {
      assert IsRun(n, max, conns, states[..k], actions[..k - 1]);
      EveryRun(n, max, conns, states[..k], actions[..k - 1]);
      StepKeeps(states[k - 1], actions[k - 1]);
    }
  }

  // Every connection there is was made by Init, or by an attempt whose Init returned 0.
  lemma {:induction false} CreatedBySuccess(n: nat, max: int, conns: seq<Conn>, states: seq<State>,
                                            actions: seq<Action>, c: Conn)
    requires IsRun(n, max, conns, states, actions) && c in states[|actions|].created
    ensures c in conns || exists k :: 0 <= k < |actions| && actions[k].step == Attempt(c, 0)
    decreases |actions|
  {
    var k := |actions|;
    if k > 0 {
      var s, a := states[k - 1], actions[k - 1];
      if c in s.created {
        assert IsRun(n, max, conns, states[..k], actions[..k - 1]);
        CreatedBySuccess(n, max, conns, states[..k], actions[..k - 1], c);
        if c !in conns {
          var j :| 0 <= j < k - 1 && actions[..k - 1][j].step == Attempt(c, 0);
          assert actions[j].step == Attempt(c, 0);
        }
      } else {
        OnlySuccessCreates(s, a, c);
      }
    }
  }

  lemma OnlySuccessCreates(s: State, a: Action, c: Conn)
    requires Enabled(s, a) && c !in s.created && c in Apply(s, a).created
    ensures a.step == Attempt(c, 0)
  {
  }

  // ---- Which of the free connections is handed out

  // The first state since which c has been free without a break.
  function FreeSince(states: seq<State>, c: Conn): nat
    requires states != []
  {
    var k := |states| - 1;
    if k == 0 || c !in states[k - 1].pool.free then k else FreeSince(states[..k], c)
  }

  lemma {:induction false} SinceIsEarlier(states: seq<State>, c: Conn)
    requires states != []
    ensures FreeSince(states, c) <= |states| - 1
    decreases |states|
  {
    var k := |states| - 1;
    if k > 0 && c in states[k - 1].pool.free {
      SinceIsEarlier(states[..k], c);
    }
  }

  // What a step does to the list: nothing, or the first one leaves, or another one comes last.
  lemma StepOfList(s: State, a: Action)
    requires Enabled(s, a)
    ensures var free, free' := s.pool.free, Apply(s, a).pool.free;
            || free' == free
            || (free != [] && free' == free[1..])
            || (a.step.Release? && a.step.conn !in free && free' == free + [a.step.conn])
  {
  }

  // The list is in the order in which the connections became free.
  ghost predicate Queued(states: seq<State>)
    requires states != []
  {
    var free := states[|states| - 1].pool.free;
    forall p, q :: 0 <= p < q < |free| ==> FreeSince(states, free[p]) <= FreeSince(states, free[q])
  }

  lemma SinceNext(before: seq<State>, next: State, c: Conn)
    requires before != []
    ensures FreeSince(before + [next], c) ==
            if c in before[|before| - 1].pool.free then FreeSince(before, c) else |before|
    ensures FreeSince(before + [next], c) <= |before|
  {
    assert (before + [next])[..|before|] == before;
    SinceIsEarlier(before + [next], c);
  }

  lemma StillQueued(before: seq<State>, next: State)
    requires before != [] && Queued(before)
    requires var free, free' := before[|before| - 1].pool.free, next.pool.free;
             || free' == free
             || (free != [] && free' == free[1..])
             || (free' != [] && free'[|free'| - 1] !in free && free' == free + [free'[|free'| - 1]])
    ensures Queued(before + [next])
  {
    var states, free, free' := before + [next], before[|before| - 1].pool.free, next.pool.free;
    var d := if |free'| < |free| then 1 else 0;
    forall p, q | 0 <= p < q < |free'| ensures FreeSince(states, free'[p]) <= FreeSince(states, free'[q]) {
      SinceNext(before, next, free'[p]);
      SinceNext(before, next, free'[q]);
      assert free'[p] == free[p + d];
      if free'[q] in free {
        assert free'[q] == free[q + d];
      }
    }
  }

  lemma {:induction false} AlwaysQueued(n: nat, max: int, conns: seq<Conn>, states: seq<State>, actions: seq<Action>)
    requires IsRun(n, max, conns, states, actions)
    ensures Queued(states)
    decreases |actions|
  {
    var k := |actions|;
    if k > 0 {
      assert IsRun(n, max, conns, states[..k], actions[..k - 1]);
      AlwaysQueued(n, max, conns, states[..k], actions[..k - 1]);
      StepOfList(states[k - 1], actions[k - 1]);
      StillQueued(states[..k], states[k]);
      assert states == states[..k] + [states[k]];
    }
  }

  // So the connection handed out is one that has been free for longest.
  lemma LongestFreeFirst(n: nat, max: int, conns: seq<Conn>, states: seq<State>, actions: seq<Action>,
                         made: Conn, result: int, c: Conn)
    requires IsRun(n, max, conns, states, actions) && c in states[|actions|].pool.free
    ensures var o := Get(states[|actions|].pool, made, result).1;
            o.Got? && FreeSince(states, o.conn) <= FreeSince(states, c)
  {
    AlwaysQueued(n, max, conns, states, actions);
    var free := states[|actions|].pool.free;
    var q :| 0 <= q < |free| && free[q] == c;
    assert Get(states[|actions|].pool, made, result).1 == Got(free[0]);
  }

  // No connection is lent to two threads, or twice to one.
  lemma LentToOne(s: State, c: Conn, i: nat, j: nat)
    requires Conserved(s) && i < |s.threads| && j < |s.threads|
    requires c in s.threads[i].held && c in s.threads[j].held
    ensures i == j && s.threads[i].held[c] == 1 && c !in s.pool.free
  {
    var nothing := Thread(Running, multiset{});
    TotalUpdate(HeldOf(c), s.threads, i, nothing);
    TotalUpdate(HeldOf(c), s.threads[i := nothing], j, nothing);
    OccursIffIn(s.pool.free, c);
    assert Places(s, c) <= 1;
  }

  // If some thread waits and no woken thread is on its way, every connection is lent out
  // and no more may be created.
  lemma StuckOnlyWhenAllLent(s: State, c: Conn)
    requires Inv(s) && SomeoneWaits(s) && c in s.created
    requires forall i :: 0 <= i < |s.threads| ==> s.threads[i].at != Signalled
    ensures s.pool.free == [] && s.pool.cur >= s.pool.max
    ensures exists i :: 0 <= i < |s.threads| && c in s.threads[i].held
  {
    TotalZero(SignalledOf(), s.threads);
    assert Total(HeldOf(c), s.threads) == 1;
    SomeoneCounts(HeldOf(c), s.threads);
  }
}
