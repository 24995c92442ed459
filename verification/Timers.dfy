// The timers of the event loop (src/core/EventDispatch.cpp). A callback that runs during a
// pass over the list may add and remove timers, its own and others. The pass has moved its
// iterator on before the callback; a callback that removes the node the iterator points to
// frees that node, and what the source does from there on is undefined.

module Timers {
  import opened Counting
  import opened Options
  import opened Sequences

  datatype Key = Key(callback: nat, userData: nat)

  // registered is the tick of the last AddTimer, fires the number of calls since then.
  datatype Timer = Timer(key: Key, interval: nat, next: nat, registered: nat, fires: nat)

  datatype Op = Add(key: Key, interval: nat, now: nat) | Remove(key: Key)

  // ---- The list

  // The place of the first timer with the key, or the length.
  function Index(ts: seq<Timer>, key: Key): (i: nat)
    ensures i <= |ts|
    ensures i < |ts| ==> ts[i].key == key
    ensures forall j :: 0 <= j < i ==> ts[j].key != key
  {
    if ts == [] || ts[0].key == key then 0 else 1 + Index(ts[1..], key)
  }

  function Registration(key: Key, interval: nat, now: nat): Timer {
    Timer(key, interval, now + interval, now, 0)
  }

  function Added(ts: seq<Timer>, key: Key, interval: nat, now: nat): seq<Timer> {
    var i := Index(ts, key);
    if i < |ts| then ts[i := Registration(key, interval, now)] else ts + [Registration(key, interval, now)]
  }

  function Removed(ts: seq<Timer>, key: Key): seq<Timer> {
    var i := Index(ts, key);
    if i < |ts| then ts[..i] + ts[i + 1..] else ts
  }

  function Fire(t: Timer): Timer {
    t.(next := t.next + t.interval, fires := t.fires + 1)
  }

  ghost predicate Unique(ts: seq<Timer>) {
    forall i, j :: 0 <= i < j < |ts| ==> ts[i].key != ts[j].key
  }

  lemma AddedIsUnique(ts: seq<Timer>, key: Key, interval: nat, now: nat)
    requires Unique(ts)
    ensures Unique(Added(ts, key, interval, now))
  {
  }

  lemma RemovedAt(ts: seq<Timer>, key: Key)
    ensures var i, r := Index(ts, key), Removed(ts, key);
            && |r| == (if i < |ts| then |ts| - 1 else |ts|)
            && forall j :: 0 <= j < |r| ==> r[j] == if j < i then ts[j] else ts[j + 1]
  {
  }

  lemma RemovedIsUnique(ts: seq<Timer>, key: Key)
    requires Unique(ts)
    ensures Unique(Removed(ts, key))
  {
    RemovedAt(ts, key);
  }

  lemma RemovedHolds(ts: seq<Timer>, key: Key, t: Timer)
    requires Unique(ts)
    ensures t in Removed(ts, key) <==> t in ts && t.key != key
  {
    RemovedAt(ts, key);
    var i, r := Index(ts, key), Removed(ts, key);
    if t in ts && t.key != key {
      var j :| 0 <= j < |ts| && ts[j] == t;
      assert r[if j < i then j else j - 1] == t;
    }
  }

  // ---- The list and the iterator of a pass: it stands before rest

  datatype Pass = Pass(front: seq<Timer>, rest: seq<Timer>)

  function List(p: Pass): seq<Timer> {
    p.front + p.rest
  }

  // The node the iterator points to, None at the end.
  function At(ts: seq<Timer>): Option<Key> {
    if ts == [] then None else Some(ts[0].key)
  }

  // What is pushed while the iterator is at the end stays before it.
  function AddIn(p: Pass, key: Key, interval: nat, now: nat): Pass {
    if Index(p.front, key) < |p.front| then p.(front := Added(p.front, key, interval, now))
    else if Index(p.rest, key) < |p.rest| || p.rest != [] then p.(rest := Added(p.rest, key, interval, now))
    else p.(front := Added(p.front, key, interval, now))
  }

  function RemoveIn(p: Pass, key: Key): Pass {
    if Index(p.front, key) < |p.front| then p.(front := Removed(p.front, key)) else p.(rest := Removed(p.rest, key))
  }

  function Perform(p: Pass, op: Op): Pass {
    match op
    case Add(key, interval, now) => AddIn(p, key, interval, now)
    case Remove(key) => RemoveIn(p, key)
  }

  // The operation frees the node the iterator points to.
  predicate Frees(p: Pass, op: Op) {
    op.Remove? && At(p.rest) == Some(op.key)
  }

  // None if the script leaves the iterator dangling.
  function Run(p: Pass, script: seq<Op>): Option<Pass>
    decreases |script|
  {
    if script == [] then Some(p)
    else if Frees(p, script[0]) then None
    else Run(Perform(p, script[0]), script[1..])
  }

  lemma {:induction false} IndexInBoth(a: seq<Timer>, b: seq<Timer>, key: Key)
    ensures Index(a + b, key) == if Index(a, key) < |a| then Index(a, key) else |a| + Index(b, key)
  {
    if a == [] {
      assert [] + b == b;
    } else if a[0].key != key {
      assert (a + b)[1..] == a[1..] + b;
      IndexInBoth(a[1..], b, key);
    }
  }

  lemma AddInIsAdded(p: Pass, key: Key, interval: nat, now: nat)
    ensures List(AddIn(p, key, interval, now)) == Added(List(p), key, interval, now)
    ensures At(AddIn(p, key, interval, now).rest) == At(p.rest)
  {
    IndexInBoth(p.front, p.rest, key);
  }

  lemma RemovedFromCons(ts: seq<Timer>, key: Key)
    requires ts != []
    ensures Removed(ts, key) == if ts[0].key == key then ts[1..] else [ts[0]] + Removed(ts[1..], key)
  {
  }

  lemma OfCons(t: Timer, ts: seq<Timer>, key: Key)
    ensures Index([t] + ts, key) == if t.key == key then 0 else 1 + Index(ts, key)
    ensures Removed([t] + ts, key) == if t.key == key then ts else [t] + Removed(ts, key)
  {
    assert ([t] + ts)[1..] == ts;
    RemovedFromCons([t] + ts, key);
  }

  lemma {:induction false} RemovedFromBoth(a: seq<Timer>, b: seq<Timer>, key: Key)
    ensures Removed(a + b, key) == if Index(a, key) < |a| then Removed(a, key) + b else a + Removed(b, key)
  {
    if a == [] {
      Empty(b);
      Empty(Removed(b, key));
    } else {
      var t, more := a[0], a[1..];
      assert a == [t] + more;
      Associates([t], more, b);
      OfCons(t, more, key);
      OfCons(t, more + b, key);
      if t.key != key {
        RemovedFromBoth(more, b, key);
        Associates([t], Removed(more, key), b);
        Associates([t], more, Removed(b, key));
      }
    }
  }

  lemma RemoveInIsRemoved(p: Pass, key: Key)
    requires At(p.rest) != Some(key)
    ensures List(RemoveIn(p, key)) == Removed(List(p), key)
    ensures At(RemoveIn(p, key).rest) == At(p.rest)
  {
    RemovedFromBoth(p.front, p.rest, key);
  }

  lemma {:induction false} PerformKeepsPlace(p: Pass, op: Op)
    requires Unique(List(p)) && !Frees(p, op)
    ensures Unique(List(Perform(p, op)))
    ensures At(Perform(p, op).rest) == At(p.rest)
    ensures List(Perform(p, op)) ==
            if op.Add? then Added(List(p), op.key, op.interval, op.now) else Removed(List(p), op.key)
  {
    match op
    case Add(key, interval, now) =>
      AddInIsAdded(p, key, interval, now);
      AddedIsUnique(List(p), key, interval, now);
    case Remove(key) =>
      RemoveInIsRemoved(p, key);
      RemovedIsUnique(List(p), key);
  }

  predicate Removes(script: seq<Op>, key: Key) {
    Remove(key) in script
  }

  // A script leaves the iterator dangling if and only if it removes the timer the iterator
  // points to when the script begins, wherever in the script it does.
  lemma {:induction false} RunDanglesIff(p: Pass, script: seq<Op>)
    requires Unique(List(p))
    ensures Run(p, script) == None <==> p.rest != [] && Removes(script, p.rest[0].key)
    decreases |script|
  {
    if script != [] {
      assert script == [script[0]] + script[1..];
      if !Frees(p, script[0]) {
        PerformKeepsPlace(p, script[0]);
        RunDanglesIff(Perform(p, script[0]), script[1..]);
      }
    }
  }

  // ---- Due timers

  // The keys of the timers that are due, in the order of the list.
  function Due(ts: seq<Timer>, curr: nat): seq<Key> {
    if ts == [] then [] else (if ts[0].next <= curr then [ts[0].key] else []) + Due(ts[1..], curr)
  }

  function Without(ks: seq<Key>, key: Key): (r: seq<Key>)
    ensures |r| <= |ks|
    ensures key !in ks ==> r == ks
    ensures forall k :: k in r <==> k in ks && k != key
  {
    if ks == [] then [] else (if ks[0] == key then [] else [ks[0]]) + Without(ks[1..], key)
  }

  lemma WithoutCons(due: bool, k: Key, ks: seq<Key>, key: Key)
    ensures Without((if due then [k] else []) + ks, key) == (if due && k != key then [k] else []) + Without(ks, key)
  {
    assert ([k] + ks)[1..] == ks;
    assert [] + ks == ks;
  }

  // What is left of ks when the script has registered some of them anew or removed them.
  function Left(ks: seq<Key>, script: seq<Op>): (r: seq<Key>)
    ensures |r| <= |ks|
    decreases |script|
  {
    if script == [] then ks else Left(Without(ks, script[0].key), script[1..])
  }

  // A timer is registered for a tick after that of the pass: its interval is positive, or the
  // clock has moved on since the pass read it.
  predicate Live(op: Op, curr: nat) {
    op.Add? ==> op.now + op.interval > curr
  }

  predicate AllLive(script: seq<Op>, curr: nat) {
    forall op :: op in script ==> Live(op, curr)
  }

  lemma {:induction false} DueIsListed(ts: seq<Timer>, curr: nat, key: Key)
    requires key in Due(ts, curr)
    ensures Index(ts, key) < |ts|
  {
    if ts[0].key != key {
      DueIsListed(ts[1..], curr, key);
    }
  }

  lemma NotDueTwice(ts: seq<Timer>, curr: nat)
    requires Unique(ts) && ts != []
    ensures ts[0].key !in Due(ts[1..], curr)
  {
    if ts[0].key in Due(ts[1..], curr) {
      DueIsListed(ts[1..], curr, ts[0].key);
    }
  }

  lemma {:induction false} DueAfterUpdate(ts: seq<Timer>, curr: nat, key: Key, t: Timer)
    requires Unique(ts) && Index(ts, key) < |ts| && t.key == key && t.next > curr
    ensures Due(ts[Index(ts, key) := t], curr) == Without(Due(ts, curr), key)
  {
    var i := Index(ts, key);
    WithoutCons(ts[0].next <= curr, ts[0].key, Due(ts[1..], curr), key);
    if i == 0 {
      assert ts[0 := t] == [t] + ts[1..];
      DueOfCons(t, ts[1..], curr);
      NotDueTwice(ts, curr);
    } else {
      assert ts[i := t] == [ts[0]] + ts[1..][i - 1 := t];
      DueOfCons(ts[0], ts[1..][i - 1 := t], curr);
      DueAfterUpdate(ts[1..], curr, key, t);
    }
  }

  lemma {:induction false} DueAfterPush(ts: seq<Timer>, curr: nat, t: Timer)
    requires t.next > curr
    ensures Due(ts + [t], curr) == Due(ts, curr)
  {
    if ts == [] {
      assert [] + [t] == [t];
    } else {
      assert (ts + [t])[1..] == ts[1..] + [t];
      DueAfterPush(ts[1..], curr, t);
    }
  }

  lemma {:induction false} DueAfterRemove(ts: seq<Timer>, curr: nat, key: Key)
    requires Unique(ts)
    ensures Due(Removed(ts, key), curr) == Without(Due(ts, curr), key)
  {
    if ts != [] {
      RemovedFromCons(ts, key);
      WithoutCons(ts[0].next <= curr, ts[0].key, Due(ts[1..], curr), key);
      if ts[0].key == key {
        NotDueTwice(ts, curr);
      } else {
        DueAfterRemove(ts[1..], curr, key);
        DueOfCons(ts[0], Removed(ts[1..], key), curr);
      }
    }
  }

  lemma DueOfCons(t: Timer, ts: seq<Timer>, curr: nat)
    ensures Due([t] + ts, curr) == (if t.next <= curr then [t.key] else []) + Due(ts, curr)
  {
    assert ([t] + ts)[1..] == ts;
  }

  lemma DueAfterAdded(ts: seq<Timer>, curr: nat, op: Op)
    requires Unique(ts) && op.Add? && Live(op, curr)
    ensures Due(Added(ts, op.key, op.interval, op.now), curr) == Without(Due(ts, curr), op.key)
  {
    var t := Registration(op.key, op.interval, op.now);
    if Index(ts, op.key) < |ts| {
      DueAfterUpdate(ts, curr, op.key, t);
    } else {
      DueAfterPush(ts, curr, t);
      if op.key in Due(ts, curr) {
        DueIsListed(ts, curr, op.key);
      }
    }
  }

  lemma FrontIsNotDue(p: Pass, curr: nat, key: Key)
    requires Unique(List(p)) && Index(p.front, key) < |p.front|
    ensures key !in Due(p.rest, curr)
  {
    var i := Index(p.front, key);
    forall j | 0 <= j < |p.rest| ensures p.rest[j].key != key {
      assert List(p)[i].key != List(p)[|p.front| + j].key;
    }
    if key in Due(p.rest, curr) {
      DueIsListed(p.rest, curr, key);
    }
  }

  lemma RestIsUnique(p: Pass)
    requires Unique(List(p))
    ensures Unique(p.rest)
  {
    forall i, j | 0 <= i < j < |p.rest| ensures p.rest[i].key != p.rest[j].key {
      assert List(p)[|p.front| + i].key != List(p)[|p.front| + j].key;
    }
  }

  lemma DueAfterPerform(p: Pass, op: Op, curr: nat)
    requires Unique(List(p)) && Live(op, curr)
    ensures Due(Perform(p, op).rest, curr) == Without(Due(p.rest, curr), op.key)
  {
    RestIsUnique(p);
    if Index(p.front, op.key) < |p.front| {
      FrontIsNotDue(p, curr, op.key);
    } else if op.Remove? {
      DueAfterRemove(p.rest, curr, op.key);
    } else if p.rest != [] {
      DueAfterAdded(p.rest, curr, op);
    }
  }

  lemma {:induction false} DueAfterRun(p: Pass, script: seq<Op>, curr: nat)
    requires Unique(List(p)) && AllLive(script, curr) && Run(p, script).Some?
    ensures var q := Run(p, script).value;
            && Unique(List(q)) && At(q.rest) == At(p.rest)
            && Due(q.rest, curr) == Left(Due(p.rest, curr), script)
    decreases |script|
  {
    if script != [] {
      PerformKeepsPlace(p, script[0]);
      DueAfterPerform(p, script[0], curr);
      DueAfterRun(Perform(p, script[0]), script[1..], curr);
    }
  }

  // ---- A pass

  // The pass after it has moved on over a timer that is not due, or has fired one that is,
  // before its callback.
  function Step(p: Pass, t: Timer): Pass
    requires p.rest != []
  {
    Pass(p.front + [t], p.rest[1..])
  }

  lemma StepKeeps(p: Pass, t: Timer)
    requires Unique(List(p)) && p.rest != [] && t.key == p.rest[0].key
    ensures Unique(List(Step(p, t))) && At(p.rest[1..]) != Some(t.key)
  {
    var q := Step(p, t);
    assert |List(q)| == |List(p)|;
    assert forall i :: 0 <= i < |List(p)| ==> List(q)[i].key == List(p)[i].key;
    assert q.front[|p.front|] == t;
    if p.rest[1..] != [] {
      assert List(q)[|p.front|].key != List(q)[|p.front| + 1].key;
    }
  }

  ghost predicate Ready(p: Pass, curr: nat, scripts: Key -> seq<Op>) {
    Unique(List(p)) && forall k :: AllLive(scripts(k), curr)
  }

  // Where the pass stands after its next turn, None if the iterator dangles then.
  function Landed(p: Pass, curr: nat, scripts: Key -> seq<Op>): Option<Pass>
    requires p.rest != []
  {
    var t := p.rest[0];
    if t.next > curr then Some(Step(p, t)) else Run(Step(p, Fire(t)), scripts(t.key))
  }

  lemma LandedIsReady(p: Pass, curr: nat, scripts: Key -> seq<Op>)
    requires Ready(p, curr, scripts) && p.rest != [] && Landed(p, curr, scripts).Some?
    ensures var q, later := Landed(p, curr, scripts).value, Due(p.rest[1..], curr);
            && Ready(q, curr, scripts) && At(q.rest) == At(p.rest[1..])
            && Due(p.rest, curr) == (if p.rest[0].next > curr then [] else [p.rest[0].key]) + later
            && Due(q.rest, curr) == (if p.rest[0].next > curr then later else Left(later, scripts(p.rest[0].key)))
            && (p.rest[0].next > curr ==> |q.rest| < |p.rest|)
  {
    var t := p.rest[0];
    StepKeeps(p, t);
    StepKeeps(p, Fire(t));
    if t.next <= curr {
      DueAfterRun(Step(p, Fire(t)), scripts(t.key), curr);
    }
  }

  // The list after the pass, None if the pass follows a freed node; and the keys whose
  // callbacks ran.
  ghost function Checked(p: Pass, curr: nat, scripts: Key -> seq<Op>): (Option<seq<Timer>>, seq<Key>)
    requires Ready(p, curr, scripts)
    decreases |Due(p.rest, curr)|, |p.rest|
  {
    if p.rest == [] then (Some(List(p)), [])
    else
      var fires := if p.rest[0].next > curr then [] else [p.rest[0].key];
      if Landed(p, curr, scripts) == None then (None, fires)
      else
        LandedIsReady(p, curr, scripts);
        var (ts, fired) := Checked(Landed(p, curr, scripts).value, curr, scripts);
        (ts, fires + fired)
  }

  // ---- When a pass follows a freed node

  // The pass fires a timer whose callback removes the one the iterator has moved on to.
  predicate RemovesNext(p: Pass, curr: nat, scripts: Key -> seq<Op>) {
    |p.rest| > 1 && p.rest[0].next <= curr && Removes(scripts(p.rest[0].key), p.rest[1].key)
  }

  // Where the pass stands after n turns, if it gets that far.
  function Position(p: Pass, n: nat, curr: nat, scripts: Key -> seq<Op>): Option<Pass>
    decreases n
  {
    if n == 0 then Some(p)
    else if p.rest == [] || Landed(p, curr, scripts) == None then None
    else Position(Landed(p, curr, scripts).value, n - 1, curr, scripts)
  }

  // That happens at some turn of the pass.
  ghost predicate Strays(p: Pass, curr: nat, scripts: Key -> seq<Op>) {
    exists n: nat :: StraysAt(p, n, curr, scripts)
  }

  predicate StraysAt(p: Pass, n: nat, curr: nat, scripts: Key -> seq<Op>) {
    var q := Position(p, n, curr, scripts);
    q.Some? && RemovesNext(q.value, curr, scripts)
  }

  lemma LandsIff(p: Pass, curr: nat, scripts: Key -> seq<Op>)
    requires Ready(p, curr, scripts) && p.rest != []
    ensures Landed(p, curr, scripts) == None <==> RemovesNext(p, curr, scripts)
  {
    var t := p.rest[0];
    StepKeeps(p, Fire(t));
    if t.next <= curr {
      RunDanglesIff(Step(p, Fire(t)), scripts(t.key));
    }
  }

  lemma StraysLater(p: Pass, curr: nat, scripts: Key -> seq<Op>)
    requires p.rest != [] && Landed(p, curr, scripts).Some? && !RemovesNext(p, curr, scripts)
    ensures Strays(p, curr, scripts) <==> Strays(Landed(p, curr, scripts).value, curr, scripts)
  {
    var q := Landed(p, curr, scripts).value;
    if Strays(p, curr, scripts) {
      var n: nat :| StraysAt(p, n, curr, scripts);
      assert n > 0 && StraysAt(q, n - 1, curr, scripts);
    }
    if Strays(q, curr, scripts) {
      var n: nat :| StraysAt(q, n, curr, scripts);
      assert StraysAt(p, n + 1, curr, scripts);
    }
  }

  // A pass follows a freed node if and only if, at some turn, a firing callback removes the
  // timer the iterator then points to. Removing any other timer is safe.
  lemma {:induction false} FollowsFreedIff(p: Pass, curr: nat, scripts: Key -> seq<Op>)
    requires Ready(p, curr, scripts)
    ensures Checked(p, curr, scripts).0 == None <==> Strays(p, curr, scripts)
    decreases |Due(p.rest, curr)|, |p.rest|
  {
    assert StraysAt(p, 0, curr, scripts) <==> RemovesNext(p, curr, scripts);
    if p.rest != [] {
      LandsIff(p, curr, scripts);
      if !RemovesNext(p, curr, scripts) {
        LandedIsReady(p, curr, scripts);
        StraysLater(p, curr, scripts);
        FollowsFreedIff(Landed(p, curr, scripts).value, curr, scripts);
      }
    }
  }

  // In particular, callbacks that remove only their own timers are safe.
  lemma {:induction false} OwnRemovalsAreSafe(p: Pass, curr: nat, scripts: Key -> seq<Op>)
    requires Ready(p, curr, scripts)
    requires forall k, other :: Removes(scripts(k), other) ==> other == k
    ensures Checked(p, curr, scripts).0.Some?
    decreases |Due(p.rest, curr)|, |p.rest|
  {
    if p.rest != [] {
      StepKeeps(p, p.rest[0]);
      LandsIff(p, curr, scripts);
      LandedIsReady(p, curr, scripts);
      OwnRemovalsAreSafe(Landed(p, curr, scripts).value, curr, scripts);
    }
  }

  // Where the pass stands after as many turns as there are entries in plan, where plan[k] says
  // what the callbacks would do at the k-th turn.
  function Turns(p: Pass, curr: nat, plan: seq<Key -> seq<Op>>): Option<Pass>
    decreases |plan|
  {
    if plan == [] then Some(p)
    else if p.rest == [] || Landed(p, curr, plan[0]) == None then None
    else Turns(Landed(p, curr, plan[0]).value, curr, plan[1..])
  }

  // The callback removes its timer and registers it anew, for a tick the pass counts as due.
  predicate DueAgain(script: seq<Op>, key: Key, curr: nat) {
    |script| == 2 && script[0] == Remove(key)
    && script[1].Add? && script[1].key == key && script[1].now + script[1].interval <= curr
  }

  // Two such timers keep a pass going for as long as they do so, that is with interval 0 until
  // the clock has passed the tick of the pass.
  lemma {:induction false} GoesOnWhileDueAgain(x: Timer, y: Timer, curr: nat, plan: seq<Key -> seq<Op>>)
    requires x.key != y.key && x.next <= curr && y.next <= curr
    requires forall k :: 0 <= k < |plan| ==> DueAgain(plan[k](x.key), x.key, curr)
    requires forall k :: 0 <= k < |plan| ==> DueAgain(plan[k](y.key), y.key, curr)
    ensures Turns(Pass([], [x, y]), curr, plan).Some?
    ensures Turns(Pass([], [x, y]), curr, plan).value.rest != []
    decreases |plan|
  {
    if plan != [] {
      var script := plan[0](x.key);
      var z := Registration(x.key, script[1].interval, script[1].now);
      ReplacedAtEnd(Fire(x), y, script, curr);
      assert Step(Pass([], [x, y]), Fire(x)) == Pass([Fire(x)], [y]);
      assert Landed(Pass([], [x, y]), curr, plan[0]) == Some(Pass([], [y, z]));
      GoesOnWhileDueAgain(y, z, curr, plan[1..]);
    }
  }

  lemma ReplacedAtEnd(x: Timer, y: Timer, script: seq<Op>, curr: nat)
    requires x.key != y.key && DueAgain(script, x.key, curr)
    ensures Run(Pass([x], [y]), script) ==
            Some(Pass([], [y, Registration(x.key, script[1].interval, script[1].now)]))
  {
    var p, add := Pass([], [y]), script[1];
    assert Perform(Pass([x], [y]), script[0]) == p;
    assert Index([y][1..], x.key) == 0 && Index([y], x.key) == 1;
    assert Perform(p, add) == Pass([], [y, Registration(x.key, add.interval, add.now)]);
    assert script[1..] == [add] && [add][1..] == [];
    assert Run(p, [add]) == Run(Perform(p, add), []);
  }

  // ---- Which timers a pass fires

  // The script registers the key anew or removes it.
  predicate Disturbs(script: seq<Op>, key: Key) {
    exists op :: op in script && op.key == key
  }

  // The due timers fire in the order of the list, except those that a callback before them
  // registered anew or removed.
  function FireOrder(due: seq<Key>, scripts: Key -> seq<Op>): seq<Key>
    decreases |due|
  {
    if due == [] then [] else [due[0]] + FireOrder(Left(due[1..], scripts(due[0])), scripts)
  }

  // A pass fires timers in that order: all of them, or up to where it follows a freed node.
  lemma {:induction false} CheckedFires(p: Pass, curr: nat, scripts: Key -> seq<Op>)
    requires Ready(p, curr, scripts)
    ensures var (list, fired), order := Checked(p, curr, scripts), FireOrder(Due(p.rest, curr), scripts);
            fired <= order && (list.Some? ==> fired == order)
    decreases |Due(p.rest, curr)|, |p.rest|
  {
    if p.rest != [] {
      var k, later := p.rest[0].key, Due(p.rest[1..], curr);
      assert [] + later == later && ([k] + later)[1..] == later;
      if Landed(p, curr, scripts).Some? {
        LandedIsReady(p, curr, scripts);
        CheckedFires(Landed(p, curr, scripts).value, curr, scripts);
      }
    }
  }

  lemma {:induction false} WithoutOccurs(ks: seq<Key>, key: Key, k: Key)
    ensures Occurrences(Without(ks, key), k) == if k == key then 0 else Occurrences(ks, k)
  {
    if ks != [] {
      WithoutOccurs(ks[1..], key, k);
      var rest := Without(ks[1..], key);
      assert ([ks[0]] + rest)[1..] == rest && [] + rest == rest;
    }
  }

  lemma {:induction false} LeftOccurs(ks: seq<Key>, script: seq<Op>, k: Key)
    ensures Occurrences(Left(ks, script), k) == if Disturbs(script, k) then 0 else Occurrences(ks, k)
    decreases |script|
  {
    if script != [] {
      var op := script[0];
      LeftOccurs(Without(ks, op.key), script[1..], k);
      WithoutOccurs(ks, op.key, k);
      DisturbsFirstOrLater(script, k);
    }
  }

  lemma DisturbsFirstOrLater(script: seq<Op>, k: Key)
    requires script != []
    ensures Disturbs(script, k) <==> script[0].key == k || Disturbs(script[1..], k)
  {
    assert script == [script[0]] + script[1..];
  }

  lemma {:induction false} NothingDisturbed(ks: seq<Key>, script: seq<Op>)
    requires forall k :: k in ks ==> !Disturbs(script, k)
    ensures Left(ks, script) == ks
    decreases |script|
  {
    if script != [] {
      forall k | k in ks ensures !Disturbs(script[1..], k) && script[0].key != k {
        assert !Disturbs(script, k);
        assert script[0] in script;
      }
      NothingDisturbed(ks, script[1..]);
    }
  }

  lemma {:induction false} FiresAtMost(due: seq<Key>, scripts: Key -> seq<Op>, k: Key)
    ensures Occurrences(FireOrder(due, scripts), k) <= Occurrences(due, k)
    decreases |due|
  {
    if due != [] {
      FiresAtMost(Left(due[1..], scripts(due[0])), scripts, k);
      LeftOccurs(due[1..], scripts(due[0]), k);
      FireOrderOccurs(due, scripts, k);
    }
  }

  lemma FireOrderOccurs(due: seq<Key>, scripts: Key -> seq<Op>, k: Key)
    requires due != []
    ensures Occurrences(FireOrder(due, scripts), k) ==
            (if due[0] == k then 1 else 0) + Occurrences(FireOrder(Left(due[1..], scripts(due[0])), scripts), k)
  {
    var rest := FireOrder(Left(due[1..], scripts(due[0])), scripts);
    assert ([due[0]] + rest)[1..] == rest;
  }

  // No callback of a due timer registers or removes a due timer behind it in the list.
  predicate Undisturbed(due: seq<Key>, scripts: Key -> seq<Op>) {
    forall i, j :: 0 <= i < j < |due| ==> !Disturbs(scripts(due[i]), due[j])
  }

  lemma {:induction false} UndisturbedFiresAll(due: seq<Key>, scripts: Key -> seq<Op>)
    requires Undisturbed(due, scripts)
    ensures FireOrder(due, scripts) == due
  {
    if due != [] {
      var tail := due[1..];
      forall k | k in tail ensures !Disturbs(scripts(due[0]), k) {
        var j :| 0 <= j < |tail| && tail[j] == k;
        assert due[j + 1] == k;
      }
      NothingDisturbed(tail, scripts(due[0]));
      UndisturbedFiresAll(tail, scripts);
    }
  }

  ghost predicate NoDuplicates(ks: seq<Key>) {
    forall k :: Occurrences(ks, k) <= 1
  }

  // Every timer fired as often as it was due: once or not at all.
  ghost predicate FiredOnce(fired: seq<Key>, due: seq<Key>) {
    forall k :: Occurrences(fired, k) == Occurrences(due, k)
  }

  lemma {:induction false} AllFiredMeansUndisturbed(due: seq<Key>, scripts: Key -> seq<Op>)
    requires NoDuplicates(due)
    requires FiredOnce(FireOrder(due, scripts), due)
    ensures Undisturbed(due, scripts)
  {
    if due != [] {
      var h, tail := due[0], due[1..];
      var left := Left(tail, scripts(h));
      forall k ensures Occurrences(tail, k) <= 1 && Occurrences(FireOrder(left, scripts), k) == Occurrences(tail, k) {
        FireOrderOccurs(due, scripts, k);
        assert Occurrences(due, k) <= 1;
        assert Occurrences(FireOrder(due, scripts), k) == Occurrences(due, k);
      }
      forall k | k in tail ensures !Disturbs(scripts(h), k) {
        OccursIffIn(tail, k);
        FiresAtMost(left, scripts, k);
        LeftOccurs(tail, scripts(h), k);
      }
      NothingDisturbed(tail, scripts(h));
      AllFiredMeansUndisturbed(tail, scripts);
      forall i, j | 0 <= i < j < |due| ensures !Disturbs(scripts(due[i]), due[j]) {
        assert due[j] == tail[j - 1];
        if i > 0 {
          assert due[i] == tail[i - 1];
        }
      }
    }
  }

  lemma {:induction false} DueHasNoDuplicates(ts: seq<Timer>, curr: nat)
    requires Unique(ts)
    ensures NoDuplicates(Due(ts, curr))
  {
    if ts != [] {
      DueHasNoDuplicates(ts[1..], curr);
      var due := Due(ts[1..], curr);
      if ts[0].key in due {
        DueIsListed(ts[1..], curr, ts[0].key);
      }
      forall k ensures Occurrences(Due(ts, curr), k) <= 1 {
        OccursIffIn(due, k);
        assert Occurrences(due, k) <= 1;
        assert ([ts[0].key] + due)[1..] == due;
        assert [] + due == due;
      }
    }
  }

  // A pass fires only due timers, none of them twice; and one that does not follow a freed
  // node fires each of them exactly if no callback of a due timer registers or removes a due
  // timer that comes later in the list.
  lemma EachDueTimerOnceIff(ts: seq<Timer>, curr: nat, scripts: Key -> seq<Op>)
    requires Ready(Pass([], ts), curr, scripts)
    ensures var due := Due(ts, curr);
            var (list, fired) := Checked(Pass([], ts), curr, scripts);
            && (forall k :: Occurrences(fired, k) <= Occurrences(due, k) <= 1)
            && (list.Some? ==> (FiredOnce(fired, due) <==> Undisturbed(due, scripts)))
            && (list.Some? && Undisturbed(due, scripts) ==> fired == due)
  {
    var due, fired := Due(ts, curr), Checked(Pass([], ts), curr, scripts).1;
    assert [] + ts == ts;
    CheckedFires(Pass([], ts), curr, scripts);
    DueHasNoDuplicates(ts, curr);
    FiresOnceIff(due, scripts);
    forall k ensures Occurrences(fired, k) <= Occurrences(due, k) <= 1 {
      PrefixOccurs(fired, FireOrder(due, scripts), k);
    }
  }

  lemma {:induction false} PrefixOccurs(a: seq<Key>, b: seq<Key>, k: Key)
    requires a <= b
    ensures Occurrences(a, k) <= Occurrences(b, k)
  {
    if a != [] {
      PrefixOccurs(a[1..], b[1..], k);
    }
  }

  lemma FiresOnceIff(due: seq<Key>, scripts: Key -> seq<Op>)
    requires NoDuplicates(due)
    ensures var fired := FireOrder(due, scripts);
            && (forall k :: Occurrences(fired, k) <= Occurrences(due, k) <= 1)
            && (FiredOnce(fired, due) <==> Undisturbed(due, scripts))
            && (Undisturbed(due, scripts) ==> fired == due)
  {
    var fired := FireOrder(due, scripts);
    forall k ensures Occurrences(fired, k) <= Occurrences(due, k) <= 1 {
      FiresAtMost(due, scripts, k);
    }
    if Undisturbed(due, scripts) {
      UndisturbedFiresAll(due, scripts);
      assert fired == due;
    } else if FiredOnce(fired, due) {
      AllFiredMeansUndisturbed(due, scripts);
    }
  }

  // Two due timers, and the callback of the first registers the second anew, for a later tick:
  // the second does not fire in this pass.
  lemma RegisteredAnewIsSkipped(p: Pass, a: Timer, b: Timer, op: Op, curr: nat, scripts: Key -> seq<Op>)
    requires p == Pass([], [a, b]) && a.key != b.key && a.next <= curr && b.next <= curr
    requires op.Add? && op.key == b.key && op.now + op.interval > curr
    requires forall k :: scripts(k) == if k == a.key then [op] else []
    ensures Ready(p, curr, scripts) && Due(p.rest, curr) == [a.key, b.key]
    ensures Checked(p, curr, scripts).0.Some? && Checked(p, curr, scripts).1 == [a.key]
  {
    BothDue(a, b, curr);
    PairIsUnique(p, a, b);
    FirstFires(a.key, b.key, op, scripts);
    OwnRemovalsAreSafe(p, curr, scripts);
    CheckedFires(p, curr, scripts);
  }

  lemma PairIsUnique(p: Pass, a: Timer, b: Timer)
    requires p == Pass([], [a, b]) && a.key != b.key
    ensures Unique(List(p))
  {
    assert List(p) == [a, b];
  }

  // Two timers, and the callback of the first, which is due, removes the second: the pass
  // follows the freed node.
  lemma RemovedNextIsFollowed(a: Timer, b: Timer, curr: nat, scripts: Key -> seq<Op>)
    requires a.key != b.key && a.next <= curr && scripts(a.key) == [Remove(b.key)]
    requires Ready(Pass([], [a, b]), curr, scripts)
    ensures Checked(Pass([], [a, b]), curr, scripts) == (None, [a.key])
  {
    LandsIff(Pass([], [a, b]), curr, scripts);
  }

  lemma BothDue(s: Timer, t: Timer, curr: nat)
    requires s.next <= curr && t.next <= curr
    ensures Due([s, t], curr) == [s.key, t.key]
  {
    assert [s, t][1..] == [t];
    assert Due([t], curr) == [t.key];
  }

  lemma FirstFires(a: Key, b: Key, op: Op, scripts: Key -> seq<Op>)
    requires scripts(a) == [op] && op.key == b
    ensures FireOrder([a, b], scripts) == [a]
  {
    assert [a, b][1..] == [b];
    assert Without([b], b) == [];
    assert Left([b], scripts(a)) == [];
  }

  // ---- The list a pass leaves behind

  // u is t after n more calls, each of which moved its next tick on by an interval.
  predicate Advanced(t: Timer, n: nat, u: Timer) {
    u == t.(next := t.next + n * t.interval, fires := t.fires + n)
  }

  lemma AdvancedOnce(t: Timer, n: nat, u: Timer)
    requires Advanced(Fire(t), n, u)
    ensures Advanced(t, 1 + n, u)
  {
    assert (1 + n) * t.interval == t.interval + n * t.interval;
  }

  // Registering a key puts a timer due in an interval in its place, and changes no other.
  lemma AddedMeans(ts: seq<Timer>, key: Key, interval: nat, now: nat, t: Timer)
    requires Unique(ts)
    ensures t in Added(ts, key, interval, now) <==>
            if t.key == key then t == Timer(key, interval, now + interval, now, 0) else t in ts
    ensures Index(Added(ts, key, interval, now), key) == Index(ts, key)
  {
    var i, us, r := Index(ts, key), Added(ts, key, interval, now), Registration(key, interval, now);
    assert us[i] == r && forall j :: 0 <= j < |ts| && j != i ==> us[j] == ts[j];
    assert forall j :: 0 <= j < |us| ==> us[j] == if j == i then r else ts[j];
    if t in ts && t.key != key {
      var j :| 0 <= j < |ts| && ts[j] == t;
      assert us[j] == t;
    }
  }

  lemma OpSpares(p: Pass, op: Op, t: Timer)
    requires Unique(List(p)) && !Frees(p, op) && op.key != t.key
    ensures t in List(Perform(p, op)) <==> t in List(p)
  {
    PerformKeepsPlace(p, op);
    if op.Add? {
      AddedMeans(List(p), op.key, op.interval, op.now, t);
    } else {
      RemovedHolds(List(p), op.key, t);
    }
  }

  lemma {:induction false} RunSpares(p: Pass, script: seq<Op>, t: Timer)
    requires Unique(List(p)) && Run(p, script).Some? && !Disturbs(script, t.key)
    ensures t in List(Run(p, script).value) <==> t in List(p)
    decreases |script|
  {
    if script != [] {
      DisturbsFirstOrLater(script, t.key);
      OpSpares(p, script[0], t);
      PerformKeepsPlace(p, script[0]);
      RunSpares(Perform(p, script[0]), script[1..], t);
    }
  }

  // What a timer becomes by a turn of the pass for the timer in front of it.
  function Moved(t: Timer, item: Timer, curr: nat): Timer {
    if t.key == item.key && item.next <= curr then Fire(t) else t
  }

  lemma MovedAndAdvanced(t: Timer, item: Timer, curr: nat, n: nat, u: Timer)
    requires Advanced(Moved(t, item, curr), n, u)
    ensures Advanced(t, (if item.next <= curr && item.key == t.key then 1 else 0) + n, u)
  {
    if t.key == item.key && item.next <= curr {
      AdvancedOnce(t, n, u);
    }
  }

  lemma OnlyOne(ts: seq<Timer>, t: Timer, u: Timer)
    requires Unique(ts) && t in ts && u in ts && t.key == u.key
    ensures t == u
  {
    var i :| 0 <= i < |ts| && ts[i] == t;
    var j :| 0 <= j < |ts| && ts[j] == u;
  }

  lemma StepMoves(p: Pass, curr: nat, t: Timer)
    requires Unique(List(p)) && p.rest != [] && t in List(p)
    ensures var item := p.rest[0];
            Moved(t, item, curr) in List(Step(p, if item.next <= curr then Fire(item) else item))
  {
    var item := p.rest[0];
    var x := if item.next <= curr then Fire(item) else item;
    assert item in List(p);
    if t.key == item.key {
      OnlyOne(List(p), t, item);
      assert x in p.front + [x];
    } else {
      assert List(p) == p.front + [item] + p.rest[1..];
    }
  }

  lemma LandedMoves(p: Pass, curr: nat, scripts: Key -> seq<Op>, t: Timer)
    requires Ready(p, curr, scripts) && p.rest != [] && t in List(p) && Landed(p, curr, scripts).Some?
    requires p.rest[0].next <= curr ==> !Disturbs(scripts(p.rest[0].key), t.key)
    ensures Moved(t, p.rest[0], curr) in List(Landed(p, curr, scripts).value)
  {
    var item := p.rest[0];
    StepMoves(p, curr, t);
    if item.next <= curr {
      StepKeeps(p, Fire(item));
      RunSpares(Step(p, Fire(item)), scripts(item.key), Moved(t, item, curr));
    }
  }

  // No callback that ran registers or removes the key.
  ghost predicate Spared(fired: seq<Key>, scripts: Key -> seq<Op>, key: Key) {
    forall k :: k in fired ==> !Disturbs(scripts(k), key)
  }

  // A pass is its first turn and the pass from there.
  lemma FirstTurn(p: Pass, curr: nat, scripts: Key -> seq<Op>, key: Key)
    requires Ready(p, curr, scripts) && p.rest != []
    requires Checked(p, curr, scripts).0.Some? && Spared(Checked(p, curr, scripts).1, scripts, key)
    ensures Landed(p, curr, scripts).Some? && Ready(Landed(p, curr, scripts).value, curr, scripts)
    ensures var item, q := p.rest[0], Landed(p, curr, scripts).value;
            && Checked(p, curr, scripts).0 == Checked(q, curr, scripts).0
            && Spared(Checked(q, curr, scripts).1, scripts, key)
            && (item.next <= curr ==> !Disturbs(scripts(item.key), key))
    ensures var item, q := p.rest[0], Landed(p, curr, scripts).value;
            forall k :: Occurrences(Checked(p, curr, scripts).1, k)
                        == (if item.next <= curr && item.key == k then 1 else 0)
                           + Occurrences(Checked(q, curr, scripts).1, k)
  {
    LandedIsReady(p, curr, scripts);
    var item, fired := p.rest[0], Checked(Landed(p, curr, scripts).value, curr, scripts).1;
    var fires := if item.next > curr then [] else [item.key];
    assert forall k :: k in fired || k in fires ==> k in fires + fired;
    forall k ensures Occurrences(fires + fired, k) ==
                     (if item.next <= curr && item.key == k then 1 else 0) + Occurrences(fired, k) {
      OccurrencesOfTurn(item.key, item.next <= curr, fired, k);
    }
  }

  // A pass that follows no freed node leaves every timer that no callback registered or removed
  // in the list, with as many more calls as it was fired and its next tick moved on by as many
  // intervals.
  lemma {:induction false} PassLeaves(p: Pass, curr: nat, scripts: Key -> seq<Op>, t: Timer) returns (u: Timer)
    requires Ready(p, curr, scripts) && t in List(p)
    requires Checked(p, curr, scripts).0.Some? && Spared(Checked(p, curr, scripts).1, scripts, t.key)
    ensures u in Checked(p, curr, scripts).0.value
    ensures Advanced(t, Occurrences(Checked(p, curr, scripts).1, t.key), u)
    decreases |Due(p.rest, curr)|, |p.rest|
  {
    if p.rest == [] {
      u := t;
    } else {
      FirstTurn(p, curr, scripts, t.key);
      var item, q := p.rest[0], Landed(p, curr, scripts).value;
      LandedIsReady(p, curr, scripts);
      LandedMoves(p, curr, scripts, t);
      u := PassLeaves(q, curr, scripts, Moved(t, item, curr));
      MovedAndAdvanced(t, item, curr, Occurrences(Checked(q, curr, scripts).1, t.key), u);
    }
  }

  lemma OccurrencesOfTurn(k: Key, due: bool, fired: seq<Key>, key: Key)
    ensures Occurrences((if due then [k] else []) + fired, key)
            == (if due && k == key then 1 else 0) + Occurrences(fired, key)
  {
    assert ([k] + fired)[1..] == fired;
    Empty(fired);
  }

  lemma TurnComesFrom(p: Pass, curr: nat, scripts: Key -> seq<Op>, u: Timer) returns (t: Timer)
    requires Ready(p, curr, scripts) && p.rest != [] && Landed(p, curr, scripts).Some?
    requires p.rest[0].next <= curr ==> !Disturbs(scripts(p.rest[0].key), u.key)
    requires u in List(Landed(p, curr, scripts).value)
    ensures t in List(p) && Moved(t, p.rest[0], curr) == u
  {
    var item := p.rest[0];
    var x := if item.next <= curr then Fire(item) else item;
    StepKeeps(p, x);
    if item.next <= curr {
      RunSpares(Step(p, x), scripts(item.key), u);
    }
    StepComesFrom(p, x, u);
    t := if u.key == item.key then item else u;
    assert item in List(p);
  }

  lemma StepComesFrom(p: Pass, x: Timer, u: Timer)
    requires Unique(List(p)) && p.rest != [] && x.key == p.rest[0].key && u in List(Step(p, x))
    ensures if u.key == x.key then u == x else u in List(p)
  {
    StepKeeps(p, x);
    if u.key == x.key {
      assert x in p.front + [x];
      OnlyOne(List(Step(p, x)), u, x);
    } else {
      assert u in p.front || u in p.rest[1..];
    }
  }

  // And it adds no other timer.
  lemma {:induction false} PassAddsNone(p: Pass, curr: nat, scripts: Key -> seq<Op>, u: Timer) returns (t: Timer)
    requires Ready(p, curr, scripts) && Checked(p, curr, scripts).0.Some?
    requires u in Checked(p, curr, scripts).0.value && Spared(Checked(p, curr, scripts).1, scripts, u.key)
    ensures t in List(p) && Advanced(t, Occurrences(Checked(p, curr, scripts).1, t.key), u)
    decreases |Due(p.rest, curr)|, |p.rest|
  {
    if p.rest == [] {
      t := u;
    } else {
      FirstTurn(p, curr, scripts, u.key);
      var item, q := p.rest[0], Landed(p, curr, scripts).value;
      LandedIsReady(p, curr, scripts);
      var m := PassAddsNone(q, curr, scripts, u);
      t := TurnComesFrom(p, curr, scripts, m);
      MovedAndAdvanced(t, item, curr, Occurrences(Checked(q, curr, scripts).1, t.key), u);
    }
  }

  // Due are exactly the timers whose next tick has come.
  lemma {:induction false} DueMeans(ts: seq<Timer>, curr: nat, t: Timer)
    requires Unique(ts) && t in ts
    ensures t.key in Due(ts, curr) <==> t.next <= curr
  {
    if ts[0] == t {
      NotDueTwice(ts, curr);
    } else {
      assert ts[0].key != t.key by {
        var j :| 0 <= j < |ts| && ts[j] == t;
      }
      DueMeans(ts[1..], curr, t);
    }
  }

  // A timer that a pass fired does not fire in a later pass before its next interval is over.
  lemma FiresNotBeforeInterval(p: Pass, curr: nat, scripts: Key -> seq<Op>, curr2: nat, scripts2: Key -> seq<Op>,
                               t: Timer)
    requires Ready(p, curr, scripts) && t in List(p) && Checked(p, curr, scripts).0.Some?
    requires t.key in Checked(p, curr, scripts).1 && Spared(Checked(p, curr, scripts).1, scripts, t.key)
    requires Ready(Pass([], Checked(p, curr, scripts).0.value), curr2, scripts2) && t.next + t.interval > curr2
    ensures t.key !in Checked(Pass([], Checked(p, curr, scripts).0.value), curr2, scripts2).1
  {
    var fired, list := Checked(p, curr, scripts).1, Checked(p, curr, scripts).0.value;
    var u := PassLeaves(p, curr, scripts, t);
    OccursIffIn(fired, t.key);
    AtLeastOne(Occurrences(fired, t.key), t.interval);
    var q := Pass([], list);
    Empty(list);
    DueMeans(list, curr2, u);
    if t.key in Checked(q, curr2, scripts2).1 {
      FiredIsDue(q, curr2, scripts2, t.key);
    }
  }

  lemma AtLeastOne(n: nat, d: nat)
    requires n > 0
    ensures n * d >= d
  {
  }

  lemma FiredIsDue(p: Pass, curr: nat, scripts: Key -> seq<Op>, k: Key)
    requires Ready(p, curr, scripts) && k in Checked(p, curr, scripts).1
    ensures k in Due(p.rest, curr)
  {
    var fired, order := Checked(p, curr, scripts).1, FireOrder(Due(p.rest, curr), scripts);
    CheckedFires(p, curr, scripts);
    assert k in order;
    OccursIffIn(order, k);
    FiresAtMost(Due(p.rest, curr), scripts, k);
    OccursIffIn(Due(p.rest, curr), k);
  }

  // ---- Schedules

  // The timer fires interval ticks after the last time it was due, not after the last time
  // it fired; so there is no drift, and it has not fired too often.
  predicate OnSchedule(t: Timer, now: nat) {
    && t.next == t.registered + (t.fires + 1) * t.interval
    && t.registered + t.fires * t.interval <= now
  }

  predicate AllOnSchedule(ts: seq<Timer>, now: nat) {
    forall t :: t in ts ==> OnSchedule(t, now)
  }

  lemma FireKeepsSchedule(t: Timer, now: nat)
    requires OnSchedule(t, now) && t.next <= now
    ensures OnSchedule(Fire(t), now)
    ensures Fire(t) == t.(next := t.next + t.interval, fires := t.fires + 1)
  {
    assert (t.fires + 2) * t.interval == (t.fires + 1) * t.interval + t.interval;
  }

  function Max(a: nat, b: nat): nat {
    if a < b then b else a
  }

  lemma AddedIsOnSchedule(ts: seq<Timer>, key: Key, interval: nat, now: nat, clock: nat)
    requires AllOnSchedule(ts, clock)
    ensures AllOnSchedule(Added(ts, key, interval, now), Max(clock, now))
  {
    var us := Added(ts, key, interval, now);
    forall i | 0 <= i < |us| ensures OnSchedule(us[i], Max(clock, now)) {
      if i != Index(ts, key) {
        assert us[i] == ts[i] && ts[i] in ts;
      } else {
        assert us[i] == Registration(key, interval, now);
      }
    }
  }

  // Where the iterator stands in the list.
  lemma Place(p: Pass, t: Timer)
    requires Unique(List(p)) && p.rest != []
    ensures Index(List(p), p.rest[0].key) == |p.front|
    ensures List(p)[|p.front|] == p.rest[0] && List(p)[|p.front| + 1..] == p.rest[1..]
    ensures List(p)[|p.front| := t] == List(Step(p, t))
    ensures List(Step(p, p.rest[0])) == List(p)
  {
    var k := |p.front|;
    forall j | 0 <= j < k ensures p.front[j].key != p.rest[0].key {
      assert List(p)[j].key != List(p)[k].key;
    }
    IndexInBoth(p.front, p.rest, p.rest[0].key);
    StepIsUpdate(p.front, p.rest, t);
    StepIsUpdate(p.front, p.rest, p.rest[0]);
  }

  lemma StepIsUpdate(a: seq<Timer>, b: seq<Timer>, t: Timer)
    requires b != []
    ensures (a + b)[|a| := t] == a + [t] + b[1..] && (a + b)[|a| + 1..] == b[1..]
    ensures t == b[0] ==> a + [t] + b[1..] == a + b
  {
  }

  class EventDispatch {
    var timers: seq<Timer>
    ghost var clock: nat  // the latest tick read

    constructor ()
      ensures Valid() && timers == [] && clock == 0
    {
      timers, clock := [], 0;
    }

    ghost predicate Valid()
      reads this
    {
      Unique(timers) && AllOnSchedule(timers, clock)
    }

    method AddTimer(key: Key, interval: nat, now: nat)
      requires Valid()
      modifies this
      ensures Valid() && timers == Added(old(timers), key, interval, now) && clock == Max(old(clock), now)
    {
      AddedIsUnique(timers, key, interval, now);
      AddedIsOnSchedule(timers, key, interval, now, clock);
      clock := Max(clock, now);
      var it := 0;
      while it < |timers|
        invariant 0 <= it <= Index(timers, key)
        invariant timers == old(timers)
      {
        if timers[it].key == key {
          timers := timers[it := Timer(key, interval, now + interval, now, 0)];
          return;
        }
        it := it + 1;
      }
      timers := timers + [Timer(key, interval, now + interval, now, 0)];
    }

    method RemoveTimer(key: Key)
      requires Valid()
      modifies this`timers
      ensures Valid() && timers == Removed(old(timers), key)
    {
      RemovedIsUnique(timers, key);
      forall t | t in Removed(timers, key) ensures OnSchedule(t, clock) {
        RemovedHolds(timers, key, t);
      }
      var it := 0;
      while it < |timers|
        invariant 0 <= it <= Index(timers, key)
        invariant timers == old(timers)
      {
        if timers[it].key == key {
          timers := timers[..it] + timers[it + 1..];
          return;
        }
        it := it + 1;
      }
    }

    // A callback, while a pass stands at p and its iterator is it. The list stays sound even
    // if the iterator dangles.
    method Callback(script: seq<Op>, it: Option<Key>, ghost p: Pass) returns (dangling: bool)
      requires Valid() && timers == List(p) && it == At(p.rest)
      modifies this
      ensures Valid() && clock >= old(clock)
      ensures dangling <==> Run(p, script) == None
      ensures !dangling ==> timers == List(Run(p, script).value)
    {
      dangling := false;
      ghost var q := p;
      for i := 0 to |script|
        invariant Valid() && clock >= old(clock)
        invariant dangling ==> Run(p, script) == None
        invariant !dangling ==> timers == List(q) && At(q.rest) == it && Run(p, script) == Run(q, script[i..])
      {
        assert script[i..][1..] == script[i + 1..];
        if it != None && script[i] == Remove(it.value) {
          dangling := true;
        }
        if !dangling {
          PerformKeepsPlace(q, script[i]);
        }
        match script[i] {
          case Add(key, interval, now) => AddTimer(key, interval, now);
          case Remove(key) => RemoveTimer(key);
        }
        q := Perform(q, script[i]);
      }
    }

    // The iterator is the key of the node it points to, as keys are unique and never change.
    // defined is false where the source would follow a freed node.
    method CheckTimer(curr: nat, scripts: Key -> seq<Op>) returns (defined: bool, fired: seq<Key>)
      requires Valid() && Ready(Pass([], timers), curr, scripts)
      modifies this
      ensures Valid()
      ensures var (list, keys) := Checked(Pass([], old(timers)), curr, scripts);
              fired == keys && (if defined then list == Some(timers) else list == None)
    {
      clock := Max(clock, curr);
      defined, fired := true, [];
      var it := At(timers);
      ghost var p := Pass([], timers);
      Empty(Checked(p, curr, scripts).1);
      while it != None
        invariant Valid() && clock >= curr && defined
        invariant timers == List(p) && it == At(p.rest) && Ready(p, curr, scripts)
        invariant Checked(Pass([], old(timers)), curr, scripts).0 == Checked(p, curr, scripts).0
        invariant Checked(Pass([], old(timers)), curr, scripts).1 == fired + Checked(p, curr, scripts).1
        decreases |Due(p.rest, curr)|, |p.rest|
      {
        var more;
        ghost var q;
        defined, it, more, q := Visit(it.value, curr, scripts, p);
        if !defined {
          fired := fired + more;
          return;
        }
        Associates(fired, more, Checked(q, curr, scripts).1);
        fired, p := fired + more, q;
      }
      Empty(fired);
    }

    // One turn of the loop, for the node at.
    method Visit(at: Key, curr: nat, scripts: Key -> seq<Op>, ghost p: Pass)
      returns (defined: bool, it: Option<Key>, more: seq<Key>, ghost q: Pass)
      requires Valid() && clock >= curr
      requires timers == List(p) && Some(at) == At(p.rest) && Ready(p, curr, scripts)
      modifies this
      ensures Valid() && clock >= curr
      ensures !defined ==> Checked(p, curr, scripts) == (None, more)
      ensures defined ==>
                && timers == List(q) && it == At(q.rest) && Ready(q, curr, scripts)
                && Checked(p, curr, scripts).0 == Checked(q, curr, scripts).0
                && Checked(p, curr, scripts).1 == more + Checked(q, curr, scripts).1
                && (|Due(q.rest, curr)| < |Due(p.rest, curr)|
                    || (|Due(q.rest, curr)| == |Due(p.rest, curr)| && |q.rest| < |p.rest|))
    {
      Place(p, Fire(p.rest[0]));
      var i := Index(timers, at);
      var item := timers[i];
      it := At(timers[i + 1..]);
      defined, more := true, [];
      q := Step(p, item);
      StepKeeps(p, Fire(item));
      if curr >= item.next {
        more := [item.key];
        q := Step(p, Fire(item));
        FireAt(i, curr);
        var dangling := Callback(scripts(item.key), it, q);
        if dangling {
          assert Landed(p, curr, scripts) == None;
          defined := false;
          return;
        }
        q := Run(q, scripts(item.key)).value;
      }
      assert Landed(p, curr, scripts) == Some(q);
      LandedIsReady(p, curr, scripts);
    }

    method FireAt(i: nat, curr: nat)
      requires Valid() && i < |timers| && timers[i].next <= curr <= clock
      modifies this`timers
      ensures Valid() && timers == old(timers)[i := Fire(old(timers)[i])]
    {
      FireKeepsSchedule(timers[i], clock);
      timers := timers[i := timers[i].(next := timers[i].next + timers[i].interval, fires := timers[i].fires + 1)];
    }
  }
}
