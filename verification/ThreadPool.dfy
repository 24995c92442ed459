// The thread pool (src/core/ThreadPool.cpp): each worker has its own task list, mutex and
// condition variable. What a worker does between taking its mutex and letting go of it, in
// Unlock or in Wait, is one method of WorkerThread and one step of the system.

module ThreadPool {
  import opened Counting
  import opened Options

  type Task = nat  // the k-th call of AddTask hands over task k

  class WorkerThread {
    var taskList: seq<Task>
    var waiting: bool  // blocked on the condition variable

    constructor ()
      ensures taskList == [] && !waiting
    {
      taskList, waiting := [], false;
    }

    // From Lock to Unlock. Only the worker itself ever waits here, so Signal wakes it.
    method PushTask(t: Task)
      modifies this
      ensures (taskList, waiting) == Pushed(old(taskList), t)
    {
      taskList := taskList + [t];
      waiting := false;
    }

    // The part of Execute from Lock, or from the return of Wait, to Unlock or the next Wait.
    method TakeTask() returns (t: Option<Task>)
      modifies this
      ensures (taskList, waiting, t) == Taken(old(taskList))
    {
      waiting := false;
      if taskList == [] {
        waiting := true;
        return None;
      }
      t := Some(taskList[0]);
      taskList := taskList[1..];
    }
  }

  function Pushed(q: seq<Task>, t: Task): (seq<Task>, bool) {
    (q + [t], false)
  }

  function Taken(q: seq<Task>): (seq<Task>, bool, Option<Task>) {
    if q == [] then (q, true, None) else (q[1..], false, Some(q[0]))
  }

  datatype Worker = Worker(
    queue: seq<Task>,
    waiting: bool,
    running: Option<Task>,
    done: seq<Task>,
    pushed: seq<Task>)  // history

  datatype State = State(workers: seq<Worker>, added: nat)

  function Start(n: nat): State {
    State(seq(n, _ => Worker([], false, None, [], [])), 0)
  }

  datatype Step = Take | Finish | WakeUp

  datatype Action =
    | AddTask(random: nat)
    | Act(w: nat, step: Step)

  predicate Enabled(s: State, a: Action) {
    match a
    case AddTask(_) => |s.workers| > 0
    case Act(w, step) =>
      && w < |s.workers|
      && match step
         case Take => !s.workers[w].waiting && s.workers[w].running == None
         case Finish => s.workers[w].running != None
         case WakeUp => s.workers[w].waiting
  }

  function Push(x: Worker, t: Task): Worker {
    var (queue, waiting) := Pushed(x.queue, t);
    x.(queue := queue, waiting := waiting, pushed := x.pushed + [t])
  }

  function Do(x: Worker, step: Step): Worker
    requires step == Finish ==> x.running != None
  {
    match step
    case Take =>
      var (queue, waiting, t) := Taken(x.queue);
      x.(queue := queue, waiting := waiting, running := t)
    case Finish => x.(running := None, done := x.done + [x.running.value])
    case WakeUp => x.(waiting := false)
  }

  function Apply(s: State, a: Action): State
    requires Enabled(s, a)
  {
    match a
    case AddTask(random) =>
      var i := random % |s.workers|;
      State(s.workers[i := Push(s.workers[i], s.added)], s.added + 1)
    case Act(w, step) => s.(workers := s.workers[w := Do(s.workers[w], step)])
  }

  // ---- Each task is in one place

  function IsRunning(x: Worker, t: Task): nat {
    if x.running == Some(t) then 1 else 0
  }

  function PlacesWith(t: Task): Worker -> nat {
    (x: Worker) => Occurrences(x.queue, t) + IsRunning(x, t) + Occurrences(x.done, t)
  }

  function Places(s: State, t: Task): nat {
    Total(PlacesWith(t), s.workers)
  }

  // A task given to AddTask is once in one worker's list, running, or finished.
  ghost predicate Conserved(s: State) {
    forall t: Task :: Places(s, t) == if t < s.added then 1 else 0
  }

  lemma PushPlaces(x: Worker, u: Task, t: Task)
    ensures PlacesWith(t)(Push(x, u)) == PlacesWith(t)(x) + if t == u then 1 else 0
  {
    OccurrencesAppend(x.queue, u, t);
  }

  lemma DoPlaces(x: Worker, step: Step, t: Task)
    requires match step case Take => x.running == None case Finish => x.running != None case WakeUp => true
    ensures PlacesWith(t)(Do(x, step)) == PlacesWith(t)(x)
  {
    if step == Finish {
      OccurrencesAppend(x.done, x.running.value, t);
    }
  }

  lemma StepPlaces(s: State, a: Action, t: Task)
    requires Enabled(s, a)
    ensures Places(Apply(s, a), t) == Places(s, t) + if a.AddTask? && t == s.added then 1 else 0
  {
    match a
    case AddTask(random) =>
      var i := random % |s.workers|;
      PushPlaces(s.workers[i], s.added, t);
      TotalUpdate(PlacesWith(t), s.workers, i, Push(s.workers[i], s.added));
    case Act(w, step) =>
      DoPlaces(s.workers[w], step, t);
      TotalUpdate(PlacesWith(t), s.workers, w, Do(s.workers[w], step));
  }

  // ---- Each worker runs its tasks in the order of the pushes, and sleeps only without any

  function InHand(x: Worker): seq<Task> {
    if x.running.Some? then [x.running.value] else []
  }

  predicate Orderly(x: Worker) {
    && x.pushed == x.done + InHand(x) + x.queue
    && (x.waiting ==> x.queue == [] && x.running == None)
  }

  lemma PushIsOrderly(x: Worker, t: Task)
    requires Orderly(x)
    ensures Orderly(Push(x, t))
  {
    assert x.done + InHand(x) + (x.queue + [t]) == x.done + InHand(x) + x.queue + [t];
  }

  lemma DoIsOrderly(x: Worker, step: Step)
    requires Orderly(x)
    requires match step case Take => x.running == None case Finish => x.running != None case WakeUp => true
    ensures Orderly(Do(x, step))
  {
    if step == Take && x.queue != [] {
      assert x.done + [] + x.queue == x.done + [x.queue[0]] + x.queue[1..];
    } else if step == Finish {
      assert (x.done + [x.running.value]) + [] == x.done + [x.running.value];
    }
  }

  // ---- Every run

  ghost predicate Inv(s: State) {
    Conserved(s) && forall w :: 0 <= w < |s.workers| ==> Orderly(s.workers[w])
  }

  lemma StepKeeps(s: State, a: Action)
    requires Inv(s) && Enabled(s, a)
    ensures Inv(Apply(s, a))
  {
    var u := Apply(s, a);
    forall t: Task ensures Places(u, t) == if t < u.added then 1 else 0 {
      StepPlaces(s, a, t);
    }
    match a
    case AddTask(random) => PushIsOrderly(s.workers[random % |s.workers|], s.added);
    case Act(w, step) => DoIsOrderly(s.workers[w], step);
  }

  ghost predicate IsRun(states: seq<State>, actions: seq<Action>) {
    && |states| == |actions| + 1
    && forall k :: 0 <= k < |actions| ==>
         Enabled(states[k], actions[k]) && states[k + 1] == Apply(states[k], actions[k])
  }

  lemma {:induction false} EveryRun(n: nat, states: seq<State>, actions: seq<Action>)
    requires IsRun(states, actions) && states[0] == Start(n)
    ensures Inv(states[|actions|])
    decreases |actions|
  {
    var k := |actions|;
    if k == 0 {
      forall t: Task ensures Places(states[0], t) == 0 {
        TotalZero(PlacesWith(t), states[0].workers);
      }
    } else {
      assert IsRun(states[..k], actions[..k - 1]);
      EveryRun(n, states[..k], actions[..k - 1]);
      StepKeeps(states[k - 1], actions[k - 1]);
    }
  }

  predicate Asleep(s: State) {
    forall w :: 0 <= w < |s.workers| ==> s.workers[w].waiting
  }

  // When every worker sleeps, each task has been run exactly once, by one worker, and each
  // worker has run exactly what it was given, in that order.
  lemma AsleepMeansDone(n: nat, states: seq<State>, actions: seq<Action>, t: Task)
    requires IsRun(states, actions) && states[0] == Start(n)
    requires Asleep(states[|actions|]) && t < states[|actions|].added
    ensures var ws := states[|actions|].workers;
            && (forall w :: 0 <= w < |ws| ==> ws[w].done == ws[w].pushed)
            && (exists w :: 0 <= w < |ws| && Occurrences(ws[w].done, t) == 1)
            && Total(PlacesWith(t), ws) == 1
  {
    EveryRun(n, states, actions);
    var ws := states[|actions|].workers;
    forall v | 0 <= v < |ws| ensures ws[v].done == ws[v].pushed {
      AllRun(ws[v]);
    }
    assert Places(states[|actions|], t) == 1;
    SomeoneRan(ws, t);
  }

  lemma AllRun(x: Worker)
    requires Orderly(x) && x.waiting
    ensures x.done == x.pushed
  {
    assert x.done + [] + [] == x.done;
  }

  lemma SomeoneRan(ws: seq<Worker>, t: Task)
    requires forall w :: 0 <= w < |ws| ==> Orderly(ws[w]) && ws[w].waiting
    requires Total(PlacesWith(t), ws) == 1
    ensures exists w :: 0 <= w < |ws| && Occurrences(ws[w].done, t) == 1
  {
    SomeoneCounts(PlacesWith(t), ws);
    var w :| 0 <= w < |ws| && PlacesWith(t)(ws[w]) > 0;
    TotalUpdate(PlacesWith(t), ws, w, ws[w]);
    assert Orderly(ws[w]);
  }

  // ---- Without new tasks and spurious wakeups the workers come to rest

  function WorkOf(): Worker -> nat {
    (x: Worker) => 3 * |x.queue| + if x.waiting then 0 else if x.running == None then 1 else 2
  }

  function Work(s: State): nat {
    Total(WorkOf(), s.workers)
  }

  predicate Progress(a: Action) {
    a.Act? && a.step != WakeUp
  }

  lemma ProgressUsesWork(s: State, a: Action)
    requires Inv(s) && Enabled(s, a) && Progress(a)
    ensures Work(Apply(s, a)) < Work(s)
  {
    assert Orderly(s.workers[a.w]);
    TotalUpdate(WorkOf(), s.workers, a.w, Do(s.workers[a.w], a.step));
  }

  // Such a run is at most Work long; where it cannot go on, every worker sleeps.
  lemma {:induction false} RunsOut(s: State, states: seq<State>, actions: seq<Action>)
    requires Inv(s) && IsRun(states, actions) && states[0] == s
    requires forall k :: 0 <= k < |actions| ==> Progress(actions[k])
    ensures Inv(states[|actions|])
    ensures |actions| + Work(states[|actions|]) <= Work(s)
    ensures (forall a :: Progress(a) ==> !Enabled(states[|actions|], a)) <==> Asleep(states[|actions|])
    decreases |actions|
  {
    var k := |actions|;
    if k > 0 {
      assert IsRun(states[..k], actions[..k - 1]);
      RunsOut(s, states[..k], actions[..k - 1]);
      StepKeeps(states[k - 1], actions[k - 1]);
      ProgressUsesWork(states[k - 1], actions[k - 1]);
    }
    StuckIffAsleep(states[k]);
  }

  lemma StuckIffAsleep(s: State)
    requires Inv(s)
    ensures (forall a :: Progress(a) ==> !Enabled(s, a)) <==> Asleep(s)
  {
    if !Asleep(s) {
      var w :| 0 <= w < |s.workers| && !s.workers[w].waiting;
      var a := Act(w, if s.workers[w].running == None then Take else Finish);
      assert Progress(a) && Enabled(s, a);
    } else {
      forall a | Progress(a) ensures !Enabled(s, a) {
        if a.w < |s.workers| {
          assert Orderly(s.workers[a.w]);
        }
      }
    }
  }
}
