/**
 * The thread pool of thread/ThreadPool.h: a bounded queue under one mutex with two condition variables. Every thread is
 * a small automaton, a run is any interleaving of their steps, and a step is what a thread does between two points at
 * which another thread can be seen to act: until it has the mutex, and from there until it waits or unlocks.
 */
module ThreadPools {

  type Task = int

  /** Where a worker is in runInThread and take. */
  datatype Worker =
    | Checking                  // about to test running_
    | Entering                  // about to lock the mutex in take
    | Holding                   // has the mutex, at the test of the wait loop
    | Waiting                   // in notEmpty_.wait(), mutex released
    | Woken                     // out of the wait, about to have the mutex again
    | Busy(tasks: seq<Task>)    // take has returned a task, or none
    | Exited

  /** Where a caller is in run. */
  datatype Caller =
    | Arriving(task: Task)
    | Holds(task: Task)
    | Blocked(task: Task)       // in notFull_.wait()
    | Roused(task: Task)
    | Returned(task: Task)

  datatype Owner = Nobody | AWorker(index: nat) | ACaller(index: nat)

  /** The pool and its threads, with the history of the tasks pushed, popped and finished. */
  datatype Pool = Pool(threadNum: nat, running: bool, tasks: seq<Task>, mutex: Owner,
                       workers: seq<Worker>, callers: seq<Caller>,
                       submitted: seq<Task>, taken: seq<Task>, finished: seq<Task>)

  datatype Step =
    | Call(task: Task)                   // a thread calls run
    | CallerLocks(caller: nat)
    | CallerPushes(caller: nat, wake: nat)
    | CallerStirs(caller: nat)           // a wait returns on its own
    | WorkerChecks(worker: nat)
    | WorkerLocks(worker: nat)
    | WorkerTakes(worker: nat, wake: nat)
    | WorkerFinishes(worker: nat)
    | WorkerStirs(worker: nat)
    | Stop

  predicate IsFull(s: Pool) {
    |s.tasks| >= s.threadNum
  }

  predicate SomeWaiting(workers: seq<Worker>) {
    exists i :: 0 <= i < |workers| && workers[i].Waiting?
  }

  predicate SomeBlocked(callers: seq<Caller>) {
    exists i :: 0 <= i < |callers| && callers[i].Blocked?
  }

  /** What pthread_cond_signal may choose: any thread that waits, when one does. */
  predicate MayWakeWorker(workers: seq<Worker>, wake: nat) {
    SomeWaiting(workers) ==> wake < |workers| && workers[wake].Waiting?
  }

  predicate MayRouseCaller(callers: seq<Caller>, wake: nat) {
    SomeBlocked(callers) ==> wake < |callers| && callers[wake].Blocked?
  }

  /** notEmpty_.notify() */
  function WakeOne(workers: seq<Worker>, wake: nat): (ws: seq<Worker>)
    requires MayWakeWorker(workers, wake)
    ensures |ws| == |workers|
  {
    if SomeWaiting(workers) then workers[wake := Woken] else workers
  }

  /** notFull_.notify() */
  function RouseOne(callers: seq<Caller>, wake: nat): (cs: seq<Caller>)
    requires MayRouseCaller(callers, wake)
    ensures |cs| == |callers|
  {
    if SomeBlocked(callers) then callers[wake := Roused(callers[wake].task)] else callers
  }

  /** notEmpty_.notifyAll() */
  function WakeAll(workers: seq<Worker>): (ws: seq<Worker>)
    ensures |ws| == |workers|
    ensures forall i :: 0 <= i < |ws| ==> ws[i] == if workers[i].Waiting? then Woken else workers[i]
  {
    seq(|workers|, i requires 0 <= i < |workers| => if workers[i].Waiting? then Woken else workers[i])
  }

  predicate Enabled(s: Pool, step: Step) {
    match step
    case Call(_) => true
    case CallerLocks(i) => i < |s.callers| && (s.callers[i].Arriving? || s.callers[i].Roused?) && s.mutex.Nobody?
    case CallerPushes(i, wake) => i < |s.callers| && s.callers[i].Holds? && MayWakeWorker(s.workers, wake)
    case CallerStirs(i) => i < |s.callers| && s.callers[i].Blocked?
    case WorkerChecks(i) => i < |s.workers| && s.workers[i].Checking?
    case WorkerLocks(i) => i < |s.workers| && (s.workers[i].Entering? || s.workers[i].Woken?) && s.mutex.Nobody?
    case WorkerTakes(i, wake) => i < |s.workers| && s.workers[i].Holding? && MayRouseCaller(s.callers, wake)
    case WorkerFinishes(i) => i < |s.workers| && s.workers[i].Busy?
    case WorkerStirs(i) => i < |s.workers| && s.workers[i].Waiting?
    case Stop => s.mutex.Nobody?
  }

  /** run, from having the mutex until it waits or returns. */
  function Push(s: Pool, i: nat, wake: nat): Pool
    requires Enabled(s, CallerPushes(i, wake))
  {
    var task := s.callers[i].task;
    if IsFull(s) then
      s.(callers := s.callers[i := Blocked(task)], mutex := Nobody)
    else
      s.(tasks := s.tasks + [task], submitted := s.submitted + [task], workers := WakeOne(s.workers, wake),
         callers := s.callers[i := Returned(task)], mutex := Nobody)
  }

  /** take, from having the mutex until it waits or returns. */
  function Take(s: Pool, i: nat, wake: nat): Pool
    requires Enabled(s, WorkerTakes(i, wake))
  {
    if s.tasks == [] && s.running then
      s.(workers := s.workers[i := Waiting], mutex := Nobody)
    else if s.tasks == [] then
      s.(workers := s.workers[i := Busy([])], mutex := Nobody)
    else
      s.(tasks := s.tasks[1..], taken := s.taken + [s.tasks[0]], callers := RouseOne(s.callers, wake),
         workers := s.workers[i := Busy([s.tasks[0]])], mutex := Nobody)
  }

  function Apply(s: Pool, step: Step): Pool
    requires Enabled(s, step)
  {
    match step
    case Call(task) => s.(callers := s.callers + [Arriving(task)])
    case CallerLocks(i) => s.(callers := s.callers[i := Holds(s.callers[i].task)], mutex := ACaller(i))
    case CallerPushes(i, wake) => Push(s, i, wake)
    case CallerStirs(i) => s.(callers := s.callers[i := Roused(s.callers[i].task)])
    case WorkerChecks(i) => s.(workers := s.workers[i := if s.running then Entering else Exited])
    case WorkerLocks(i) => s.(workers := s.workers[i := Holding], mutex := AWorker(i))
    case WorkerTakes(i, wake) => Take(s, i, wake)
    case WorkerFinishes(i) => s.(finished := s.finished + s.workers[i].tasks, workers := s.workers[i := Checking])
    case WorkerStirs(i) => s.(workers := s.workers[i := Woken])
    case Stop => s.(running := false, workers := WakeAll(s.workers))
  }

  /** The pool as start leaves it. */
  function Started(threadNum: nat): Pool {
    Pool(threadNum, true, [], Nobody, seq(threadNum, _ => Checking), [], [], [], [])
  }

  predicate Legal(s: Pool, steps: seq<Step>)
    decreases |steps|
  {
    steps == [] || (Enabled(s, steps[0]) && Legal(Apply(s, steps[0]), steps[1..]))
  }

  function After(s: Pool, steps: seq<Step>): Pool
    requires Legal(s, steps)
    decreases |steps|
  {
    if steps == [] then s else After(Apply(s, steps[0]), steps[1..])
  }

  // ---------------------------------------------------------------- sums over threads

  function Sum<T>(s: seq<T>, f: T -> nat): nat {
    if s == [] then 0 else f(s[0]) + Sum(s[1..], f)
  }

  lemma {:induction false} SumUpdate<T>(s: seq<T>, i: nat, x: T, f: T -> nat)
    requires i < |s|
    ensures Sum(s[i := x], f) + f(s[i]) == Sum(s, f) + f(x)
  {
    if i > 0 {
      assert s[i := x][1..] == s[1..][i - 1 := x];
      SumUpdate(s[1..], i - 1, x, f);
    }
  }

  lemma {:induction false} SumAppend<T>(s: seq<T>, x: T, f: T -> nat)
    ensures Sum(s + [x], f) == Sum(s, f) + f(x)
  {
    if s == [] {
      assert s + [x] == [x];
    } else {
      assert (s + [x])[1..] == s[1..] + [x];
      SumAppend(s[1..], x, f);
    }
  }

  lemma {:induction false} SumZero<T>(s: seq<T>, f: T -> nat)
    requires forall i :: 0 <= i < |s| ==> f(s[i]) == 0
    ensures Sum(s, f) == 0
  {
    if s != [] {
      assert forall i :: 0 <= i < |s[1..]| ==> s[1..][i] == s[i + 1];
      SumZero(s[1..], f);
    }
  }

  function Bag<T>(s: seq<T>, f: T -> multiset<Task>): multiset<Task> {
    if s == [] then multiset{} else f(s[0]) + Bag(s[1..], f)
  }

  lemma {:induction false} BagUpdate<T>(s: seq<T>, i: nat, x: T, f: T -> multiset<Task>)
    requires i < |s|
    ensures Bag(s[i := x], f) + f(s[i]) == Bag(s, f) + f(x)
  {
    if i == 0 {
      assert s[i := x][1..] == s[1..];
    } else {
      assert s[i := x][1..] == s[1..][i - 1 := x];
      BagUpdate(s[1..], i - 1, x, f);
      assert Bag(s[i := x], f) + f(s[i]) == f(s[0]) + (Bag(s[1..][i - 1 := x], f) + f(s[1..][i - 1]));
    }
  }

  lemma {:induction false} BagAppend<T>(s: seq<T>, x: T, f: T -> multiset<Task>)
    ensures Bag(s + [x], f) == Bag(s, f) + f(x)
  {
    if s == [] {
      assert s + [x] == [x];
    } else {
      assert (s + [x])[1..] == s[1..] + [x];
      BagAppend(s[1..], x, f);
    }
  }

  lemma {:induction false} BagSame<T>(s: seq<T>, t: seq<T>, f: T -> multiset<Task>)
    requires |s| == |t| && forall i :: 0 <= i < |s| ==> f(s[i]) == f(t[i])
    ensures Bag(s, f) == Bag(t, f)
  {
    if s != [] {
      assert forall i :: 0 <= i < |s[1..]| ==> s[1..][i] == s[i + 1] && t[1..][i] == t[i + 1];
      BagSame(s[1..], t[1..], f);
    }
  }

  // ---------------------------------------------------------------- the invariant

  /** One for a worker that is on its way to the queue after a wakeup, or at it. */
  function Alert(w: Worker): nat {
    if w.Woken? || w.Holding? then 1 else 0
  }

  function AlertCaller(c: Caller): nat {
    if c.Roused? || c.Holds? then 1 else 0
  }

  /** The task a caller has handed over. */
  function HandedOver(c: Caller): multiset<Task> {
    if c.Returned? then multiset{c.task} else multiset{}
  }

  function Running(w: Worker): multiset<Task> {
    if w.Busy? then multiset(w.tasks) else multiset{}
  }

  /** The mutex is held by the thread that is past its lock, and by no other. */
  predicate Exclusion(s: Pool) {
    && (forall i :: 0 <= i < |s.workers| ==> (s.workers[i].Holding? <==> s.mutex == AWorker(i)))
    && (forall i :: 0 <= i < |s.callers| ==> (s.callers[i].Holds? <==> s.mutex == ACaller(i)))
    && (s.mutex.AWorker? ==> s.mutex.index < |s.workers|)
    && (s.mutex.ACaller? ==> s.mutex.index < |s.callers|)
  }

  /** No wakeup is lost: when a thread waits unsignalled, those on their way suffice for what there is to do. */
  predicate NoLostWakeup(s: Pool) {
    && (SomeWaiting(s.workers) ==> |s.tasks| <= Sum(s.workers, Alert))
    && (SomeBlocked(s.callers) ==> s.threadNum - |s.tasks| <= Sum(s.callers, AlertCaller))
  }

  /** The queue is a bounded FIFO, and every task handed over is in one place. */
  predicate Queue(s: Pool) {
    && s.submitted == s.taken + s.tasks
    && |s.tasks| <= s.threadNum
    && multiset(s.submitted) == Bag(s.callers, HandedOver)
    && multiset(s.taken) == Bag(s.workers, Running) + multiset(s.finished)
  }

  predicate Inv(s: Pool) {
    && |s.workers| == s.threadNum
    && Exclusion(s) && NoLostWakeup(s) && Queue(s)
    && (!s.running ==> !SomeWaiting(s.workers))
    && (forall i :: 0 <= i < |s.workers| && s.workers[i].Exited? ==> !s.running)
  }

  lemma StartedInv(threadNum: nat)
    ensures Inv(Started(threadNum))
  {
    NoneRunning(Started(threadNum).workers);
  }

  lemma {:induction false} NoneRunning(ws: seq<Worker>)
    requires forall i :: 0 <= i < |ws| ==> ws[i].Checking?
    ensures Bag(ws, Running) == multiset{}
  {
    if ws != [] {
      assert forall i :: 0 <= i < |ws[1..]| ==> ws[1..][i] == ws[i + 1];
      NoneRunning(ws[1..]);
    }
  }

  lemma Cancel(a: multiset<Task>, b: multiset<Task>)
    requires a + multiset{} == b + multiset{}
    ensures a == b
  {
    assert a == a + multiset{} && b == b + multiset{};
  }

  /** One worker moves on, to a place outside the mutex or, when the mutex is free, into it. */
  lemma WorkerMoves(ws: seq<Worker>, i: nat, w: Worker)
    requires i < |ws|
    ensures Sum(ws[i := w], Alert) + Alert(ws[i]) == Sum(ws, Alert) + Alert(w)
    ensures Bag(ws[i := w], Running) + Running(ws[i]) == Bag(ws, Running) + Running(w)
    ensures SomeWaiting(ws[i := w]) && !w.Waiting? ==> SomeWaiting(ws)
    ensures w.Waiting? ==> SomeWaiting(ws[i := w])
  {
    SumUpdate(ws, i, w, Alert);
    BagUpdate(ws, i, w, Running);
    var vs := ws[i := w];
    if SomeWaiting(vs) && !w.Waiting? {
      var j :| 0 <= j < |vs| && vs[j].Waiting?;
      assert ws[j].Waiting?;
    }
    assert vs[i] == w;
  }

  lemma CallerMoves(cs: seq<Caller>, i: nat, c: Caller)
    requires i < |cs|
    ensures Sum(cs[i := c], AlertCaller) + AlertCaller(cs[i]) == Sum(cs, AlertCaller) + AlertCaller(c)
    ensures Bag(cs[i := c], HandedOver) + HandedOver(cs[i]) == Bag(cs, HandedOver) + HandedOver(c)
    ensures SomeBlocked(cs[i := c]) && !c.Blocked? ==> SomeBlocked(cs)
    ensures c.Blocked? ==> SomeBlocked(cs[i := c])
  {
    SumUpdate(cs, i, c, AlertCaller);
    BagUpdate(cs, i, c, HandedOver);
    var ds := cs[i := c];
    if SomeBlocked(ds) && !c.Blocked? {
      var j :| 0 <= j < |ds| && ds[j].Blocked?;
      assert cs[j].Blocked?;
    }
    assert ds[i] == c;
  }

  /** A wakeup puts one more worker on its way, if one waits. */
  lemma WorkerWoken(ws: seq<Worker>, wake: nat)
    requires MayWakeWorker(ws, wake)
    ensures var vs := WakeOne(ws, wake);
            && Sum(vs, Alert) == Sum(ws, Alert) + (if SomeWaiting(ws) then 1 else 0)
            && Bag(vs, Running) == Bag(ws, Running)
            && (SomeWaiting(vs) ==> SomeWaiting(ws))
            && forall i :: 0 <= i < |ws| ==> vs[i] == ws[i] || (ws[i].Waiting? && vs[i].Woken?)
  {
    hide Sum, Bag;
    if SomeWaiting(ws) {
      WorkerMoves(ws, wake, Woken);
      Cancel(Bag(WakeOne(ws, wake), Running), Bag(ws, Running));
    }
  }

  lemma CallerRoused(cs: seq<Caller>, wake: nat)
    requires MayRouseCaller(cs, wake)
    ensures var ds := RouseOne(cs, wake);
            && Sum(ds, AlertCaller) == Sum(cs, AlertCaller) + (if SomeBlocked(cs) then 1 else 0)
            && Bag(ds, HandedOver) == Bag(cs, HandedOver)
            && (SomeBlocked(ds) ==> SomeBlocked(cs))
            && forall i :: 0 <= i < |cs| ==> ds[i] == cs[i] || (cs[i].Blocked? && ds[i] == Roused(cs[i].task))
  {
    hide Sum, Bag;
    if SomeBlocked(cs) {
      CallerMoves(cs, wake, Roused(cs[wake].task));
      Cancel(Bag(RouseOne(cs, wake), HandedOver), Bag(cs, HandedOver));
    }
  }

  lemma PushQueue(s: Pool, i: nat, wake: nat)
    requires Inv(s) && Enabled(s, CallerPushes(i, wake))
    ensures Queue(Push(s, i, wake))
  {
    hide Sum, Bag, WakeOne, SomeWaiting, SomeBlocked, MayWakeWorker, Exclusion, NoLostWakeup;
    var task := s.callers[i].task;
    if IsFull(s) {
      CallerMoves(s.callers, i, Blocked(task));
      Cancel(Bag(s.callers[i := Blocked(task)], HandedOver), Bag(s.callers, HandedOver));
    } else {
      CallerMoves(s.callers, i, Returned(task));
      WorkerWoken(s.workers, wake);
      assert multiset(s.submitted + [task]) == multiset(s.submitted) + multiset{task};
      Cancel(Bag(s.callers[i := Returned(task)], HandedOver), multiset(s.submitted + [task]));
      assert s.submitted + [task] == s.taken + (s.tasks + [task]);
    }
  }

  lemma PushKeeps(s: Pool, i: nat, wake: nat)
    requires Inv(s) && Enabled(s, CallerPushes(i, wake))
    ensures Inv(Push(s, i, wake))
  {
    hide Sum, Bag, WakeOne, SomeWaiting, SomeBlocked, MayWakeWorker, Queue;
    PushQueue(s, i, wake);
    var task := s.callers[i].task;
    if IsFull(s) {
      CallerMoves(s.callers, i, Blocked(task));
    } else {
      CallerMoves(s.callers, i, Returned(task));
      WorkerWoken(s.workers, wake);
    }
  }

  lemma TakeKeeps(s: Pool, i: nat, wake: nat)
    requires Inv(s) && Enabled(s, WorkerTakes(i, wake))
    ensures Inv(Take(s, i, wake))
  {
    hide Sum, Bag, RouseOne, SomeWaiting, SomeBlocked, MayRouseCaller;
    if s.tasks == [] && s.running {
      WorkerMoves(s.workers, i, Waiting);
      Cancel(Bag(s.workers[i := Waiting], Running), Bag(s.workers, Running));
    } else if s.tasks == [] {
      WorkerMoves(s.workers, i, Busy([]));
      Cancel(Bag(s.workers[i := Busy([])], Running), Bag(s.workers, Running));
    } else {
      WorkerMoves(s.workers, i, Busy([s.tasks[0]]));
      CallerRoused(s.callers, wake);
      Cancel(Bag(s.workers[i := Busy([s.tasks[0]])], Running), Bag(s.workers, Running) + multiset{s.tasks[0]});
      assert multiset(s.taken + [s.tasks[0]]) == multiset(s.taken) + multiset{s.tasks[0]};
      assert s.taken + [s.tasks[0]] + s.tasks[1..] == s.taken + s.tasks;
    }
  }

  /** A task moves from running to finished. */
  lemma FinishBag(s: Pool, i: nat)
    requires i < |s.workers| && s.workers[i].Busy?
    requires multiset(s.taken) == Bag(s.workers, Running) + multiset(s.finished)
    ensures multiset(s.taken) == Bag(s.workers[i := Checking], Running) + multiset(s.finished + s.workers[i].tasks)
  {
    hide Bag;
    var tasks := s.workers[i].tasks;
    WorkerMoves(s.workers, i, Checking);
    assert Bag(s.workers, Running) + multiset{} == Bag(s.workers, Running);
    assert multiset(s.finished + tasks) == multiset(tasks) + multiset(s.finished);
  }

  lemma WorkerStepKeeps(s: Pool, step: Step)
    requires Inv(s) && Enabled(s, step) &&
             (step.WorkerChecks? || step.WorkerLocks? || step.WorkerFinishes? || step.WorkerStirs?)
    ensures Inv(Apply(s, step))
  {
    hide Sum, Bag, SomeWaiting, SomeBlocked;
    var i := step.worker;
    var was, now := s.workers[i], Apply(s, step).workers[i];
    WorkerMoves(s.workers, i, now);
    if step.WorkerFinishes? {
      FinishBag(s, i);
    } else {
      Cancel(Bag(s.workers[i := now], Running), Bag(s.workers, Running));
    }
  }

  lemma CallerStepKeeps(s: Pool, step: Step)
    requires Inv(s) && Enabled(s, step) && (step.CallerLocks? || step.CallerStirs? || step.Call?)
    ensures Inv(Apply(s, step))
  {
    hide Sum, Bag, SomeWaiting, SomeBlocked;
    if step.Call? {
      CallerArrives(s.callers, step.task);
    } else {
      var i := step.caller;
      var now := Apply(s, step).callers[i];
      CallerMoves(s.callers, i, now);
      Cancel(Bag(s.callers[i := now], HandedOver), Bag(s.callers, HandedOver));
    }
  }

  lemma CallerArrives(cs: seq<Caller>, task: Task)
    ensures Sum(cs + [Arriving(task)], AlertCaller) == Sum(cs, AlertCaller)
    ensures Bag(cs + [Arriving(task)], HandedOver) == Bag(cs, HandedOver)
    ensures SomeBlocked(cs + [Arriving(task)]) ==> SomeBlocked(cs)
  {
    SumAppend(cs, Arriving(task), AlertCaller);
    BagAppend(cs, Arriving(task), HandedOver);
    assert Bag(cs, HandedOver) + multiset{} == Bag(cs, HandedOver);
  }

  lemma StopKeeps(s: Pool)
    requires Inv(s) && Enabled(s, Stop)
    ensures Inv(Apply(s, Stop)) && !SomeWaiting(Apply(s, Stop).workers)
  {
    BagSame(s.workers, WakeAll(s.workers), Running);
  }

  /** Every step of every thread keeps the invariant. */
  lemma StepKeeps(s: Pool, step: Step)
    requires Inv(s) && Enabled(s, step)
    ensures Inv(Apply(s, step))
  {
    hide Inv;
    match step
    case CallerPushes(i, wake) => PushKeeps(s, i, wake);
    case WorkerTakes(i, wake) => TakeKeeps(s, i, wake);
    case Stop => StopKeeps(s);
    case Call(_) => CallerStepKeeps(s, step);
    case CallerLocks(_) => CallerStepKeeps(s, step);
    case CallerStirs(_) => CallerStepKeeps(s, step);
    case WorkerChecks(_) => WorkerStepKeeps(s, step);
    case WorkerLocks(_) => WorkerStepKeeps(s, step);
    case WorkerFinishes(_) => WorkerStepKeeps(s, step);
    case WorkerStirs(_) => WorkerStepKeeps(s, step);
  }

  /** What has been pushed, popped and finished stays so, in its order. */
  predicate Grows(s: Pool, t: Pool) {
    s.submitted <= t.submitted && s.taken <= t.taken && s.finished <= t.finished
  }

  lemma StepGrows(s: Pool, step: Step)
    requires Enabled(s, step)
    ensures Grows(s, Apply(s, step))
  {
  }

  /**
   * Over every run: the queue is a bounded FIFO of what was handed over, no task is lost or duplicated, the mutex
   * excludes, and no wakeup is lost on either condition.
   */
  lemma {:induction false} RunKeeps(s: Pool, steps: seq<Step>)
    requires Inv(s) && Legal(s, steps)
    ensures Inv(After(s, steps)) && Grows(s, After(s, steps))
    decreases |steps|
  {
    hide Inv;
    if steps != [] {
      StepKeeps(s, steps[0]);
      StepGrows(s, steps[0]);
      RunKeeps(Apply(s, steps[0]), steps[1..]);
    }
  }

  // ---------------------------------------------------------------- progress

  /**
   * The steps the threads of the pool make of themselves: no new call, no stop, and no wait that returns unsignalled.
   */
  predicate Own(step: Step) {
    !step.Call? && !step.CallerStirs? && !step.WorkerStirs? && !step.Stop?
  }

  /** No thread can make a step of its own. */
  ghost predicate Stuck(s: Pool) {
    forall step :: Own(step) ==> !Enabled(s, step)
  }

  predicate AllServed(s: Pool) {
    && s.tasks == []
    && (forall i :: 0 <= i < |s.callers| ==> s.callers[i].Returned?)
    && multiset(s.finished) == multiset(s.submitted)
  }

  predicate AllExited(s: Pool) {
    forall i :: 0 <= i < |s.workers| ==> s.workers[i].Exited?
  }

  lemma StuckWorker(s: Pool, i: nat)
    requires Inv(s) && Stuck(s) && i < |s.workers|
    ensures s.workers[i].Waiting? || s.workers[i].Exited?
  {
    hide NoLostWakeup, Queue;
    MutexFree(s);
    assert !Enabled(s, WorkerChecks(i)) && !Enabled(s, WorkerLocks(i)) && !Enabled(s, WorkerFinishes(i));
  }

  lemma StuckCaller(s: Pool, i: nat)
    requires Inv(s) && Stuck(s) && i < |s.callers|
    ensures s.callers[i].Blocked? || s.callers[i].Returned?
  {
    hide NoLostWakeup, Queue;
    MutexFree(s);
    assert !Enabled(s, CallerLocks(i));
  }

  /** Whoever has the mutex can go on. */
  lemma MutexFree(s: Pool)
    requires Inv(s) && Stuck(s)
    ensures s.mutex.Nobody?
  {
    hide NoLostWakeup, Queue;
    var i := if s.mutex.Nobody? then 0 else s.mutex.index;
    var caller := if SomeBlocked(s.callers) then (var j :| 0 <= j < |s.callers| && s.callers[j].Blocked?; j) else 0;
    var worker := if SomeWaiting(s.workers) then (var j :| 0 <= j < |s.workers| && s.workers[j].Waiting?; j) else 0;
    assert !Enabled(s, WorkerTakes(i, caller)) && !Enabled(s, CallerPushes(i, worker));
  }

  /**
   * No deadlock: in a running pool with at least one worker, the threads come to a halt only when every call of run
   * has returned and every task handed over is finished.
   */
  lemma NoDeadlock(s: Pool)
    requires Inv(s) && s.running && s.threadNum >= 1 && Stuck(s)
    ensures AllServed(s)
  {
    hide Sum, Stuck;
    forall i | 0 <= i < |s.workers| ensures s.workers[i].Waiting? {
      StuckWorker(s, i);
    }
    forall i | 0 <= i < |s.callers| ensures s.callers[i].Blocked? || s.callers[i].Returned? {
      StuckCaller(s, i);
    }
    assert s.workers[0].Waiting?;
    SumZero(s.workers, Alert);
    SumZero(s.callers, AlertCaller);
    assert !SomeBlocked(s.callers);
    assert forall i :: 0 <= i < |s.callers| ==> s.callers[i].Returned?;
    assert s.submitted == s.taken;
    NoneBusy(s.workers);
    assert multiset(s.taken) == multiset(s.finished);
  }

  lemma {:induction false} NoneBusy(ws: seq<Worker>)
    requires forall i :: 0 <= i < |ws| ==> ws[i].Waiting?
    ensures Bag(ws, Running) == multiset{}
  {
    if ws != [] {
      assert forall i :: 0 <= i < |ws[1..]| ==> ws[1..][i] == ws[i + 1];
      NoneBusy(ws[1..]);
    }
  }

  /** Once stopped, the threads come to a halt only when every worker has left its loop, so stop joins them all. */
  lemma StopJoins(s: Pool)
    requires Inv(s) && !s.running && Stuck(s)
    ensures AllExited(s)
  {
    hide Sum, Stuck;
    forall i | 0 <= i < |s.workers| ensures s.workers[i].Exited? {
      StuckWorker(s, i);
    }
  }

  /** How far a worker is from its next rest, in a running pool and in a stopped one. */
  function WorkerRank(w: Worker): nat {
    match w
    case Waiting => 0
    case Holding => 1
    case Woken | Entering => 2
    case Checking => 3
    case Busy(_) => 4
    case Exited => 0
  }

  function LeavingRank(w: Worker): nat {
    match w
    case Exited => 0
    case Checking => 1
    case Busy(_) => 2
    case Holding => 3
    case Woken | Entering => 4
    case Waiting => 5
  }

  function CallerRank(c: Caller): nat {
    match c
    case Returned(_) => 0
    case Blocked(_) => 8
    case Holds(_) => 9
    case Roused(_) | Arriving(_) => 10
  }

  /** A bound on the steps the threads can still make of themselves. */
  function Fuel(s: Pool): nat {
    6 * |s.tasks| + Sum(s.callers, CallerRank) +
    (if s.running then Sum(s.workers, WorkerRank) else Sum(s.workers, LeavingRank))
  }

  lemma RankMoves(ws: seq<Worker>, i: nat, w: Worker)
    requires i < |ws|
    ensures Sum(ws[i := w], WorkerRank) + WorkerRank(ws[i]) == Sum(ws, WorkerRank) + WorkerRank(w)
    ensures Sum(ws[i := w], LeavingRank) + LeavingRank(ws[i]) == Sum(ws, LeavingRank) + LeavingRank(w)
  {
    SumUpdate(ws, i, w, WorkerRank);
    SumUpdate(ws, i, w, LeavingRank);
  }

  lemma RankWoken(ws: seq<Worker>, wake: nat)
    requires MayWakeWorker(ws, wake)
    ensures Sum(WakeOne(ws, wake), WorkerRank) <= Sum(ws, WorkerRank) + 2
    ensures Sum(WakeOne(ws, wake), LeavingRank) <= Sum(ws, LeavingRank)
  {
    if SomeWaiting(ws) {
      RankMoves(ws, wake, Woken);
    }
  }

  lemma RankRoused(cs: seq<Caller>, wake: nat)
    requires MayRouseCaller(cs, wake)
    ensures Sum(RouseOne(cs, wake), CallerRank) <= Sum(cs, CallerRank) + 2
  {
    if SomeBlocked(cs) {
      SumUpdate(cs, wake, Roused(cs[wake].task), CallerRank);
    }
  }

  lemma PushBurns(s: Pool, i: nat, wake: nat)
    requires Inv(s) && Enabled(s, CallerPushes(i, wake))
    ensures Fuel(Push(s, i, wake)) < Fuel(s)
  {
    hide Sum, Bag, WakeOne, SomeWaiting, MayWakeWorker, NoLostWakeup, Queue;
    var task := s.callers[i].task;
    SumUpdate(s.callers, i, if IsFull(s) then Blocked(task) else Returned(task), CallerRank);
    RankWoken(s.workers, wake);
  }

  lemma TakeBurns(s: Pool, i: nat, wake: nat)
    requires Inv(s) && Enabled(s, WorkerTakes(i, wake))
    ensures Fuel(Take(s, i, wake)) < Fuel(s)
  {
    hide Sum, Bag, RouseOne, SomeBlocked, MayRouseCaller, NoLostWakeup, Queue;
    RankMoves(s.workers, i, Take(s, i, wake).workers[i]);
    RankRoused(s.callers, wake);
  }

  lemma WorkerBurns(s: Pool, step: Step)
    requires Enabled(s, step) && (step.WorkerChecks? || step.WorkerLocks? || step.WorkerFinishes?)
    ensures Fuel(Apply(s, step)) < Fuel(s)
  {
    hide Sum;
    RankMoves(s.workers, step.worker, Apply(s, step).workers[step.worker]);
  }

  /** Every step of a thread's own uses up fuel. */
  lemma StepBurns(s: Pool, step: Step)
    requires Inv(s) && Enabled(s, step) && Own(step)
    ensures Fuel(Apply(s, step)) < Fuel(s)
  {
    hide Inv, Fuel;
    match step
    case CallerPushes(i, wake) => PushBurns(s, i, wake);
    case WorkerTakes(i, wake) => TakeBurns(s, i, wake);
    case CallerLocks(i) => CallerBurns(s, i);
    case _ => WorkerBurns(s, step);
  }

  lemma CallerBurns(s: Pool, i: nat)
    requires Enabled(s, CallerLocks(i))
    ensures Fuel(Apply(s, CallerLocks(i))) < Fuel(s)
  {
    SumUpdate(s.callers, i, Holds(s.callers[i].task), CallerRank);
  }

  /**
   * Left to themselves, the threads of a pool come to rest after finitely many steps, in whatever order they take them:
   * with every task finished and every call returned while the pool runs, with every worker out of its loop once it is
   * stopped.
   */
  lemma {:induction false} ComesToRest(s: Pool, steps: seq<Step>)
    requires Inv(s) && Legal(s, steps) && forall i :: 0 <= i < |steps| ==> Own(steps[i])
    ensures |steps| + Fuel(After(s, steps)) <= Fuel(s)
    ensures After(s, steps).running == s.running && After(s, steps).threadNum == s.threadNum
    ensures Stuck(After(s, steps)) && s.running && s.threadNum >= 1 ==> AllServed(After(s, steps))
    ensures Stuck(After(s, steps)) && !s.running ==> AllExited(After(s, steps))
    decreases |steps|
  {
    hide Inv, Fuel, Stuck, AllServed, AllExited;
    if steps == [] {
      if Stuck(s) && s.running && s.threadNum >= 1 {
        NoDeadlock(s);
      }
      if Stuck(s) && !s.running {
        StopJoins(s);
      }
    } else {
      StepKeeps(s, steps[0]);
      StepBurns(s, steps[0]);
      assert Own(steps[0]);
      ComesToRest(Apply(s, steps[0]), steps[1..]);
    }
  }

  /** A running pool is free of deadlock, whatever the run, if and only if it was started with at least one worker. */
  lemma DeadlockFreeIff(threadNum: nat)
    ensures threadNum >= 1 <==>
            forall steps: seq<Step> :: Legal(Started(threadNum), steps) ==>
                                         var s := After(Started(threadNum), steps); s.running && Stuck(s) ==>
                                             AllServed(s)
  {
    hide Inv, Stuck, AllServed;
    if threadNum >= 1 {
      forall steps: seq<Step> | Legal(Started(threadNum), steps)
        ensures var s := After(Started(threadNum), steps); s.running && Stuck(s) ==> AllServed(s)
      {
        StartedInv(threadNum);
        RunKeeps(Started(threadNum), steps);
        ThreadsKept(Started(threadNum), steps);
        var s := After(Started(threadNum), steps);
        if s.running && Stuck(s) {
          NoDeadlock(s);
        }
      }
    } else {
      FirstCallBlocks();
    }
  }

  lemma {:induction false} ThreadsKept(s: Pool, steps: seq<Step>)
    requires Legal(s, steps)
    ensures After(s, steps).threadNum == s.threadNum
    decreases |steps|
  {
    if steps != [] {
      ThreadsKept(Apply(s, steps[0]), steps[1..]);
    }
  }

  predicate NobodyReturns(s: Pool) {
    s.threadNum == 0 && s.workers == [] && forall i :: 0 <= i < |s.callers| ==> !s.callers[i].Returned?
  }

  /** Without workers no call of run ever returns, whatever the threads do, and not even when the pool is stopped. */
  lemma {:induction false} NoWorkers(s: Pool, steps: seq<Step>)
    requires NobodyReturns(s) && Legal(s, steps)
    ensures NobodyReturns(After(s, steps))
    decreases |steps|
  {
    if steps != [] {
      NoWorkers(Apply(s, steps[0]), steps[1..]);
    }
  }

  /** Such a pool comes to a halt at the first call. */
  lemma FirstCallBlocks()
    ensures var steps := [Call(7), CallerLocks(0), CallerPushes(0, 0)];
            Legal(Started(0), steps) && var s := After(Started(0), steps); s.running && Stuck(s) && !AllServed(s)
  {
    var s1 := Apply(Started(0), Call(7));
    var s2 := Apply(s1, CallerLocks(0));
    assert !SomeWaiting(s2.workers);
    var s3 := Apply(s2, CallerPushes(0, 0));
    assert s3.callers[0] == Blocked(7);
    assert After(s2, [CallerPushes(0, 0)]) == s3;
    assert [CallerLocks(0), CallerPushes(0, 0)][1..] == [CallerPushes(0, 0)];
    assert [Call(7), CallerLocks(0), CallerPushes(0, 0)][1..] == [CallerLocks(0), CallerPushes(0, 0)];
  }

  // ---------------------------------------------------------------- after stop

  function StepsOf(steps: seq<Step>, i: nat): nat {
    if steps == [] then 0 else (if OfWorker(steps[0], i) then 1 else 0) + StepsOf(steps[1..], i)
  }

  predicate OfWorker(step: Step, i: nat) {
    match step
    case WorkerChecks(j) => i == j
    case WorkerLocks(j) => i == j
    case WorkerTakes(j, _) => i == j
    case WorkerFinishes(j) => i == j
    case _ => false
  }

  lemma LeavingStep(s: Pool, step: Step, i: nat)
    requires Inv(s) && !s.running && i < |s.workers| && Enabled(s, step)
    ensures var t := Apply(s, step);
            !t.running && i < |t.workers| &&
            LeavingRank(t.workers[i]) + (if OfWorker(step, i) then 1 else 0) <= LeavingRank(s.workers[i])
  {
    hide NoLostWakeup, Queue;
    if step.CallerPushes? {
      WorkerWoken(s.workers, step.wake);
    }
  }

  /**
   * After stop, whatever the other threads do and however many calls still come, no worker is left waiting on notEmpty_
   * and each makes at most four more steps of its own before it has left its loop.
   */
  lemma {:induction false} StopLeaves(s: Pool, steps: seq<Step>, i: nat)
    requires Inv(s) && !s.running && i < |s.workers| && Legal(s, steps)
    ensures var t := After(s, steps);
            i < |t.workers| && !SomeWaiting(t.workers) && StepsOf(steps, i) + LeavingRank(t.workers[i]) <= 4
    decreases |steps|
  {
    hide Inv;
    LeavingRun(s, steps, i);
    RunKeeps(s, steps);
    NoneWaits(s, i);
    StillStopped(s, steps);
    NoneWaits(After(s, steps), i);
  }

  lemma NoneWaits(s: Pool, i: nat)
    requires Inv(s) && !s.running && i < |s.workers|
    ensures !SomeWaiting(s.workers) && LeavingRank(s.workers[i]) <= 4
  {
    hide NoLostWakeup, Queue;
  }

  lemma {:induction false} StillStopped(s: Pool, steps: seq<Step>)
    requires !s.running && Legal(s, steps)
    ensures !After(s, steps).running
    decreases |steps|
  {
    if steps != [] {
      StillStopped(Apply(s, steps[0]), steps[1..]);
    }
  }

  lemma {:induction false} LeavingRun(s: Pool, steps: seq<Step>, i: nat)
    requires Inv(s) && !s.running && i < |s.workers| && Legal(s, steps)
    ensures var t := After(s, steps);
            i < |t.workers| && StepsOf(steps, i) + LeavingRank(t.workers[i]) <= LeavingRank(s.workers[i])
    decreases |steps|
  {
    hide Inv;
    if steps != [] {
      StepKeeps(s, steps[0]);
      LeavingStep(s, steps[0], i);
      LeavingRun(Apply(s, steps[0]), steps[1..], i);
    }
  }

  // ---------------------------------------------------------------- the pool as it runs

  /** The pool, whose shared fields the threads change between locking and unlocking the mutex. */
  class ThreadPool {
    const threadNum: nat
    var running: bool
    var tasks: seq<Task>
    var mutex: Owner
    var workers: seq<Worker>
    var callers: seq<Caller>
    ghost var submitted: seq<Task>
    ghost var taken: seq<Task>
    ghost var finished: seq<Task>

    ghost function View(): Pool
      reads this
    {
      Pool(threadNum, running, tasks, mutex, workers, callers, submitted, taken, finished)
    }

    /** start */
    constructor (threadNum: nat)
      ensures View() == Started(threadNum) && Inv(View())
    {
      this.threadNum := threadNum;
      running, tasks, mutex := true, [], Nobody;
      workers, callers := seq(threadNum, _ => Checking), [];
      submitted, taken, finished := [], [], [];
      StartedInv(threadNum);
    }

    /** notEmpty_.notify() */
    method NotifyNotEmpty(wake: nat)
      requires MayWakeWorker(workers, wake)
      modifies `workers
      ensures workers == WakeOne(old(workers), wake)
    {
      if SomeWaiting(workers) {
        workers := workers[wake := Woken];
      }
    }

    /** notFull_.notify() */
    method NotifyNotFull(wake: nat)
      requires MayRouseCaller(callers, wake)
      modifies `callers
      ensures callers == RouseOne(old(callers), wake)
    {
      if SomeBlocked(callers) {
        callers := callers[wake := Roused(callers[wake].task)];
      }
    }

    /** run, under the mutex: one pass of its wait loop, and the push when the queue is not full. */
    method Run(i: nat, wake: nat)
      requires Inv(View()) && Enabled(View(), CallerPushes(i, wake))
      modifies this
      ensures View() == Apply(old(View()), CallerPushes(i, wake)) && Inv(View())
      ensures old(|tasks|) == threadNum ==> callers[i].Blocked? && tasks == old(tasks)
      ensures old(|tasks|) < threadNum ==> callers[i].Returned? && tasks == old(tasks) + [old(callers[i].task)]
    {
      hide Inv;
      StepKeeps(View(), CallerPushes(i, wake));
      Bounded(View());
      var task := callers[i].task;
      if |tasks| >= threadNum {
        callers := callers[i := Blocked(task)];
      } else {
        tasks := tasks + [task];
        submitted := submitted + [task];
        NotifyNotEmpty(wake);
        callers := callers[i := Returned(task)];
      }
      mutex := Nobody;
    }

    /** take, under the mutex: one pass of its wait loop, and the pop when the queue is not empty. */
    method Take(i: nat, wake: nat)
      requires Inv(View()) && Enabled(View(), WorkerTakes(i, wake))
      modifies this
      ensures View() == Apply(old(View()), WorkerTakes(i, wake)) && Inv(View())
      ensures old(tasks) == [] ==> workers[i] == (if running then Waiting else Busy([])) && tasks == []
      ensures old(tasks) != [] ==> workers[i] == Busy([old(tasks)[0]]) && tasks == old(tasks)[1..]
    {
      hide Inv;
      StepKeeps(View(), WorkerTakes(i, wake));
      if tasks == [] && running {
        workers := workers[i := Waiting];
      } else {
        var task := [];
        if tasks != [] {
          task := [tasks[0]];
          tasks := tasks[1..];
          taken := taken + task;
          NotifyNotFull(wake);
        }
        workers := workers[i := Busy(task)];
      }
      mutex := Nobody;
    }

    /** stop, up to the joins. */
    method StopAll()
      requires Inv(View()) && Enabled(View(), Stop)
      modifies this
      ensures View() == Apply(old(View()), Stop) && Inv(View()) && !SomeWaiting(workers)
    {
      hide Inv;
      StopKeeps(View());
      running := false;
      workers := WakeAll(workers);
    }

    lemma Bounded(s: Pool)
      requires Inv(s)
      ensures |s.tasks| <= s.threadNum
    {
    }
  }
}
