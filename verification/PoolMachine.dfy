/** The thread pool (upf/src/thread_pool.h) as a machine whose steps are the atomic actions of its
    threads: one critical section under queue_mutex_, one notification, or one atomic increment.
    A step label fixes every choice the scheduler makes, so a run is a sequence of labels. */
module PoolMachine {
  import opened Sums

  /** Where a worker thread is in its loop. Checking: about to take the lock and test the wait
      predicate; Asleep: blocked inside wait; Running: task() is in progress;
      Finished: task() has returned, tasks_completed_ not yet incremented. */
  datatype Worker = Checking | Asleep | Running(task: nat) | Finished | Exited

  /** Where one call of enqueue is; a task is identified with the call that submits it. */
  datatype Client = Idle | Pushed | Notified | Submitted

  /** Where the destructor is: not begun, stop_ stored, notify_all done and joining. */
  datatype Teardown = Alive | Stopping | Joining

  /** `pushed`, `dequeued`, `executed` and `exitMark` are history: all tasks ever pushed, all ever
      popped, all that ran to completion, and how many had been pushed when a worker last exited. */
  datatype Pool = Pool(
    workers: seq<Worker>, tasks: seq<nat>, stop: bool, submitted: nat, completed: nat,
    clients: seq<Client>, teardown: Teardown,
    pushed: seq<nat>, dequeued: seq<nat>, executed: seq<nat>, exitMark: nat)

  datatype Step =
    | Check(w: nat)               // lock, test the predicate, then sleep, exit or pop
    | Wake(w: nat)                // spurious wakeup
    | Finish(w: nat)              // task() returns
    | CountDone(w: nat)           // tasks_completed_++
    | NewClient                   // some thread calls enqueue
    | Push(c: nat)                // lock, push
    | NotifyOne(c: nat, w: nat)   // notify_one; w is the sleeper it picks, if there is one
    | CountSubmitted(c: nat)      // tasks_submitted_++
    | SetStop                     // lock, stop_ = true
    | NotifyAll                   // notify_all

  function Init(n: nat): Pool {
    Pool(seq(n, _ => Checking), [], false, 0, 0, [], Alive, [], [], [], 0)
  }

  predicate AnyAsleep(ws: seq<Worker>) {
    exists w :: 0 <= w < |ws| && ws[w] == Asleep
  }

  predicate AllExited(ws: seq<Worker>) {
    forall w :: 0 <= w < |ws| ==> ws[w] == Exited
  }

  predicate Enabled(s: Pool, a: Step) {
    match a
    case Check(w) => w < |s.workers| && s.workers[w] == Checking
    case Wake(w) => w < |s.workers| && s.workers[w] == Asleep
    case Finish(w) => w < |s.workers| && s.workers[w].Running?
    case CountDone(w) => w < |s.workers| && s.workers[w] == Finished
    case NewClient => true
    case Push(c) => c < |s.clients| && s.clients[c] == Idle
    case NotifyOne(c, w) =>
      c < |s.clients| && s.clients[c] == Pushed &&
      (AnyAsleep(s.workers) ==> w < |s.workers| && s.workers[w] == Asleep)
    case CountSubmitted(c) => c < |s.clients| && s.clients[c] == Notified
    case SetStop => s.teardown == Alive
    case NotifyAll => s.teardown == Stopping
  }

  function WakeAll(ws: seq<Worker>): (r: seq<Worker>)
    ensures |r| == |ws|
    ensures forall w :: 0 <= w < |ws| ==> r[w] == if ws[w] == Asleep then Checking else ws[w]
  {
    seq(|ws|, w requires 0 <= w < |ws| => if ws[w] == Asleep then Checking else ws[w])
  }

  function Do(s: Pool, a: Step): Pool
    requires Enabled(s, a)
  {
    match a
    case Check(w) =>
      if !s.stop && s.tasks == [] then
        s.(workers := s.workers[w := Asleep])
      else if s.stop && s.tasks == [] then
        s.(workers := s.workers[w := Exited], exitMark := |s.pushed|)
      else
        s.(workers := s.workers[w := Running(s.tasks[0])],
           tasks := s.tasks[1..],
           dequeued := s.dequeued + [s.tasks[0]])
    case Wake(w) => s.(workers := s.workers[w := Checking])
    case Finish(w) =>
      s.(workers := s.workers[w := Finished], executed := s.executed + [s.workers[w].task])
    case CountDone(w) => s.(workers := s.workers[w := Checking], completed := s.completed + 1)
    case NewClient => s.(clients := s.clients + [Idle])
    case Push(c) =>
      s.(tasks := s.tasks + [c], clients := s.clients[c := Pushed], pushed := s.pushed + [c])
    case NotifyOne(c, w) =>
      s.(clients := s.clients[c := Notified],
         workers := if AnyAsleep(s.workers) then s.workers[w := Checking] else s.workers)
    case CountSubmitted(c) =>
      s.(clients := s.clients[c := Submitted], submitted := s.submitted + 1)
    case SetStop => s.(stop := true, teardown := Stopping)
    case NotifyAll => s.(workers := WakeAll(s.workers), teardown := Joining)
  }

  predicate CanRun(s: Pool, steps: seq<Step>)
    decreases |steps|
  {
    steps == [] || (Enabled(s, steps[0]) && CanRun(Do(s, steps[0]), steps[1..]))
  }

  function RunFrom(s: Pool, steps: seq<Step>): Pool
    requires CanRun(s, steps)
    decreases |steps|
  {
    if steps == [] then s else RunFrom(Do(s, steps[0]), steps[1..])
  }

  // ---- Phase weights -------------------------------------------------------------------------

  function IsChecking(w: Worker): nat { if w == Checking then 1 else 0 }
  function IsRunning(w: Worker): nat { if w.Running? then 1 else 0 }
  function IsFinished(w: Worker): nat { if w == Finished then 1 else 0 }
  function IsUnnotified(c: Client): nat { if c == Pushed then 1 else 0 }
  function IsUncounted(c: Client): nat { if c == Pushed || c == Notified then 1 else 0 }

  // ---- The invariant -------------------------------------------------------------------------

  /** FIFO: what was popped, followed by what is queued, is what was pushed; each call pushes once. */
  ghost predicate Fifo(s: Pool) {
    && s.pushed == s.dequeued + s.tasks
    && Distinct(s.pushed)
    && (forall c :: c in s.pushed ==> c < |s.clients|)
    && (forall c :: 0 <= c < |s.clients| ==> (c in s.pushed <==> s.clients[c] != Idle))
  }

  ghost predicate RunBy(s: Pool, t: nat) {
    exists w :: 0 <= w < |s.workers| && s.workers[w] == Running(t)
  }

  /** Every popped task is with exactly one worker or has run, and none runs twice. */
  ghost predicate Ownership(s: Pool) {
    && (forall v, w :: 0 <= v < w < |s.workers| && s.workers[v].Running? && s.workers[w].Running? ==>
          s.workers[v].task != s.workers[w].task)
    && (forall w :: 0 <= w < |s.workers| && s.workers[w].Running? ==>
          s.workers[w].task in s.dequeued && s.workers[w].task !in s.executed)
    && Distinct(s.executed)
    && (forall t :: t in s.executed ==> t in s.dequeued)
    && (forall t :: t in s.dequeued ==> t in s.executed || RunBy(s, t))
  }

  /** The two counters against the tasks in each stage. */
  ghost predicate Counters(s: Pool) {
    && |s.dequeued| == Sum(s.workers, IsRunning) + |s.executed|
    && |s.executed| == Sum(s.workers, IsFinished) + s.completed
    && |s.pushed| == s.submitted + Sum(s.clients, IsUncounted)
  }

  /** While some worker sleeps, every queued task has a worker about to look or a notify due. */
  ghost predicate Covered(s: Pool) {
    !s.stop && AnyAsleep(s.workers) ==>
      |s.tasks| <= Sum(s.workers, IsChecking) + Sum(s.clients, IsUnnotified)
  }

  ghost predicate TeardownOk(s: Pool) {
    && (s.stop <==> s.teardown != Alive)
    && (s.teardown == Joining ==> !AnyAsleep(s.workers))
    && (forall w :: 0 <= w < |s.workers| && s.workers[w] == Exited ==> s.stop)
    && s.exitMark <= |s.pushed|
    && (s.workers != [] && AllExited(s.workers) ==> s.exitMark == |s.dequeued|)
  }

  ghost predicate PoolInv(s: Pool) {
    Fifo(s) && Ownership(s) && Counters(s) && Covered(s) && TeardownOk(s)
  }

  // ---- Every step keeps it -------------------------------------------------------------------

  lemma FifoKept(s: Pool, a: Step)
    requires Fifo(s) && Enabled(s, a)
    ensures Fifo(Do(s, a))
  {
    var s' := Do(s, a);
    match a
    case Check(w) =>
      if s.tasks != [] {
        assert s.tasks == [s.tasks[0]] + s.tasks[1..];
        assert s'.pushed == s'.dequeued + s'.tasks;
      }
    case Push(c) =>
      assert c !in s.pushed;
      assert s'.pushed == s'.dequeued + s'.tasks;
    case _ =>
  }

  /** The task at the head of the queue has not been popped before. */
  lemma HeadIsNew(s: Pool)
    requires Fifo(s) && s.tasks != []
    ensures s.tasks[0] !in s.dequeued
  {
    assert s.pushed[|s.dequeued|] == s.tasks[0];
    forall i | 0 <= i < |s.dequeued|
      ensures s.dequeued[i] != s.tasks[0]
    {
      assert s.pushed[i] == s.dequeued[i];
    }
  }

  /** Popped tasks stay with their worker until they have run. */
  lemma StillOwned(s: Pool, a: Step, t: nat)
    requires Ownership(s) && Enabled(s, a) && t in Do(s, a).dequeued
    ensures t in Do(s, a).executed || RunBy(Do(s, a), t)
  {
    var s' := Do(s, a);
    if t in s.dequeued && t !in s.executed {
      var w :| 0 <= w < |s.workers| && s.workers[w] == Running(t);
      assert t in s'.executed || s'.workers[w] == Running(t);
    } else if t !in s.dequeued {
      assert s'.workers[a.w] == Running(t);
    }
  }

  lemma OwnershipKept(s: Pool, a: Step)
    requires Fifo(s) && Ownership(s) && Enabled(s, a)
    ensures Ownership(Do(s, a))
  {
    if a.Check? && s.tasks != [] {
      HeadIsNew(s);
    }
    forall t | t in Do(s, a).dequeued
      ensures t in Do(s, a).executed || RunBy(Do(s, a), t)
    {
      StillOwned(s, a, t);
    }
  }

  /** A step that moves worker w only. */
  lemma WorkerCounts(s: Pool, w: nat, x: Worker)
    requires w < |s.workers|
    ensures Sum(s.workers[w := x], IsRunning) + IsRunning(s.workers[w]) == Sum(s.workers, IsRunning) + IsRunning(x)
    ensures Sum(s.workers[w := x], IsFinished) + IsFinished(s.workers[w]) == Sum(s.workers, IsFinished) + IsFinished(x)
  {
    SumUpdate(s.workers, w, x, IsRunning);
    SumUpdate(s.workers, w, x, IsFinished);
  }

  lemma CountersKeptByWorker(s: Pool, a: Step)
    requires Counters(s) && Enabled(s, a) && (a.Check? || a.Wake? || a.Finish? || a.CountDone?)
    ensures Counters(Do(s, a))
  {
    WorkerCounts(s, a.w, Do(s, a).workers[a.w]);
  }

  lemma CountersKeptByClient(s: Pool, a: Step)
    requires Counters(s) && Enabled(s, a) && (a.Push? || a.NotifyOne? || a.CountSubmitted?)
    ensures Counters(Do(s, a))
  {
    SumUpdate(s.clients, a.c, Do(s, a).clients[a.c], IsUncounted);
    if a.NotifyOne? && AnyAsleep(s.workers) {
      WorkerCounts(s, a.w, Checking);
    }
  }

  lemma CountersKept(s: Pool, a: Step)
    requires Counters(s) && Enabled(s, a)
    ensures Counters(Do(s, a))
  {
    match a
    case NewClient => SumAppend(s.clients, Idle, IsUncounted);
    case SetStop =>
    case NotifyAll =>
      SumSame(s.workers, WakeAll(s.workers), IsRunning);
      SumSame(s.workers, WakeAll(s.workers), IsFinished);
    case Check(_) => CountersKeptByWorker(s, a);
    case Wake(_) => CountersKeptByWorker(s, a);
    case Finish(_) => CountersKeptByWorker(s, a);
    case CountDone(_) => CountersKeptByWorker(s, a);
    case Push(_) => CountersKeptByClient(s, a);
    case NotifyOne(_, _) => CountersKeptByClient(s, a);
    case CountSubmitted(_) => CountersKeptByClient(s, a);
  }

  /** A worker step does not put anyone to sleep while tasks are queued. */
  lemma SleeperStays(s: Pool, a: Step)
    requires Enabled(s, a) && s.tasks != []
    requires AnyAsleep(Do(s, a).workers)
    ensures AnyAsleep(s.workers)
  {
    var s' := Do(s, a);
    var v :| 0 <= v < |s'.workers| && s'.workers[v] == Asleep;
    assert s.workers[v] == Asleep;
  }

  lemma CoveredKept(s: Pool, a: Step)
    requires Covered(s) && Enabled(s, a)
    ensures Covered(Do(s, a))
  {
    var s' := Do(s, a);
    if !s'.stop && AnyAsleep(s'.workers) {
      match a
      case NewClient => SumAppend(s.clients, Idle, IsUnnotified);
      case Push(c) => SumUpdate(s.clients, c, Pushed, IsUnnotified);
      case CountSubmitted(c) => SumUpdate(s.clients, c, Submitted, IsUnnotified);
      case SetStop =>
      case NotifyAll =>
      case NotifyOne(c, w) =>
        SumUpdate(s.clients, c, Notified, IsUnnotified);
        if AnyAsleep(s.workers) {
          SumUpdate(s.workers, w, Checking, IsChecking);
        }
      case _ =>
        SumUpdate(s.workers, a.w, s'.workers[a.w], IsChecking);
        if s.tasks != [] {
          SleeperStays(s, a);
        }
    }
  }

  lemma TeardownKept(s: Pool, a: Step)
    requires Fifo(s) && TeardownOk(s) && Enabled(s, a)
    ensures TeardownOk(Do(s, a))
  {
    var s' := Do(s, a);
    if s'.teardown == Joining && a != NotifyAll {
      forall v | 0 <= v < |s'.workers|
        ensures s'.workers[v] != Asleep
      {
        assert s.workers[v] != Asleep;
      }
    }
    match a
    case Check(w) => assert s'.workers[w] == Exited ==> s'.tasks == [];
    case Wake(w) => assert s'.workers[w] == Checking;
    case Finish(w) => assert s'.workers[w] == Finished;
    case CountDone(w) => assert s'.workers[w] == Checking;
    case NotifyOne(c, w) => assert AnyAsleep(s.workers) ==> s'.workers[w] == Checking;
    case NotifyAll =>
      forall w | 0 <= w < |s.workers|
        ensures s.workers[w] == Exited <==> s'.workers[w] == Exited
      {
      }
    case _ =>
  }

  lemma StepKeeps(s: Pool, a: Step)
    requires PoolInv(s) && Enabled(s, a)
    ensures PoolInv(Do(s, a))
  {
    FifoKept(s, a);
    OwnershipKept(s, a);
    CountersKept(s, a);
    CoveredKept(s, a);
    TeardownKept(s, a);
  }

  lemma {:induction false} AllCheckingWeighNothing(ws: seq<Worker>, f: Worker -> nat)
    requires f(Checking) == 0
    requires forall w :: 0 <= w < |ws| ==> ws[w] == Checking
    ensures Sum(ws, f) == 0
  {
    if ws != [] {
      AllCheckingWeighNothing(ws[1..], f);
    }
  }

  lemma InitHolds(n: nat)
    ensures PoolInv(Init(n))
  {
    var s := Init(n);
    forall f: Worker -> nat | f(Checking) == 0
      ensures Sum(s.workers, f) == 0
    {
      AllCheckingWeighNothing(s.workers, f);
    }
  }

  lemma {:induction false} RunKeeps(s: Pool, steps: seq<Step>)
    requires PoolInv(s) && CanRun(s, steps)
    ensures PoolInv(RunFrom(s, steps))
    decreases |steps|
  {
    if steps != [] {
      StepKeeps(s, steps[0]);
      RunKeeps(Do(s, steps[0]), steps[1..]);
    }
  }

  /** The state after any run of a pool of n workers. */
  ghost predicate Reaches(n: nat, steps: seq<Step>, s: Pool) {
    CanRun(Init(n), steps) && s == RunFrom(Init(n), steps)
  }

  lemma ReachableInv(n: nat, steps: seq<Step>, s: Pool)
    requires Reaches(n, steps, s)
    ensures PoolInv(s)
  {
    InitHolds(n);
    RunKeeps(Init(n), steps);
  }
}
