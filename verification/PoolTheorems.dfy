/** What the thread pool promises, over every run of every pool. */
module PoolTheorems {
  import opened Sums
  import opened PoolMachine

  // ---- While the pool is alive ---------------------------------------------------------------

  lemma {:induction false} WorkersKept(s: Pool, steps: seq<Step>)
    requires CanRun(s, steps)
    ensures |RunFrom(s, steps).workers| == |s.workers|
    decreases |steps|
  {
    if steps != [] {
      WorkersKept(Do(s, steps[0]), steps[1..]);
    }
  }

  /** A pool of n has n workers, in every state of every run. */
  lemma WorkerCount(n: nat, steps: seq<Step>, s: Pool)
    requires Reaches(n, steps, s)
    ensures |s.workers| == n
  {
    WorkersKept(Init(n), steps);
  }

  /** No wakeup is lost: with a worker asleep, queued tasks are outnumbered by the workers about to
      look and the notifications due. So if every worker sleeps while work is queued, some enqueue
      call has pushed and is about to notify. */
  lemma NoLostWakeup(n: nat, steps: seq<Step>, s: Pool)
    requires Reaches(n, steps, s) && !s.stop
    ensures AnyAsleep(s.workers) ==>
      |s.tasks| <= Sum(s.workers, IsChecking) + Sum(s.clients, IsUnnotified)
    ensures n > 0 && s.tasks != [] && (forall w :: 0 <= w < |s.workers| ==> s.workers[w] == Asleep) ==>
      exists c :: 0 <= c < |s.clients| && s.clients[c] == Pushed
  {
    ReachableInv(n, steps, s);
    WorkersKept(Init(n), steps);
    if n > 0 && s.tasks != [] && forall w :: 0 <= w < |s.workers| ==> s.workers[w] == Asleep {
      assert s.workers[0] == Asleep;
      assert Sum(s.workers, IsChecking) == 0 by {
        if Sum(s.workers, IsChecking) > 0 {
          var w := SumWitness(s.workers, IsChecking);
        }
      }
      var c := SumWitness(s.clients, IsUnnotified);
      assert s.clients[c] == Pushed;
    }
  }

  /** Every pushed task is popped at most once and in the order of the pushes; a popped task has
      either run, exactly once, or is in the hands of exactly one worker. */
  lemma ExactlyOnceInOrder(n: nat, steps: seq<Step>, s: Pool)
    requires Reaches(n, steps, s)
    ensures s.dequeued <= s.pushed && s.tasks == s.pushed[|s.dequeued|..]
    ensures Distinct(s.dequeued) && Distinct(s.executed)
    ensures forall t :: t in s.dequeued <==> t in s.executed || RunBy(s, t)
    ensures forall t :: !(t in s.executed && RunBy(s, t))
    ensures forall v, w ::
      0 <= v < w < |s.workers| && s.workers[v].Running? ==> s.workers[w] != s.workers[v]
  {
    ReachableInv(n, steps, s);
    forall i, j | 0 <= i < j < |s.dequeued|
      ensures s.dequeued[i] != s.dequeued[j]
    {
      assert s.pushed[i] == s.dequeued[i] && s.pushed[j] == s.dequeued[j];
    }
    forall t | RunBy(s, t)
      ensures t in s.dequeued && t !in s.executed
    {
      var w :| 0 <= w < |s.workers| && s.workers[w] == Running(t);
    }
  }

  /** Conservation of tasks against both counters. tasks_completed_ may lead tasks_submitted_, by
      at most the number of enqueue calls between their push and their increment, and it leads
      exactly when those calls outnumber the tasks still in the pool. */
  lemma TaskConservation(n: nat, steps: seq<Step>, s: Pool)
    requires Reaches(n, steps, s)
    ensures |s.pushed| ==
      |s.tasks| + Sum(s.workers, IsRunning) + Sum(s.workers, IsFinished) + s.completed
    ensures |s.pushed| == s.submitted + Sum(s.clients, IsUncounted)
    ensures s.completed <= s.submitted + Sum(s.clients, IsUncounted)
    ensures s.completed > s.submitted <==>
      Sum(s.clients, IsUncounted) >
        |s.tasks| + Sum(s.workers, IsRunning) + Sum(s.workers, IsFinished)
  {
    ReachableInv(n, steps, s);
  }

  lemma RunOf5(s0: Pool, s1: Pool, s2: Pool, s3: Pool, s4: Pool, s5: Pool, a: seq<Step>)
    requires |a| == 5
    requires Enabled(s0, a[0]) && s1 == Do(s0, a[0])
    requires Enabled(s1, a[1]) && s2 == Do(s1, a[1])
    requires Enabled(s2, a[2]) && s3 == Do(s2, a[2])
    requires Enabled(s3, a[3]) && s4 == Do(s3, a[3])
    requires Enabled(s4, a[4]) && s5 == Do(s4, a[4])
    ensures CanRun(s0, a) && RunFrom(s0, a) == s5
  {
    assert CanRun(s5, a[1..][1..][1..][1..][1..]);
    assert CanRun(s4, a[1..][1..][1..][1..]) && RunFrom(s4, a[1..][1..][1..][1..]) == s5;
    assert CanRun(s3, a[1..][1..][1..]) && RunFrom(s3, a[1..][1..][1..]) == s5;
    assert CanRun(s2, a[1..][1..]) && RunFrom(s2, a[1..][1..]) == s5;
  }

  /** tasks_completed_ <= tasks_submitted_ is not an invariant: a task can be popped, run and
      counted before the call that pushed it reaches its own increment. */
  lemma CompletedCanLead() returns (steps: seq<Step>, s: Pool)
    ensures Reaches(1, steps, s) && s.completed == 1 && s.submitted == 0
  {
    steps := [NewClient, Push(0), Check(0), Finish(0), CountDone(0)];
    var s0 := Init(1);
    var s1 := Do(s0, NewClient);
    var s2 := Do(s1, Push(0));
    var s3 := Do(s2, Check(0));
    var s4 := Do(s3, Finish(0));
    s := Do(s4, CountDone(0));
    RunOf5(s0, s1, s2, s3, s4, s, steps);
  }

  // ---- Shutdown ------------------------------------------------------------------------------

  /** The steps the pool's own threads and its destructor take once stop_ is stored. */
  predicate IsDrain(a: Step) {
    a.Check? || a.Wake? || a.Finish? || a.CountDone? || a.NotifyAll?
  }

  /** No task is pushed. Calls of enqueue that pushed before may still notify and count, and new
      ones may begin. */
  predicate NoPush(steps: seq<Step>) {
    forall i :: 0 <= i < |steps| ==> !steps[i].Push?
  }

  function DrainSteps(steps: seq<Step>): nat {
    if steps == [] then 0 else (if IsDrain(steps[0]) then 1 else 0) + DrainSteps(steps[1..])
  }

  function Remaining(w: Worker): nat {
    match w
    case Running(_) => 3
    case Finished => 2
    case Asleep => 2
    case Checking => 1
    case Exited => 0
  }

  /** Drain steps left before every worker has exited. */
  ghost function Backlog(s: Pool): nat {
    3 * |s.tasks| + Sum(s.workers, Remaining) + (if s.teardown == Joining then 0 else 1)
  }

  lemma DrainStepFalls(s: Pool, a: Step)
    requires s.stop && IsDrain(a) && Enabled(s, a)
    ensures Do(s, a).stop && Do(s, a).pushed == s.pushed
    ensures Backlog(Do(s, a)) < Backlog(s)
  {
    var s' := Do(s, a);
    if a == NotifyAll {
      SumFalls(s.workers, s'.workers, Remaining);
    } else {
      SumUpdate(s.workers, a.w, s'.workers[a.w], Remaining);
    }
  }

  /** A late notify or count adds no work: at most it wakes a sleeper. */
  lemma EnqueueTailAddsNothing(s: Pool, a: Step)
    requires s.stop && Enabled(s, a) && !IsDrain(a) && !a.Push? && !a.SetStop?
    ensures Do(s, a).stop && Do(s, a).pushed == s.pushed
    ensures Backlog(Do(s, a)) <= Backlog(s)
  {
    if a.NotifyOne? && AnyAsleep(s.workers) {
      SumUpdate(s.workers, a.w, Checking, Remaining);
    }
  }

  lemma {:induction false} DrainBounded(s: Pool, steps: seq<Step>)
    requires s.stop && s.teardown != Alive && CanRun(s, steps) && NoPush(steps)
    ensures DrainSteps(steps) + Backlog(RunFrom(s, steps)) <= Backlog(s)
    ensures RunFrom(s, steps).stop && RunFrom(s, steps).pushed == s.pushed
    decreases |steps|
  {
    if steps != [] {
      if IsDrain(steps[0]) {
        DrainStepFalls(s, steps[0]);
      } else {
        EnqueueTailAddsNothing(s, steps[0]);
      }
      DrainBounded(Do(s, steps[0]), steps[1..]);
    }
  }

  /** Once stop_ is stored, somebody can always move until all workers have exited, and no spurious
      wakeup is needed for it: a worker still asleep has notify_all coming. */
  lemma DrainProgress(s: Pool)
    requires PoolInv(s) && s.stop && !AllExited(s.workers)
    ensures exists a :: IsDrain(a) && !a.Wake? && Enabled(s, a)
  {
    var w :| 0 <= w < |s.workers| && s.workers[w] != Exited;
    match s.workers[w]
    case Checking => assert Enabled(s, Check(w));
    case Asleep => assert AnyAsleep(s.workers) && Enabled(s, NotifyAll);
    case Running(_) => assert Enabled(s, Finish(w));
    case Finished => assert Enabled(s, CountDone(w));
  }

  /** A worker that has exited saw every push so far. */
  ghost predicate ExitsSawAll(s: Pool) {
    (exists w :: 0 <= w < |s.workers| && s.workers[w] == Exited) ==> s.exitMark == |s.pushed|
  }

  lemma {:induction false} DrainExits(s: Pool, steps: seq<Step>)
    requires CanRun(s, steps) && NoPush(steps) && ExitsSawAll(s)
    ensures ExitsSawAll(RunFrom(s, steps))
    decreases |steps|
  {
    if steps != [] {
      var s' := Do(s, steps[0]);
      if exists w :: 0 <= w < |s'.workers| && s'.workers[w] == Exited {
        var w :| 0 <= w < |s'.workers| && s'.workers[w] == Exited;
        assert s.workers[w] == Exited || s'.exitMark == |s.pushed|;
      }
      DrainExits(s', steps[1..]);
    }
  }

  lemma {:induction false} AllExitedIsIdle(ws: seq<Worker>)
    requires AllExited(ws)
    ensures Sum(ws, IsRunning) == 0 && Sum(ws, IsFinished) == 0
  {
    if ws != [] {
      AllExitedIsIdle(ws[1..]);
    }
  }

  /** With every worker gone and nothing pushed after the last exit, all tasks have run. */
  lemma DrainedRanAll(s: Pool)
    requires PoolInv(s) && s.workers != [] && AllExited(s.workers) && s.exitMark == |s.pushed|
    ensures s.tasks == [] && multiset(s.executed) == multiset(s.pushed) && s.completed == |s.pushed|
    ensures s.completed == s.submitted + Sum(s.clients, IsUncounted)
  {
    AllExitedIsIdle(s.workers);
    assert s.dequeued == s.pushed;
    assert forall t :: t in s.dequeued ==> !RunBy(s, t);
    DistinctPermutation(s.executed, s.pushed);
  }

  /** Shutdown drains and terminates. From any reachable state, if no task is pushed after stop_ is
      stored (calls that pushed before it may still notify and count, in any order with the rest),
      the workers and the destructor take at most Backlog further steps; one of them can always
      move, without a spurious wakeup, until all workers have exited; and then nothing is queued,
      every pushed task has run exactly once, tasks_completed_ has counted them all, and it leads
      tasks_submitted_ by the calls that have still to count. */
  lemma ShutdownDrains(n: nat, before: seq<Step>, s0: Pool, after: seq<Step>)
    requires n > 0 && Reaches(n, before, s0) && Enabled(s0, SetStop)
    requires CanRun(Do(s0, SetStop), after) && NoPush(after)
    ensures DrainSteps(after) <= Backlog(Do(s0, SetStop))
    ensures var s := RunFrom(Do(s0, SetStop), after);
      if AllExited(s.workers) then
        && s.tasks == []
        && multiset(s.executed) == multiset(s0.pushed)
        && s.completed == |s0.pushed|
        && s.completed == s.submitted + Sum(s.clients, IsUncounted)
      else
        exists a :: IsDrain(a) && !a.Wake? && Enabled(s, a)
  {
    ReachableInv(n, before, s0);
    StepKeeps(s0, SetStop);
    var stopped := Do(s0, SetStop);
    var s := RunFrom(stopped, after);
    RunKeeps(stopped, after);
    DrainBounded(stopped, after);
    if AllExited(s.workers) {
      WorkersKept(Init(n), before);
      WorkersKept(stopped, after);
      assert s.workers[0] == Exited;
      DrainExits(stopped, after);
      DrainedRanAll(s);
    } else {
      DrainProgress(s);
    }
  }

  lemma {:induction false} NothingRuns(s: Pool, more: seq<Step>)
    requires AllExited(s.workers) && CanRun(s, more)
    ensures RunFrom(s, more).executed == s.executed
    ensures s.tasks <= RunFrom(s, more).tasks
    decreases |more|
  {
    if more != [] {
      NothingRuns(Do(s, more[0]), more[1..]);
    }
  }

  /** A task pushed after the last worker exited is stranded: enqueue does not look at stop_. With
      every worker gone, the queue holds exactly what was pushed after the last exit, so it is
      empty if and only if nothing was; and whatever happens next, no stranded task ever runs. */
  lemma StrandedForever(n: nat, steps: seq<Step>, s: Pool, more: seq<Step>)
    requires n > 0 && Reaches(n, steps, s) && AllExited(s.workers)
    requires CanRun(s, more)
    ensures s.exitMark <= |s.pushed| && s.tasks == s.pushed[s.exitMark..]
    ensures s.tasks == [] <==> s.exitMark == |s.pushed|
    ensures RunFrom(s, more).executed == s.executed
    ensures s.tasks <= RunFrom(s, more).tasks
  {
    ReachableInv(n, steps, s);
    WorkersKept(Init(n), steps);
    NothingRuns(s, more);
  }

  /** The stranding happens: one worker exits, then an enqueue call pushes. */
  lemma LateEnqueueStrands() returns (steps: seq<Step>, s: Pool)
    ensures Reaches(1, steps, s) && AllExited(s.workers) && s.tasks == [0] && s.executed == []
  {
    steps := [NewClient, SetStop, NotifyAll, Check(0), Push(0)];
    var s0 := Init(1);
    var s1 := Do(s0, NewClient);
    var s2 := Do(s1, SetStop);
    var s3 := Do(s2, NotifyAll);
    var s4 := Do(s3, Check(0));
    s := Do(s4, Push(0));
    RunOf5(s0, s1, s2, s3, s4, s, steps);
  }
}
