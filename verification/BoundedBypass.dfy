/** How long one call can be kept waiting, however many others arrive: the queue is first in, first out,
    so only the tasks ahead of it count. */
module BoundedBypass {
  import opened Sums
  import opened SessionTable
  import opened PooledUpf
  import opened UpfTheorems
  import opened UpfLiveness
  import P = PoolMachine

  /** The call will be a task of the pool, but has not been pushed yet. */
  predicate IsUnpushed(s: Sys, h: nat)
    requires h < |s.handlers|
  {
    Pooled(s) && s.handlers[h].call.Classify? && s.handlers[h].phase in {Called, Entered}
  }

  // ---- The measure ---------------------------------------------------------------------------

  /** Steps the handler itself still has to take. */
  function OwnLeft(hd: Handler, c: P.Client): nat {
    match hd.phase
    case Called => if hd.call.Classify? then 5 else 2
    case Entered => 4
    case Queued => if c == P.Pushed then 3 else if c == P.Notified then 2 else 1
    case Inline(pc) => PcLoad(pc)
    case Served => 1
    case Returned => 0
  }

  /** Steps still to be taken within a handler's task, once a worker has it. */
  function TaskLeft(hd: Handler): nat {
    if hd.promises > 0 then 0
    else if hd.tallied then 1
    else if hd.resp.Some? then 2
    else if hd.point.Some? then 3
    else 4
  }

  /** How many tasks are ahead of h. */
  function Place(tasks: seq<nat>, h: nat): nat {
    if tasks == [] || tasks[0] == h then 0 else 1 + Place(tasks[1..], h)
  }

  /** Steps of its loop a worker takes before it looks at the queue again, its task's own apart. */
  function LoopLeft(w: P.Worker): nat {
    match w
    case Running(_) => 2
    case Finished => 1
    case _ => 0
  }

  /** Steps before h's queued task is popped: seven for each task up to it, those in progress, and one
      wakeup if nobody is awake. */
  ghost function QueueLeft(s: Sys, h: nat): nat {
    7 * (Place(s.pool.tasks, h) + 1) + Sum(s.pool.workers, LoopLeft) + Sum(s.pcs, PcLoad)
    + (if NoneAwake(s.pool.workers) then 1 else 0)
  }

  ghost function TaskDelay(s: Sys, h: nat): nat
    requires h < |s.handlers|
  {
    if s.handlers[h].phase == Queued then
      TaskLeft(s.handlers[h]) + (if h in s.pool.tasks then QueueLeft(s, h) else 0)
    else 0
  }

  /** Helping steps before call h returns. */
  ghost function Delay(s: Sys, h: nat): nat
    requires h < |s.handlers| && h < |s.pool.clients|
  {
    OwnLeft(s.handlers[h], s.pool.clients[h]) + TaskDelay(s, h)
  }

  // ---- The place in the queue ----------------------------------------------------------------

  lemma {:induction false} PlaceIs(tasks: seq<nat>, h: nat)
    requires h in tasks
    ensures Place(tasks, h) < |tasks| && tasks[Place(tasks, h)] == h
  {
    if tasks[0] != h {
      PlaceIs(tasks[1..], h);
    }
  }

  lemma {:induction false} PlaceStands(tasks: seq<nat>, h: nat, last: nat)
    requires h in tasks
    ensures Place(tasks + [last], h) == Place(tasks, h)
  {
    if tasks[0] != h {
      assert (tasks + [last])[1..] == tasks[1..] + [last];
      PlaceStands(tasks[1..], h, last);
    }
  }

  // ---- Every step shortens the wait for the queue or leaves it -------------------------------

  ghost predicate Shortens(s: Sys, a: Act)
    requires Can(s, a)
  {
    IsWorkerStep(a) || Rouses(s, a)
  }

  lemma WorkShortens(s: Sys, a: Act, h: nat)
    requires Can(s, a) && IsWork(a)
    ensures QueueLeft(Next(s, a), h) < QueueLeft(s, h)
  {
    var pc := Next(s, a).pcs[a.w];
    assert Next(s, a).pool == s.pool && Next(s, a).pcs == s.pcs[a.w := pc];
    SumUpdate(s.pcs, a.w, pc, PcLoad);
  }

  /** A worker that looks pops a task ahead of h. */
  lemma CheckShortens(s: Sys, w: nat, h: nat)
    requires Can(s, PoolStep(P.Check(w))) && h in s.pool.tasks && s.pool.tasks[0] != h
    ensures QueueLeft(Next(s, PoolStep(P.Check(w))), h) < QueueLeft(s, h)
  {
    var s' := Next(s, PoolStep(P.Check(w)));
    assert s'.pool.tasks == s.pool.tasks[1..];
    assert s'.pool.workers == s.pool.workers[w := P.Running(s.pool.tasks[0])] && s'.pcs == s.pcs[w := Start];
    SumUpdate(s.pool.workers, w, P.Running(s.pool.tasks[0]), LoopLeft);
    SumUpdate(s.pcs, w, Start, PcLoad);
    assert s'.pool.workers[w] == P.Running(s.pool.tasks[0]);
  }

  lemma LoopShortens(s: Sys, b: P.Step, h: nat)
    requires Can(s, PoolStep(b)) && (b.Finish? || b.CountDone?)
    ensures QueueLeft(Next(s, PoolStep(b)), h) < QueueLeft(s, h)
  {
    var s' := Next(s, PoolStep(b));
    var x := s'.pool.workers[b.w];
    assert s'.pool.workers == s.pool.workers[b.w := x] && s'.pcs == s.pcs && s'.pool.tasks == s.pool.tasks;
    SumUpdate(s.pool.workers, b.w, x, LoopLeft);
    assert !NoneAwake(s'.pool.workers);
  }

  lemma RousingShortens(s: Sys, b: P.Step, h: nat)
    requires Can(s, PoolStep(b)) && (b.Wake? || b.NotifyOne? || b.NotifyAll?)
    ensures QueueLeft(Next(s, PoolStep(b)), h) + One(Rouses(s, PoolStep(b))) <= QueueLeft(s, h)
  {
    var s' := Next(s, PoolStep(b));
    SumSame(s.pool.workers, s'.pool.workers, LoopLeft);
    if w :| 0 <= w < |s.pool.workers| && s.pool.workers[w] != P.Asleep && s.pool.workers[w] != P.Exited {
      assert s'.pool.workers[w] == s.pool.workers[w];
    }
  }

  lemma PushStaysBehind(s: Sys, c: nat, h: nat)
    requires Can(s, PoolStep(P.Push(c))) && h in s.pool.tasks
    ensures QueueLeft(Next(s, PoolStep(P.Push(c))), h) == QueueLeft(s, h)
  {
    PlaceStands(s.pool.tasks, h, c);
  }

  lemma PoolQueueStep(s: Sys, b: P.Step, h: nat)
    requires Can(s, PoolStep(b)) && h in s.pool.tasks && !(b.Check? && s.pool.tasks[0] == h)
    ensures QueueLeft(Next(s, PoolStep(b)), h) + One(Shortens(s, PoolStep(b))) <= QueueLeft(s, h)
  {
    match b
    case Check(w) => CheckShortens(s, w, h);
    case Finish(_) => LoopShortens(s, b, h);
    case CountDone(_) => LoopShortens(s, b, h);
    case Push(c) => PushStaysBehind(s, c, h);
    case CountSubmitted(_) =>
    case SetStop =>
    case _ => RousingShortens(s, b, h);
  }

  lemma HandlerQueueStep(s: Sys, a: Act, h: nat)
    requires Can(s, a) && !a.PoolStep? && !IsWork(a)
    ensures QueueLeft(Next(s, a), h) + One(Shortens(s, a)) == QueueLeft(s, h)
  {
    assert Next(s, a).pool.workers == s.pool.workers && Next(s, a).pool.tasks == s.pool.tasks;
  }

  lemma QueueStep(s: Sys, a: Act, h: nat)
    requires Can(s, a) && h in s.pool.tasks && !(a.PoolStep? && a.a.Check? && s.pool.tasks[0] == h)
    ensures QueueLeft(Next(s, a), h) + One(Shortens(s, a)) <= QueueLeft(s, h)
  {
    if a.PoolStep? {
      PoolQueueStep(s, a.a, h);
    } else if IsWork(a) {
      WorkShortens(s, a, h);
    } else {
      HandlerQueueStep(s, a, h);
    }
  }

  // ---- Every step shortens the call's delay or leaves it -------------------------------------

  /** The step does something for h's task. */
  ghost predicate Advances(s: Sys, a: Act, h: nat)
    requires Can(s, a)
  {
    (h in s.pool.tasks && Shortens(s, a)) || (IsWork(a) && s.pool.workers[a.w] == P.Running(h))
  }

  /** From s to s2 call h stays past its push and unqueued if it was, and one of its own steps, if this
      was one, is behind it. */
  ghost predicate Onward(s: Sys, s2: Sys, h: nat, own: bool)
    requires h < |s.handlers|
  {
    && |s.handlers| <= |s2.handlers| == |s2.pool.clients| && |s.handlers| == |s.pool.clients|
    && OwnLeft(s2.handlers[h], s2.pool.clients[h]) + One(own) <= OwnLeft(s.handlers[h], s.pool.clients[h])
    && (s.handlers[h].phase != Queued ==> s2.handlers[h].phase != Queued)
    && !IsUnpushed(s2, h)
  }

  lemma OnwardByPool(s: Sys, b: P.Step, h: nat)
    requires HandlersOk(s) && Can(s, PoolStep(b)) && h < |s.handlers| && !IsUnpushed(s, h)
    ensures Onward(s, Next(s, PoolStep(b)), h, IsOwn(PoolStep(b), h))
  {
    assert HandlerOk(s.handlers[h], s.pool.clients[h], Pooled(s));
  }

  lemma OnwardByWork(s: Sys, a: Act, h: nat)
    requires HandlersOk(s) && Can(s, a) && (IsWork(a) || a.Arrive?) && h < |s.handlers| && !IsUnpushed(s, h)
    ensures Onward(s, Next(s, a), h, IsOwn(a, h))
  {
  }

  lemma OnwardByHandler(s: Sys, a: Act, h: nat)
    requires HandlersOk(s) && Can(s, a) && !IsWork(a) && !a.PoolStep? && !a.Arrive?
    requires h < |s.handlers| && !IsUnpushed(s, h)
    ensures Onward(s, Next(s, a), h, IsOwn(a, h))
  {
    assert HandlerOk(s.handlers[h], s.pool.clients[h], Pooled(s));
    assert Next(s, a).pool == s.pool;
  }

  /** Only its own steps move a handler on, and only its own push queues it. */
  lemma OwnStep(s: Sys, a: Act, h: nat)
    requires HandlersOk(s) && Can(s, a) && h < |s.handlers| && !IsUnpushed(s, h)
    ensures Onward(s, Next(s, a), h, IsOwn(a, h))
  {
    if a.PoolStep? {
      OnwardByPool(s, a.a, h);
    } else if IsWork(a) || a.Arrive? {
      OnwardByWork(s, a, h);
    } else {
      OnwardByHandler(s, a, h);
    }
  }

  lemma TaskUntouched(s: Sys, a: Act, h: nat)
    requires HandlersOk(s) && Can(s, a) && h < |s.handlers| && s.handlers[h].phase == Queued
    requires IsWork(a) ==> s.pool.workers[a.w] != P.Running(h)
    ensures TaskLeft(Next(s, a).handlers[h]) == TaskLeft(s.handlers[h])
  {
    assert HandlerOk(s.handlers[h], s.pool.clients[h], Pooled(s));
  }

  lemma NotPushedNow(s: Sys, a: Act, h: nat)
    requires HandlersOk(s) && Can(s, a) && h < |s.handlers| && s.handlers[h].phase == Queued
    ensures h in Next(s, a).pool.tasks ==> h in s.pool.tasks
  {
    assert HandlerOk(s.handlers[h], s.pool.clients[h], Pooled(s));
  }

  lemma TaskWorkedOn(s: Sys, a: Act, h: nat)
    requires P.PoolInv(s.pool) && HandlersOk(s) && JobsOk(s) && Can(s, a) && IsWork(a)
    requires s.pool.workers[a.w] == P.Running(h)
    ensures h !in s.pool.tasks && h < |s.handlers| && s.handlers[h].phase == Queued
    ensures TaskLeft(Next(s, a).handlers[h]) < TaskLeft(s.handlers[h])
  {
    OneOwner(s.pool, a.w);
    assert JobOk(s, h, s.pcs[a.w]);
  }

  /** A task is queued once only. */
  lemma HeadGoes(p: P.Pool)
    requires P.Fifo(p) && p.tasks != []
    ensures p.tasks[0] !in p.tasks[1..]
  {
    forall j | 0 <= j < |p.tasks[1..]|
      ensures p.tasks[1..][j] != p.tasks[0]
    {
      assert p.pushed[|p.dequeued|] == p.tasks[0] && p.pushed[|p.dequeued| + j + 1] == p.tasks[1..][j];
    }
  }

  lemma TaskStep(s: Sys, a: Act, h: nat)
    requires SysInv(s) && Can(s, a) && h < |s.handlers| && !IsUnpushed(s, h)
    ensures h < |Next(s, a).handlers|
    ensures TaskDelay(Next(s, a), h) + One(Advances(s, a, h)) <= TaskDelay(s, h)
  {
    OwnStep(s, a, h);
    if IsWork(a) && s.pool.workers[a.w] == P.Running(h) {
      TaskWorkedOn(s, a, h);
      assert Next(s, a).pool == s.pool;
    } else if s.handlers[h].phase == Queued {
      TaskUntouched(s, a, h);
      NotPushedNow(s, a, h);
      if h in s.pool.tasks && h in Next(s, a).pool.tasks {
        HeadGoes(s.pool);
        QueueStep(s, a, h);
      }
    } else {
      assert h !in s.pool.tasks;
    }
  }

  lemma DelayStep(s: Sys, a: Act, h: nat)
    requires SysInv(s) && Can(s, a) && h < |s.handlers| && !IsUnpushed(s, h)
    ensures var s' := Next(s, a);
      && h < |s'.handlers| == |s'.pool.clients| && !IsUnpushed(s', h)
      && Delay(s', h) + One(Helps(s, a, h)) <= Delay(s, h)
  {
    OwnStep(s, a, h);
    TaskStep(s, a, h);
  }

  // ---- Whole runs ----------------------------------------------------------------------------

  /** How many of the steps help call h. */
  ghost function HelpGiven(s: Sys, more: seq<Act>, h: nat): nat
    requires CanRun(s, more)
    decreases |more|
  {
    if more == [] then 0 else One(Helps(s, more[0], h)) + HelpGiven(Next(s, more[0]), more[1..], h)
  }

  /** A pool loses its last worker only with the queue empty. */
  lemma WorkerStays(p: P.Pool, b: P.Step)
    requires P.Enabled(p, b) && p.tasks != [] && !P.AllExited(p.workers)
    ensures !P.AllExited(P.Do(p, b).workers)
  {
    var w :| 0 <= w < |p.workers| && p.workers[w] != P.Exited;
    assert P.Do(p, b).workers[w] != P.Exited;
  }

  lemma NotStrandedStep(s: Sys, a: Act, h: nat)
    requires HandlersOk(s) && Can(s, a) && h < |s.handlers| && !IsUnpushed(s, h) && !Stranded(s, h)
    ensures !Stranded(Next(s, a), h)
  {
    OwnStep(s, a, h);
    if s.handlers[h].phase == Queued && h in Next(s, a).pool.tasks && Pooled(s) {
      NotPushedNow(s, a, h);
      if a.PoolStep? {
        WorkerStays(s.pool, a.a);
      } else {
        assert Next(s, a).pool.workers == s.pool.workers;
      }
    }
  }

  lemma {:induction false} DelayRuns(s: Sys, more: seq<Act>, h: nat)
    requires SysInv(s) && CanRun(s, more) && h < |s.handlers| && !IsUnpushed(s, h)
    ensures var t := RunFrom(s, more);
      && SysInv(t) && h < |t.handlers| && !IsUnpushed(t, h)
      && HelpGiven(s, more, h) + Delay(t, h) <= Delay(s, h)
      && (!Stranded(s, h) ==> !Stranded(t, h))
    decreases |more|
  {
    if more != [] {
      StepKeeps(s, more[0]);
      DelayStep(s, more[0], h);
      if !Stranded(s, h) {
        NotStrandedStep(s, more[0], h);
      }
      DelayRuns(Next(s, more[0]), more[1..], h);
    }
  }

  /** Bounded bypass. Take any reachable state and any call that is past its push or needs none, and is
      not stranded. In every continuation, whatever else arrives, is pushed, is woken or is being
      destroyed, the steps that help the call are never more than its delay; and until it has
      returned one of them can be taken, no spurious wakeup being needed. So the call has returned once
      as many helping steps have been taken as its delay. */
  lemma WaitingCallReturns(n: nat, acts: seq<Act>, s: Sys, h: nat, more: seq<Act>)
    requires Reaches(n, acts, s) && CanRun(s, more)
    requires h < |s.handlers| && !IsUnpushed(s, h) && !Stranded(s, h)
    ensures |s.pool.clients| == |s.handlers|
    ensures var t := RunFrom(s, more);
      && h < |t.handlers|
      && HelpGiven(s, more, h) <= Delay(s, h)
      && (HelpGiven(s, more, h) == Delay(s, h) ==> t.handlers[h].phase == Returned)
      && (t.handlers[h].phase != Returned ==> exists a :: IsBusy(a) && Can(t, a) && Helps(t, a, h))
  {
    ReachableInv(n, acts, s);
    DelayRuns(s, more, h);
    var t := RunFrom(s, more);
    assert HandlerOk(t.handlers[h], t.pool.clients[h], Pooled(t));
    if t.handlers[h].phase != Returned {
      NothingThrows(t);
      var a := CallMoves(t, h);
    }
  }

  /** A call that is not yet pushed waits for nobody: its own handler can move. */
  lemma UnpushedCallMoves(n: nat, acts: seq<Act>, s: Sys, h: nat)
    requires Reaches(n, acts, s) && h < |s.handlers| && IsUnpushed(s, h)
    ensures exists a :: Can(s, a) && IsOwn(a, h)
  {
    ReachableInv(n, acts, s);
    NothingThrows(s);
    var a := CallMoves(s, h);
  }

  lemma {:induction false} SumBounded<T>(xs: seq<T>, f: T -> nat, m: nat)
    requires forall i :: 0 <= i < |xs| ==> f(xs[i]) <= m
    ensures Sum(xs, f) <= m * |xs|
  {
    if xs != [] {
      SumBounded(xs[1..], f, m);
    }
  }

  lemma PlaceInQueue(p: P.Pool, h: nat, i: nat)
    requires P.Fifo(p) && i < |p.tasks| && p.tasks[i] == h
    ensures Place(p.tasks, h) == i
  {
    PlaceIs(p.tasks, h);
    var j := Place(p.tasks, h);
    assert p.pushed[|p.dequeued| + i] == p.tasks[i] && p.pushed[|p.dequeued| + j] == p.tasks[j];
  }

  lemma QueueLeftBounded(s: Sys, h: nat)
    requires |s.pcs| == |s.pool.workers|
    ensures QueueLeft(s, h) <= 7 * (Place(s.pool.tasks, h) + 1) + 6 * |s.pool.workers| + 1
  {
    SumBounded(s.pool.workers, LoopLeft, 2);
    SumBounded(s.pcs, PcLoad, 4);
  }

  /** The delay is a matter of the workers and of the tasks ahead in the queue: what comes behind, or
      arrives later, has no part in it. */
  lemma DelayByPlace(n: nat, acts: seq<Act>, s: Sys, h: nat)
    requires Reaches(n, acts, s) && h < |s.handlers|
    ensures |s.pool.clients| == |s.handlers|
    ensures h !in s.pool.tasks ==> Delay(s, h) <= 7
    ensures forall p: nat :: p < |s.pool.tasks| && s.pool.tasks[p] == h ==>
      Delay(s, h) <= 7 * (p + 1) + 6 * |s.pool.workers| + 8
  {
    ReachableInv(n, acts, s);
    assert HandlerOk(s.handlers[h], s.pool.clients[h], Pooled(s));
    QueueLeftBounded(s, h);
    forall p: nat | p < |s.pool.tasks| && s.pool.tasks[p] == h
      ensures Place(s.pool.tasks, h) == p
    {
      PlaceInQueue(s.pool, h, p);
    }
  }
}
