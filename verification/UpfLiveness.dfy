/** Which calls are answered. A call that has not returned has some thread that can take a step for it,
    unless its task was pushed after the pool's last worker had exited; and the threads' work is
    bounded by the calls that arrive. How long one call can be kept waiting is the subject of
    BoundedBypass. */
module UpfLiveness {
  import opened Sums
  import opened SessionTable
  import opened PooledUpf
  import opened UpfTheorems
  import P = PoolMachine

  /** The steps of threads that have something to do: everything but new calls, spurious wakeups
      and the beginning of the destructor. */
  predicate IsBusy(a: Act) {
    !a.Arrive? && !(a.PoolStep? && (a.a.Wake? || a.a.SetStop?))
  }

  function BusyStep(a: Act): nat { if IsBusy(a) then 1 else 0 }
  function Arrival(a: Act): nat { if a.Arrive? then 1 else 0 }
  function SpuriousWakeup(a: Act): nat { if a.PoolStep? && a.a.Wake? then 1 else 0 }

  function PcLoad(pc: Pc): nat {
    match pc
    case Start => 4
    case LookedUp(_) => 3
    case Wrote(_) => 2
    case Tallied => 1
    case Fulfilled => 0
  }

  function HandlerLoad(hd: Handler): nat {
    match hd.phase
    case Called => 13
    case Entered => 12
    case Queued => 1
    case Inline(pc) => 1 + PcLoad(pc)
    case Served => 1
    case Returned => 0
  }

  function ClientLoad(c: P.Client): nat {
    match c
    case Pushed => 3
    case Notified => 1
    case _ => 0
  }

  function WorkerLoad(w: P.Worker): nat {
    match w
    case Running(_) => 3
    case Finished => 2
    case Checking => 1
    case _ => 0
  }

  ghost function PoolLoad(p: P.Pool): nat {
    Sum(p.clients, ClientLoad) + 7 * |p.tasks| + Sum(p.workers, WorkerLoad)
    + (if p.teardown == P.Joining then 0 else |p.workers| + 1)
  }

  /** Steps left before the threads run out of work. */
  ghost function Load(s: Sys): nat {
    Sum(s.handlers, HandlerLoad) + PoolLoad(s.pool) + Sum(s.pcs, PcLoad)
  }

  lemma BusyHandlerFalls(s: Sys, a: Act)
    requires HandlersOk(s) && Can(s, a) && IsBusy(a) && !a.PoolStep? && !IsWork(a)
    ensures Load(Next(s, a)) < Load(s)
  {
    var hd, hd' := s.handlers[a.h], Next(s, a).handlers[a.h];
    assert HandlerOk(hd, s.pool.clients[a.h], Pooled(s));
    assert HandlerLoad(hd') < HandlerLoad(hd);
    assert Next(s, a).handlers == s.handlers[a.h := hd'];
    assert Next(s, a).pool == s.pool && Next(s, a).pcs == s.pcs;
    SumUpdate(s.handlers, a.h, hd', HandlerLoad);
  }

  lemma BusyWorkerFalls(s: Sys, a: Act)
    requires Can(s, a) && IsWork(a)
    ensures Load(Next(s, a)) < Load(s)
  {
    var h := s.pool.workers[a.w].task;
    var hd, pc := Next(s, a).handlers[h], Next(s, a).pcs[a.w];
    assert hd.phase == s.handlers[h].phase && PcLoad(pc) < PcLoad(s.pcs[a.w]);
    assert Next(s, a).handlers == s.handlers[h := hd] && Next(s, a).pcs == s.pcs[a.w := pc];
    assert Next(s, a).pool == s.pool;
    SumUpdate(s.handlers, h, hd, HandlerLoad);
    SumUpdate(s.pcs, a.w, pc, PcLoad);
  }

  lemma BusyPushFalls(s: Sys, c: nat)
    requires Can(s, PoolStep(P.Push(c)))
    ensures Load(Next(s, PoolStep(P.Push(c)))) < Load(s)
  {
    SumUpdate(s.handlers, c, s.handlers[c].(phase := Queued), HandlerLoad);
    SumUpdate(s.pool.clients, c, P.Pushed, ClientLoad);
  }

  lemma BusyNotifyFalls(s: Sys, b: P.Step)
    requires Can(s, PoolStep(b)) && (b.NotifyOne? || b.CountSubmitted?)
    ensures Load(Next(s, PoolStep(b))) < Load(s)
  {
    SumUpdate(s.pool.clients, b.c, Next(s, PoolStep(b)).pool.clients[b.c], ClientLoad);
    if b.NotifyOne? && P.AnyAsleep(s.pool.workers) {
      SumUpdate(s.pool.workers, b.w, P.Checking, WorkerLoad);
    }
  }

  lemma BusyCheckFalls(s: Sys, w: nat)
    requires Can(s, PoolStep(P.Check(w)))
    ensures Load(Next(s, PoolStep(P.Check(w)))) < Load(s)
  {
    SumUpdate(s.pool.workers, w, Next(s, PoolStep(P.Check(w))).pool.workers[w], WorkerLoad);
    SumUpdate(s.pcs, w, Start, PcLoad);
  }

  lemma BusyLoopFalls(s: Sys, b: P.Step)
    requires Can(s, PoolStep(b)) && (b.Finish? || b.CountDone?)
    ensures Load(Next(s, PoolStep(b))) < Load(s)
  {
    SumUpdate(s.pool.workers, b.w, Next(s, PoolStep(b)).pool.workers[b.w], WorkerLoad);
  }

  /** notify_all gives each sleeper one look at the queue. */
  lemma {:induction false} WakingAdds(asleep: seq<P.Worker>, woken: seq<P.Worker>)
    requires |asleep| == |woken|
    requires forall w :: 0 <= w < |woken| ==> woken[w] == asleep[w] || woken[w] == P.Checking
    ensures Sum(woken, WorkerLoad) <= Sum(asleep, WorkerLoad) + |asleep|
  {
    if asleep != [] {
      WakingAdds(asleep[1..], woken[1..]);
    }
  }

  lemma BusyNotifyAllFalls(s: Sys)
    requires Can(s, PoolStep(P.NotifyAll))
    ensures Load(Next(s, PoolStep(P.NotifyAll))) < Load(s)
  {
    WakingAdds(s.pool.workers, P.WakeAll(s.pool.workers));
  }

  lemma BusyFalls(s: Sys, a: Act)
    requires HandlersOk(s) && Can(s, a) && IsBusy(a)
    ensures Load(Next(s, a)) < Load(s)
  {
    match a
    case PoolStep(b) =>
      match b {
        case Push(c) => BusyPushFalls(s, c);
        case NotifyOne(_, _) => BusyNotifyFalls(s, b);
        case CountSubmitted(_) => BusyNotifyFalls(s, b);
        case NotifyAll => BusyNotifyAllFalls(s);
        case Check(w) => BusyCheckFalls(s, w);
        case _ => BusyLoopFalls(s, b);
      }
    case _ =>
      if IsWork(a) {
        BusyWorkerFalls(s, a);
      } else {
        BusyHandlerFalls(s, a);
      }
  }

  lemma ArrivalAdds(s: Sys, call: Call)
    ensures Load(Next(s, Arrive(call))) == Load(s) + 13
  {
    var s' := Next(s, Arrive(call));
    SumAppend(s.handlers, s'.handlers[|s.handlers|], HandlerLoad);
    SumAppend(s.pool.clients, P.Idle, ClientLoad);
  }

  lemma WakeupAdds(s: Sys, w: nat)
    requires Can(s, PoolStep(P.Wake(w)))
    ensures Load(Next(s, PoolStep(P.Wake(w)))) == Load(s) + 1
  {
    SumUpdate(s.pool.workers, w, P.Checking, WorkerLoad);
  }

  lemma StepLoads(s: Sys, a: Act)
    requires HandlersOk(s) && Can(s, a)
    ensures BusyStep(a) + Load(Next(s, a)) <= Load(s) + 13 * Arrival(a) + SpuriousWakeup(a)
  {
    if IsBusy(a) {
      BusyFalls(s, a);
    } else if a.Arrive? {
      ArrivalAdds(s, a.call);
    } else if a.a.Wake? {
      WakeupAdds(s, a.a.w);
    }
  }

  lemma {:induction false} WorkBounded(s: Sys, more: seq<Act>)
    requires SysInv(s) && CanRun(s, more)
    ensures Sum(more, BusyStep) + Load(RunFrom(s, more)) <=
      Load(s) + 13 * Sum(more, Arrival) + Sum(more, SpuriousWakeup)
    decreases |more|
  {
    if more != [] {
      StepKeeps(s, more[0]);
      StepLoads(s, more[0]);
      WorkBounded(Next(s, more[0]), more[1..]);
    }
  }

  // ---- Somebody can move ---------------------------------------------------------------------

  ghost predicate SomebodyCanMove(s: Sys) {
    exists a :: IsBusy(a) && Can(s, a)
  }

  ghost predicate NoThrow(s: Sys) {
    forall h :: 0 <= h < |s.handlers| && s.handlers[h].point.Some? && s.handlers[h].point.value.resp.Classified? ==>
      s.handlers[h].point.value.resp.outcome.Decided?
  }

  /** The invariants progress rests on; the last says no answer logged is an exception. */
  ghost predicate Ready(s: Sys) {
    P.PoolInv(s.pool) && HandlersOk(s) && JobsOk(s) && NoThrow(s)
  }

  /** The session a worker or handler found is never the one that makes at() throw. */
  lemma NothingThrows(s: Sys)
    requires LogOk(s)
    ensures NoThrow(s)
  {
    forall h | 0 <= h < |s.handlers| && s.handlers[h].point.Some? && s.handlers[h].point.value.resp.Classified?
      ensures s.handlers[h].point.value.resp.outcome.Decided?
    {
      PointIsAnswer(s, h);
    }
  }

  /** A step of a worker: in its loop, or in the classification it runs. */
  predicate IsWorkerStep(a: Act) {
    IsWork(a) || (a.PoolStep? && (a.a.Check? || a.a.Finish? || a.a.CountDone?))
  }

  /** A step of the handler of call h. */
  predicate IsOwn(a: Act, h: nat) {
    match a
    case Enter(g) => g == h
    case InlineLookUp(g) => g == h
    case InlineWrite(g) => g == h
    case InlineTally(g) => g == h
    case Serve(g) => g == h
    case Return(g) => g == h
    case PoolStep(b) => (b.Push? || b.NotifyOne? || b.CountSubmitted?) && b.c == h
    case _ => false
  }

  predicate NoneAwake(ws: seq<P.Worker>) {
    forall w :: 0 <= w < |ws| ==> ws[w] == P.Asleep || ws[w] == P.Exited
  }

  /** The step gives the pool a worker that is awake when it had none. */
  predicate Rouses(s: Sys, a: Act)
    requires Can(s, a)
  {
    NoneAwake(s.pool.workers) && !NoneAwake(Next(s, a).pool.workers)
  }

  /** The step brings call h nearer to its return: it is the handler's own; or the call's task is queued
      and a worker moves or the first worker wakes; or it is work on the task. */
  predicate Helps(s: Sys, a: Act, h: nat)
    requires Can(s, a)
  {
    || IsOwn(a, h)
    || (h in s.pool.tasks && (IsWorkerStep(a) || Rouses(s, a)))
    || (IsWork(a) && s.pool.workers[a.w] == P.Running(h))
  }

  lemma RunningWorkerMoves(s: Sys, w: nat, h: nat) returns (a: Act)
    requires |s.pcs| == |s.pool.workers| && JobsOk(s) && NoThrow(s)
    requires w < |s.pool.workers| && s.pool.workers[w] == P.Running(h)
    ensures IsBusy(a) && Can(s, a) && IsWorkerStep(a)
    ensures s.pcs[w] != Fulfilled ==> IsWork(a) && a.w == w
  {
    assert JobOk(s, h, s.pcs[w]);
    match s.pcs[w]
    case Start => a := LookUp(w);
    case LookedUp(_) => a := WriteReply(w);
    case Wrote(_) => a := Tally(w);
    case Tallied => a := Fulfil(w);
    case Fulfilled => a := PoolStep(P.Finish(w));
  }

  /** A worker that is neither asleep nor gone can move. */
  lemma AwakeWorkerMoves(s: Sys, w: nat) returns (a: Act)
    requires Ready(s) && w < |s.pool.workers|
    requires s.pool.workers[w] != P.Asleep && s.pool.workers[w] != P.Exited
    ensures IsBusy(a) && Can(s, a) && IsWorkerStep(a)
  {
    match s.pool.workers[w]
    case Checking => a := PoolStep(P.Check(w));
    case Finished => a := PoolStep(P.CountDone(w));
    case Running(h) => a := RunningWorkerMoves(s, w, h);
  }

  /** A call of enqueue that has begun can move. */
  lemma EnqueueMoves(s: Sys, h: nat) returns (a: Act)
    requires h < |s.pool.clients| && (s.pool.clients[h] == P.Pushed || s.pool.clients[h] == P.Notified)
    ensures IsBusy(a) && Can(s, a) && IsOwn(a, h)
    ensures s.pool.clients[h] == P.Pushed && P.AnyAsleep(s.pool.workers) && NoneAwake(s.pool.workers) ==> Rouses(s, a)
  {
    if s.pool.clients[h] == P.Notified {
      a := PoolStep(P.CountSubmitted(h));
    } else if P.AnyAsleep(s.pool.workers) {
      var w :| 0 <= w < |s.pool.workers| && s.pool.workers[w] == P.Asleep;
      a := PoolStep(P.NotifyOne(h, w));
      assert Next(s, a).pool.workers[w] == P.Checking;
    } else {
      a := PoolStep(P.NotifyOne(h, 0));
    }
  }

  lemma NotifyAllRouses(s: Sys)
    requires Ready(s) && s.pool.stop && P.AnyAsleep(s.pool.workers)
    ensures Can(s, PoolStep(P.NotifyAll))
    ensures NoneAwake(s.pool.workers) ==> Rouses(s, PoolStep(P.NotifyAll))
  {
    var w :| 0 <= w < |s.pool.workers| && s.pool.workers[w] == P.Asleep;
    assert Can(s, PoolStep(P.NotifyAll));
    assert Next(s, PoolStep(P.NotifyAll)).pool.workers[w] == P.Checking;
  }

  /** Before stop_, if work is queued and nobody is awake, some call of enqueue is about to notify. */
  lemma NotifyIsDue(s: Sys) returns (c: nat)
    requires P.PoolInv(s.pool) && !s.pool.stop && s.pool.tasks != [] && NoneAwake(s.pool.workers)
    requires P.AnyAsleep(s.pool.workers)
    ensures c < |s.pool.clients| && s.pool.clients[c] == P.Pushed
  {
    assert Sum(s.pool.workers, P.IsChecking) == 0 by {
      if Sum(s.pool.workers, P.IsChecking) > 0 {
        var w := SumWitness(s.pool.workers, P.IsChecking);
      }
    }
    c := SumWitness(s.pool.clients, P.IsUnnotified);
  }

  /** Queued work never waits for nobody: a worker can move, or one can be woken. */
  lemma QueueMoves(s: Sys) returns (a: Act)
    requires Ready(s) && s.pool.tasks != [] && !P.AllExited(s.pool.workers)
    ensures IsBusy(a) && Can(s, a) && (IsWorkerStep(a) || Rouses(s, a))
  {
    if w :| 0 <= w < |s.pool.workers| && s.pool.workers[w] != P.Asleep && s.pool.workers[w] != P.Exited {
      a := AwakeWorkerMoves(s, w);
    } else {
      assert P.AnyAsleep(s.pool.workers);
      if s.pool.stop {
        NotifyAllRouses(s);
        a := PoolStep(P.NotifyAll);
      } else {
        var c := NotifyIsDue(s);
        a := EnqueueMoves(s, c);
      }
    }
  }

  /** After stop_ somebody can move until every worker has exited: a sleeper has notify_all coming. */
  lemma StoppedMoves(s: Sys)
    requires Ready(s) && s.pool.stop && !P.AllExited(s.pool.workers)
    ensures SomebodyCanMove(s)
  {
    var w :| 0 <= w < |s.pool.workers| && s.pool.workers[w] != P.Exited;
    if s.pool.workers[w] == P.Asleep {
      NotifyAllRouses(s);
    } else {
      var a := AwakeWorkerMoves(s, w);
    }
  }

  /** Handler h waits for a promise that nobody is left to set: its task is queued, and every worker
      has exited. */
  ghost predicate Stranded(s: Sys, h: nat) {
    && h < |s.handlers| && s.handlers[h].phase == Queued && h in s.pool.tasks
    && Pooled(s) && P.AllExited(s.pool.workers)
  }

  /** A handler whose task was pushed gets on, or a worker does for it, or no worker is left. */
  lemma QueuedMoves(s: Sys, h: nat) returns (a: Act)
    requires Ready(s) && h < |s.handlers| && s.handlers[h].phase == Queued && !Stranded(s, h)
    ensures IsBusy(a) && Can(s, a) && Helps(s, a, h)
  {
    assert HandlerOk(s.handlers[h], s.pool.clients[h], Pooled(s));
    if s.pool.clients[h] != P.Submitted {
      a := EnqueueMoves(s, h);
    } else if h in s.pool.tasks {
      a := QueueMoves(s);
    } else {
      JobProgress(s, h);
      if s.handlers[h].promises > 0 {
        a := Return(h);
      } else {
        assert h !in s.pool.executed;
        var w :| 0 <= w < |s.pool.workers| && s.pool.workers[w] == P.Running(h);
        assert JobOk(s, h, s.pcs[w]);
        a := RunningWorkerMoves(s, w, h);
      }
    }
  }

  lemma InlineMoves(s: Sys, h: nat) returns (a: Act)
    requires HandlersOk(s) && NoThrow(s) && h < |s.handlers| && s.handlers[h].phase.Inline?
    ensures IsBusy(a) && Can(s, a) && IsOwn(a, h)
  {
    assert HandlerOk(s.handlers[h], s.pool.clients[h], Pooled(s));
    match s.handlers[h].phase.pc
    case LookedUp(_) => a := InlineWrite(h);
    case Wrote(_) => a := InlineTally(h);
    case Tallied => a := Return(h);
  }

  /** As long as a call has not returned and is not stranded, some thread can take a step for it; until
      its task is pushed, its own handler can. */
  lemma CallMoves(s: Sys, h: nat) returns (a: Act)
    requires Ready(s) && h < |s.handlers| && s.handlers[h].phase != Returned && !Stranded(s, h)
    ensures IsBusy(a) && Can(s, a) && Helps(s, a, h)
    ensures s.handlers[h].phase != Queued ==> IsOwn(a, h)
  {
    var hd := s.handlers[h];
    assert HandlerOk(hd, s.pool.clients[h], Pooled(s));
    match hd.phase
    case Called => a := if hd.call.Classify? then Enter(h) else Serve(h);
    case Entered => a := if Pooled(s) then PoolStep(P.Push(h)) else InlineLookUp(h);
    case Queued => a := QueuedMoves(s, h);
    case Served => a := Return(h);
    case Inline(_) => a := InlineMoves(s, h);
  }

  ghost predicate AllReturned(s: Sys) {
    forall h :: 0 <= h < |s.handlers| ==> s.handlers[h].phase == Returned
  }

  /** The pool has lost its last worker, and a task was pushed after that worker exited. */
  ghost predicate PushedTooLate(s: Sys) {
    Pooled(s) && P.AllExited(s.pool.workers) && s.pool.exitMark < |s.pool.pushed|
  }

  /** A task pushed too late is some handler's, and that handler is stranded. */
  lemma LatePushStrands(s: Sys)
    requires SysInv(s) && PushedTooLate(s)
    ensures exists h :: Stranded(s, h)
  {
    assert s.pool.tasks != [];
    var h := s.pool.tasks[0];
    assert h in s.pool.tasks;
    assert Stranded(s, h);
  }

  /** A state in which no thread with work can move. */
  lemma AtRest(s: Sys)
    requires SysInv(s) && !SomebodyCanMove(s)
    ensures forall h :: 0 <= h < |s.handlers| && s.handlers[h].phase != Returned ==> Stranded(s, h)
    ensures AllReturned(s) <==> !PushedTooLate(s)
    ensures s.pool.stop ==> P.AllExited(s.pool.workers)
  {
    NothingThrows(s);
    forall h | 0 <= h < |s.handlers| && s.handlers[h].phase != Returned
      ensures Stranded(s, h) && PushedTooLate(s)
    {
      if !Stranded(s, h) {
        var a := CallMoves(s, h);
      }
    }
    if PushedTooLate(s) {
      LatePushStrands(s);
    }
    if s.pool.stop && !P.AllExited(s.pool.workers) {
      StoppedMoves(s);
    }
  }

  /** Every call is answered, unless it was pushed too late. In either mode, from any reachable state
      and in every continuation (new calls, spurious wakeups and the destructor included), the threads
      with work to do take at most Load(s) steps, 13 more for each call that arrives and one more for
      each spurious wakeup. When none of them can move, each call that has not returned is one whose
      task is queued with every worker gone; all calls have returned if and only if nothing was pushed
      after the last worker exited; and a pool being destroyed has no worker left. */
  lemma EveryCallReturns(n: nat, acts: seq<Act>, s: Sys, more: seq<Act>)
    requires Reaches(n, acts, s) && CanRun(s, more)
    ensures Sum(more, BusyStep) + Load(RunFrom(s, more)) <=
      Load(s) + 13 * Sum(more, Arrival) + Sum(more, SpuriousWakeup)
    ensures var t := RunFrom(s, more);
      !SomebodyCanMove(t) ==>
        && (forall h :: 0 <= h < |t.handlers| && t.handlers[h].phase != Returned ==> Stranded(t, h))
        && (AllReturned(t) <==> !PushedTooLate(t))
        && (if t.pool.stop then P.AllExited(t.pool.workers) else AllReturned(t))
  {
    ReachableInv(n, acts, s);
    WorkBounded(s, more);
    RunKeeps(s, more);
    var t := RunFrom(s, more);
    if !SomebodyCanMove(t) {
      AtRest(t);
      assert Pooled(t) && P.AllExited(t.pool.workers) ==> t.pool.workers[0] == P.Exited;
    }
  }

  // ---- The calls that are not answered -------------------------------------------------------

  /** With every worker gone the pool's steps only add to its queue. */
  lemma QueueOnlyGrows(p: P.Pool, b: P.Step)
    requires P.AllExited(p.workers) && P.Enabled(p, b)
    ensures P.Do(p, b).workers == p.workers && p.tasks <= P.Do(p, b).tasks
  {
    assert !P.AnyAsleep(p.workers);
  }

  lemma StrandedStaysByPool(s: Sys, h: nat, b: P.Step)
    requires Stranded(s, h) && Can(s, PoolStep(b))
    ensures Stranded(Next(s, PoolStep(b)), h)
  {
    QueueOnlyGrows(s.pool, b);
  }

  lemma StrandedStays(s: Sys, h: nat, a: Act)
    requires |s.pcs| == |s.pool.workers| && JobsOk(s) && Stranded(s, h) && Can(s, a)
    ensures Stranded(Next(s, a), h)
  {
    if a.PoolStep? {
      StrandedStaysByPool(s, h, a.a);
    } else if a.Arrive? {
      assert Next(s, a).handlers[h] == s.handlers[h];
    } else {
      assert Progress(s.handlers[h], Start);
      assert !IsWork(a);
      assert a.h != h;
    }
  }

  lemma {:induction false} StaysStranded(s: Sys, h: nat, more: seq<Act>)
    requires SysInv(s) && Stranded(s, h) && CanRun(s, more)
    ensures Stranded(RunFrom(s, more), h) && SysInv(RunFrom(s, more))
    decreases |more|
  {
    if more != [] {
      StepKeeps(s, more[0]);
      StrandedStays(s, h, more[0]);
      StaysStranded(Next(s, more[0]), h, more[1..]);
    }
  }

  /** A stranded call waits for ever: whatever else happens it does not return, nobody works on it,
      and its promise is never set. */
  lemma StrandedNeverReturns(n: nat, acts: seq<Act>, s: Sys, h: nat, more: seq<Act>)
    requires Reaches(n, acts, s) && Stranded(s, h) && CanRun(s, more)
    ensures Stranded(RunFrom(s, more), h)
    ensures var hd := RunFrom(s, more).handlers[h];
      hd.phase == Queued && hd.promises == 0 && hd.point == None && hd.resp == None
  {
    ReachableInv(n, acts, s);
    StaysStranded(s, h, more);
    assert Progress(RunFrom(s, more).handlers[h], Start);
  }

  lemma {:induction false} OneMore(s: Sys, acts: seq<Act>, a: Act)
    requires CanRun(s, acts) && Can(RunFrom(s, acts), a)
    ensures CanRun(s, acts + [a]) && RunFrom(s, acts + [a]) == Next(RunFrom(s, acts), a)
    decreases |acts|
  {
    if acts == [] {
      assert [a][1..] == [] && acts + [a] == [a];
    } else {
      assert (acts + [a])[1..] == acts[1..] + [a];
      OneMore(Next(s, acts[0]), acts[1..], a);
    }
  }

  /** The next step of a run of a UPF with one worker. */
  lemma Then(acts: seq<Act>, s: Sys, a: Act) returns (longer: seq<Act>, t: Sys)
    requires Reaches(1, acts, s) && Can(s, a)
    ensures Reaches(1, longer, t) && t == Next(s, a)
  {
    OneMore(Init(1), acts, a);
    longer, t := acts + [a], Next(s, a);
  }

  /** One worker and one packet: the call is entered, the destructor stores stop_ and notifies, and the
      worker exits. */
  lemma WorkerGoesFirst(p: Packet) returns (acts: seq<Act>, s: Sys)
    ensures Reaches(1, acts, s)
    ensures s.handlers == [Handler(Classify(p), Entered, None, 0, 0, 0, None, false)]
    ensures s.pool.workers == [P.Exited] && s.pool.clients == [P.Idle] && s.pool.tasks == []
    ensures s.pool.teardown == P.Joining
  {
    acts, s := [], Init(1);
    acts, s := Then(acts, s, Arrive(Classify(p)));
    acts, s := Then(acts, s, Enter(0));
    acts, s := Then(acts, s, PoolStep(P.SetStop));
    acts, s := Then(acts, s, PoolStep(P.NotifyAll));
    acts, s := Then(acts, s, PoolStep(P.Check(0)));
  }

  lemma NobodyLeft(s: Sys)
    requires |s.handlers| == 1 && s.handlers[0].phase == Queued && s.handlers[0].promises == 0
    requires s.pool.workers == [P.Exited] && s.pool.clients == [P.Submitted]
    requires s.pool.teardown == P.Joining
    ensures !SomebodyCanMove(s)
  {
  }

  /** It happens: then the call pushes, notifies and counts, and now nobody can move and the call has
      not returned. */
  lemma LateCallHangs(p: Packet) returns (acts: seq<Act>, s: Sys)
    ensures Reaches(1, acts, s) && Stranded(s, 0) && s.handlers[0].call == Classify(p)
    ensures !SomebodyCanMove(s)
  {
    acts, s := WorkerGoesFirst(p);
    acts, s := Then(acts, s, PoolStep(P.Push(0)));
    acts, s := Then(acts, s, PoolStep(P.NotifyOne(0, 0)));
    acts, s := Then(acts, s, PoolStep(P.CountSubmitted(0)));
    NobodyLeft(s);
  }
}
