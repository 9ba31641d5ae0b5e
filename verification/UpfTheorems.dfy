/** What callers of the running UPF can rely on, in every interleaving. */
module UpfTheorems {
  import opened Sums
  import opened SessionTable
  import opened SessionHistory
  import opened PooledUpf
  import P = PoolMachine
  import PT = PoolTheorems

  /** Handler h's call takes effect at position k of the log, between its start and its return, and
      the answer recorded there is the one the caller receives. */
  ghost predicate EffectAt(s: Sys, h: nat, k: nat) {
    && h < |s.handlers| && s.handlers[h].calledAt <= k < s.handlers[h].returnedAt && k < |s.log|
    && s.handlers[h].resp.Some?
    && s.log[k] == Op(h, s.handlers[h].call, s.handlers[h].resp.value)
  }

  /** Linearizability. In every interleaving of establish, release and classify calls, pooled or
      not, the log is a legal run of the single-threaded UPF that leaves the same tables; each call
      occurs in it at most once; every call that has returned occurs in it, between its start and
      its return and with the answer its caller got; and a call that returned before another began
      comes before it. */
  lemma Linearizable(n: nat, acts: seq<Act>, s: Sys)
    requires Reaches(n, acts, s)
    ensures Legal(s.log) && SameTables(s.upf, Replay(s.log))
    ensures forall j, k :: 0 <= j < k < |s.log| ==> s.log[j].caller != s.log[k].caller
    ensures forall k :: 0 <= k < |s.log| ==>
      s.log[k].caller < |s.handlers| && s.log[k].call == s.handlers[s.log[k].caller].call
    ensures forall h :: 0 <= h < |s.handlers| && s.handlers[h].phase == Returned ==>
      exists k :: EffectAt(s, h, k)
    ensures forall g: nat, j: nat, k: nat ::
      (EffectAt(s, g, j) && k < |s.log| &&
       s.handlers[g].returnedAt <= s.handlers[s.log[k].caller].calledAt) ==> j < k
  {
    ReachableInv(n, acts, s);
    forall j, k | 0 <= j < k < |s.log|
      ensures s.log[j].caller != s.log[k].caller
    {
      assert InLog(s, s.log[j].caller, j) && InLog(s, s.log[k].caller, k);
    }
    forall k | 0 <= k < |s.log|
      ensures s.log[k].caller < |s.handlers| && s.log[k].call == s.handlers[s.log[k].caller].call
      ensures s.handlers[s.log[k].caller].calledAt <= k
    {
      assert InLog(s, s.log[k].caller, k) && PointOk(s, s.log[k].caller);
    }
    forall h | 0 <= h < |s.handlers| && s.handlers[h].phase == Returned
      ensures exists k :: EffectAt(s, h, k)
    {
      assert PointOk(s, h) && HandlerOk(s.handlers[h], s.pool.clients[h], Pooled(s));
      var k := s.handlers[h].point.value.at;
      assert InLog(s, s.log[k].caller, k);
      assert EffectAt(s, h, k);
    }
  }

  /** The answer at position k is the one the inline path gives in the state at that instant, and
      that path does not throw. */
  lemma RepliesAreInlineReplies(n: nat, acts: seq<Act>, s: Sys, k: nat)
    requires Reaches(n, acts, s) && k < |s.log| && s.log[k].call.Classify?
    ensures var p := s.log[k].call.packet;
      && s.log[k].resp == Classified(Decide(Lookup(Replay(s.log[..k]), p.srcIp), p))
      && s.log[k].resp.outcome.Decided?
  {
    ReachableInv(n, acts, s);
    ReplayKeepsTables(s.log[..k]);
    assert s.log[k].resp == Apply(Replay(s.log[..k]), s.log[k].call).1;
  }

  /** The concurrent tables by history: at every instant ue_to_session_[ip] is id exactly when id is
      the latest session established for ip and no session with that address was released since. */
  lemma IndexByHistory(n: nat, acts: seq<Act>, s: Sys, id: string, ip: string)
    requires Reaches(n, acts, s)
    ensures (ip in s.upf.index && s.upf.index[ip] == id) <==> LatestFor(s.log, id, ip)
    ensures (id in s.upf.sessions && s.upf.sessions[id].ueIp == ip) <==> LiveFor(s.log, id, ip)
    ensures LatestFor(s.log, id, ip) ==> LiveFor(s.log, id, ip)
  {
    ReachableInv(n, acts, s);
    TablesByHistory(s.log);
    ReplayKeepsTables(s.log);
    if LatestFor(s.log, id, ip) {
      assert ip in Replay(s.log).index && Replay(s.log).index[ip] == id;
    }
  }

  /** What a pushed classification has come to, wherever its task is. */
  lemma JobProgress(s: Sys, h: nat)
    requires P.PoolInv(s.pool) && HandlersOk(s) && JobsOk(s)
    requires h < |s.handlers| && s.pool.clients[h] != P.Idle
    ensures h in s.pool.tasks || h in s.pool.executed || P.RunBy(s.pool, h)
    ensures exists pc :: Progress(s.handlers[h], pc)
  {
    assert h in s.pool.pushed;
    if h in s.pool.tasks {
      assert Progress(s.handlers[h], Start);
    } else if h in s.pool.executed {
      assert Progress(s.handlers[h], Fulfilled);
    } else {
      assert h in s.pool.dequeued;
      var w :| 0 <= w < |s.pool.workers| && s.pool.workers[w] == P.Running(h);
      assert JobOk(s, h, s.pcs[w]);
    }
  }

  lemma PromisedOnce(s: Sys, h: nat)
    requires SysInv(s) && h < |s.handlers|
    ensures s.handlers[h].promises <= 1
  {
    assert HandlerOk(s.handlers[h], s.pool.clients[h], Pooled(s));
    if s.pool.clients[h] != P.Idle {
      JobProgress(s, h);
    }
  }

  /** Memory safety of the reply. A worker writes a handler's response, and later sets its promise,
      only while that handler is still waiting; each does so once. */
  lemma WritesWhileWaiting(n: nat, acts: seq<Act>, s: Sys, w: nat)
    requires Reaches(n, acts, s)
    ensures Can(s, WriteReply(w)) ==>
      var hd := s.handlers[s.pool.workers[w].task];
      hd.phase == Queued && hd.resp == None && hd.promises == 0
    ensures Can(s, Fulfil(w)) ==>
      var hd := s.handlers[s.pool.workers[w].task];
      hd.phase == Queued && hd.resp.Some? && hd.promises == 0
    ensures forall h :: 0 <= h < |s.handlers| ==> s.handlers[h].promises <= 1
  {
    ReachableInv(n, acts, s);
    if Can(s, WriteReply(w)) || Can(s, Fulfil(w)) {
      assert JobOk(s, s.pool.workers[w].task, s.pcs[w]);
    }
    forall h | 0 <= h < |s.handlers|
      ensures s.handlers[h].promises <= 1
    {
      PromisedOnce(s, h);
    }
  }

  // ---- Packet counters -----------------------------------------------------------------------

  /** A packet counted at entry whose outcome has not been counted yet. */
  function InFlight(hd: Handler): nat {
    if hd.call.Classify? && hd.phase != Called && !hd.tallied then 1 else 0
  }

  function Owes(hd: Handler): nat { OwesForward(hd) + OwesDrop(hd) }

  function One(b: bool): nat { if b then 1 else 0 }

  function HasEntered(hd: Handler): nat { if hd.call.Classify? && hd.phase != Called then 1 else 0 }

  function CountedForward(hd: Handler): nat {
    if hd.tallied && hd.point.Some? && hd.point.value.resp.Classified? && Forwards(hd.point.value.resp.outcome)
    then 1 else 0
  }

  function CountedDrop(hd: Handler): nat {
    if hd.tallied && hd.point.Some? && hd.point.value.resp.Classified? && Drops(hd.point.value.resp.outcome)
    then 1 else 0
  }

  /** Each counter is the number of handlers that have counted in it. */
  ghost predicate Tallies(s: Sys) {
    && s.upf.packets == Sum(s.handlers, HasEntered)
    && s.upf.forwarded == Sum(s.handlers, CountedForward)
    && s.upf.dropped == Sum(s.handlers, CountedDrop)
  }

  lemma OneHandlerTallies(s: Sys, h: nat, hd: Handler)
    requires h < |s.handlers|
    ensures var t := s.handlers[h := hd];
      && Sum(t, HasEntered) + HasEntered(s.handlers[h]) == Sum(s.handlers, HasEntered) + HasEntered(hd)
      && Sum(t, CountedForward) + CountedForward(s.handlers[h]) == Sum(s.handlers, CountedForward) + CountedForward(hd)
      && Sum(t, CountedDrop) + CountedDrop(s.handlers[h]) == Sum(s.handlers, CountedDrop) + CountedDrop(hd)
  {
    SumUpdate(s.handlers, h, hd, HasEntered);
    SumUpdate(s.handlers, h, hd, CountedForward);
    SumUpdate(s.handlers, h, hd, CountedDrop);
  }

  /** A worker counts the outcome of the handler it works for, when it tallies. */
  lemma WorkerCounts(s: Sys, a: Act)
    requires HandlersOk(s) && JobsOk(s) && Can(s, a) && IsWork(a)
    ensures var hd, hd' := s.handlers[Subject(s, a)], Next(s, a).handlers[Subject(s, a)];
      && HasEntered(hd') == HasEntered(hd)
      && CountedForward(hd') == CountedForward(hd) + One(a.Tally? && Forwards(s.pcs[a.w].outcome))
      && CountedDrop(hd') == CountedDrop(hd) + One(a.Tally? && !Forwards(s.pcs[a.w].outcome))
  {
    assert JobOk(s, Subject(s, a), s.pcs[a.w]);
  }

  lemma TalliesKeptByWork(s: Sys, a: Act)
    requires HandlersOk(s) && JobsOk(s) && Tallies(s) && Can(s, a) && IsWork(a)
    ensures Tallies(Next(s, a))
  {
    var s', h := Next(s, a), Subject(s, a);
    WorkerCounts(s, a);
    assert s'.handlers == s.handlers[h := s'.handlers[h]];
    OneHandlerTallies(s, h, s'.handlers[h]);
  }

  /** A handler that moves on its own counts itself at its entry and, inline, at its tally. */
  lemma HandlerCountsItself(s: Sys, a: Act)
    requires HandlersOk(s) && Can(s, a) && !IsWork(a) && !a.PoolStep? && !a.Arrive? && !a.Return?
    ensures var hd, hd' := s.handlers[a.h], Next(s, a).handlers[a.h];
      && HasEntered(hd') == HasEntered(hd) + One(a.Enter?)
      && CountedForward(hd') ==
           CountedForward(hd) + One(a.InlineTally? && Forwards(s.handlers[a.h].phase.pc.outcome))
      && CountedDrop(hd') ==
           CountedDrop(hd) + One(a.InlineTally? && !Forwards(s.handlers[a.h].phase.pc.outcome))
  {
    assert HandlerOk(s.handlers[a.h], s.pool.clients[a.h], Pooled(s));
  }

  lemma TalliesKeptByHandler(s: Sys, a: Act)
    requires HandlersOk(s) && Tallies(s) && Can(s, a)
    requires !IsWork(a) && !a.PoolStep? && !a.Arrive? && !a.Return?
    ensures Tallies(Next(s, a))
  {
    var s' := Next(s, a);
    HandlerCountsItself(s, a);
    assert s'.handlers == s.handlers[a.h := s'.handlers[a.h]];
    OneHandlerTallies(s, a.h, s'.handlers[a.h]);
  }

  lemma TalliesKeptByReturn(s: Sys, h: nat)
    requires Tallies(s) && Can(s, Return(h))
    ensures Tallies(Next(s, Return(h)))
  {
    OneHandlerTallies(s, h, Next(s, Return(h)).handlers[h]);
  }

  lemma TalliesKeptByPool(s: Sys, b: P.Step)
    requires HandlersOk(s) && Tallies(s) && Can(s, PoolStep(b))
    ensures Tallies(Next(s, PoolStep(b)))
  {
    if b.Push? {
      OneHandlerTallies(s, b.c, Next(s, PoolStep(b)).handlers[b.c]);
    }
  }

  lemma TalliesKeptByArrival(s: Sys, call: Call)
    requires Tallies(s)
    ensures Tallies(Next(s, Arrive(call)))
  {
    var hd := Next(s, Arrive(call)).handlers[|s.handlers|];
    SumAppend(s.handlers, hd, HasEntered);
    SumAppend(s.handlers, hd, CountedForward);
    SumAppend(s.handlers, hd, CountedDrop);
  }

  lemma {:induction false} TalliesRun(s: Sys, more: seq<Act>)
    requires SysInv(s) && Tallies(s) && CanRun(s, more)
    ensures Tallies(RunFrom(s, more))
    decreases |more|
  {
    if more != [] {
      StepKeeps(s, more[0]);
      if IsWork(more[0]) {
        TalliesKeptByWork(s, more[0]);
      } else if more[0].PoolStep? {
        TalliesKeptByPool(s, more[0].a);
      } else if more[0].Arrive? {
        TalliesKeptByArrival(s, more[0].call);
      } else if more[0].Return? {
        TalliesKeptByReturn(s, more[0].h);
      } else {
        TalliesKeptByHandler(s, more[0]);
      }
      TalliesRun(Next(s, more[0]), more[1..]);
    }
  }

  /** What the three counters count, at every instant of every interleaving: the ClassifyPacket calls
      that have been entered, and of those whose outcome has been counted the ones decided FORWARD and
      the ones decided DROP. */
  lemma CountersByCalls(n: nat, acts: seq<Act>, s: Sys)
    requires Reaches(n, acts, s)
    ensures s.upf.packets == Sum(s.handlers, HasEntered)
    ensures s.upf.forwarded == Sum(s.handlers, CountedForward)
    ensures s.upf.dropped == Sum(s.handlers, CountedDrop)
  {
    InitHolds(n);
    TalliesRun(Init(n), acts);
  }

  /** The answer a call got when it took effect is of the call's own kind, and no exception. */
  lemma PointIsAnswer(s: Sys, h: nat)
    requires LogOk(s) && h < |s.handlers| && s.handlers[h].point.Some?
    ensures var r := s.handlers[h].point.value.resp;
      (r.Classified? <==> s.handlers[h].call.Classify?) && (r.Classified? ==> r.outcome.Decided?)
  {
    var k := s.handlers[h].point.value.at;
    assert PointOk(s, h) && InLog(s, s.log[k].caller, k);
    assert s.log[k].resp == Apply(Replay(s.log[..k]), s.log[k].call).1;
    ApplyCounts(Replay(s.log[..k]), s.log[k].call);
    ReplayKeepsTables(s.log[..k]);
    if s.log[k].call.Classify? {
      NeverThrows(Replay(s.log[..k]), s.log[k].call.packet);
    }
  }

  /** Outcomes are counted, and calls take effect, only after they have been entered. */
  lemma TalliedIsServed(s: Sys, h: nat)
    requires P.PoolInv(s.pool) && HandlersOk(s) && JobsOk(s) && h < |s.handlers|
    ensures s.handlers[h].tallied ==> s.handlers[h].point.Some?
    ensures s.handlers[h].phase == Called ==> s.handlers[h].point == None
  {
    assert HandlerOk(s.handlers[h], s.pool.clients[h], Pooled(s));
    if s.pool.clients[h] != P.Idle {
      JobProgress(s, h);
    }
  }

  /** A packet in flight has not been looked up, or owes exactly one of the two outcome counters. */
  lemma FlightSplits(s: Sys, h: nat)
    requires SysInv(s) && h < |s.handlers|
    ensures InFlight(s.handlers[h]) == IsUnserved(s.handlers[h]) + Owes(s.handlers[h])
  {
    TalliedIsServed(s, h);
    if s.handlers[h].point.Some? {
      PointIsAnswer(s, h);
    }
  }

  /** Packet conservation at every instant of every interleaving, pooled or inline: the packets
      counted are those forwarded, those dropped, and those in flight. */
  lemma PacketsConserved(n: nat, acts: seq<Act>, s: Sys)
    requires Reaches(n, acts, s)
    ensures s.upf.packets == s.upf.forwarded + s.upf.dropped + Sum(s.handlers, InFlight)
  {
    ReachableInv(n, acts, s);
    ReplayConserves(s.log);
    forall h | 0 <= h < |s.handlers|
      ensures InFlight(s.handlers[h]) == IsUnserved(s.handlers[h]) + Owes(s.handlers[h])
    {
      FlightSplits(s, h);
    }
    SumPlus(s.handlers, OwesForward, OwesDrop, Owes);
    SumPlus(s.handlers, IsUnserved, Owes, InFlight);
  }

  lemma NothingOwed(hs: seq<Handler>, f: Handler -> nat)
    requires forall h :: 0 <= h < |hs| ==> f(hs[h]) == 0
    ensures Sum(hs, f) == 0
  {
    if Sum(hs, f) > 0 {
      var h := SumWitness(hs, f);
    }
  }

  /** With every call answered, the whole UPF state, counters included, is the one the
      single-threaded UPF reaches by the log; so every packet has been forwarded or dropped. */
  lemma QuiescentIsSequential(n: nat, acts: seq<Act>, s: Sys)
    requires Reaches(n, acts, s) && forall h :: 0 <= h < |s.handlers| ==> s.handlers[h].phase == Returned
    ensures s.upf == Replay(s.log)
    ensures s.upf.packets == s.upf.forwarded + s.upf.dropped
  {
    ReachableInv(n, acts, s);
    forall h | 0 <= h < |s.handlers|
      ensures IsUnserved(s.handlers[h]) == OwesForward(s.handlers[h]) == OwesDrop(s.handlers[h]) == 0
    {
      assert PointOk(s, h) && HandlerOk(s.handlers[h], s.pool.clients[h], Pooled(s));
      var k := s.handlers[h].point.value.at;
      assert InLog(s, s.log[k].caller, k);
      ApplyCounts(Replay(s.log[..k]), s.log[k].call);
    }
    NothingOwed(s.handlers, IsUnserved);
    NothingOwed(s.handlers, OwesForward);
    NothingOwed(s.handlers, OwesDrop);
    ReplayConserves(s.log);
  }

  // ---- The pool inside the UPF ---------------------------------------------------------------

  /** The pool's share of a run: its own steps, and a new client for each call that arrives. */
  function PoolSteps(acts: seq<Act>): seq<P.Step> {
    if acts == [] then []
    else
      (match acts[0]
       case Arrive(_) => [P.NewClient]
       case PoolStep(b) => [b]
       case _ => [])
      + PoolSteps(acts[1..])
  }

  lemma {:induction false} PoolRuns(s: Sys, acts: seq<Act>)
    requires CanRun(s, acts)
    ensures P.CanRun(s.pool, PoolSteps(acts)) && P.RunFrom(s.pool, PoolSteps(acts)) == RunFrom(s, acts).pool
    decreases |acts|
  {
    if acts != [] {
      PoolRuns(Next(s, acts[0]), acts[1..]);
      var rest := PoolSteps(acts[1..]);
      assert [P.NewClient] + rest == PoolSteps(acts) || acts[0].PoolStep? || [] + rest == rest;
      if acts[0].Arrive? {
        assert ([P.NewClient] + rest)[1..] == rest;
      } else if acts[0].PoolStep? {
        assert ([acts[0].a] + rest)[1..] == rest;
      } else {
        assert [] + rest == rest;
      }
    }
  }

  /** The pool inside the UPF is a run of the pool machine, so every invariant and law proved of all
      reachable states of the machine holds of it. What can still move is another matter: a worker of
      the UPF leaves its task only when the promise is set (see UpfLiveness). */
  lemma PoolRefined(n: nat, acts: seq<Act>, s: Sys)
    requires Reaches(n, acts, s)
    ensures P.Reaches(n, PoolSteps(acts), s.pool)
  {
    PoolRuns(Init(n), acts);
  }

  /** A UPF started with n threads has n workers in every state, and so works in pooled mode exactly
      if n is positive. */
  lemma WorkerCount(n: nat, acts: seq<Act>, s: Sys)
    requires Reaches(n, acts, s)
    ensures |s.pool.workers| == n && |s.pcs| == n && (Pooled(s) <==> n > 0)
  {
    PoolRefined(n, acts, s);
    PT.WorkerCount(n, PoolSteps(acts), s.pool);
    ReachableInv(n, acts, s);
  }

  // ---- Real time -----------------------------------------------------------------------------

  /** A call keeps the instants at which it was made and at which it returned. */
  ghost predicate StampsKept(s: Sys, t: Sys) {
    && |s.handlers| <= |t.handlers| && |s.log| <= |t.log|
    && forall h :: 0 <= h < |s.handlers| ==>
         && t.handlers[h].calledAt == s.handlers[h].calledAt
         && (s.handlers[h].phase == Returned ==>
               t.handlers[h].phase == Returned && t.handlers[h].returnedAt == s.handlers[h].returnedAt)
  }

  lemma WorkKeepsStamps(s: Sys, a: Act)
    requires HandlersOk(s) && JobsOk(s) && Can(s, a) && IsWork(a)
    ensures StampsKept(s, Next(s, a))
  {
    assert JobOk(s, Subject(s, a), s.pcs[a.w]);
  }

  lemma PoolKeepsStamps(s: Sys, b: P.Step)
    requires Can(s, PoolStep(b))
    ensures StampsKept(s, Next(s, PoolStep(b)))
  {
  }

  lemma StepKeepsStamps(s: Sys, a: Act)
    requires HandlersOk(s) && JobsOk(s) && Can(s, a)
    ensures StampsKept(s, Next(s, a))
  {
    if IsWork(a) {
      WorkKeepsStamps(s, a);
    } else if a.PoolStep? {
      PoolKeepsStamps(s, a.a);
    }
  }

  lemma {:induction false} RunKeepsStamps(s: Sys, more: seq<Act>)
    requires SysInv(s) && CanRun(s, more)
    ensures StampsKept(s, RunFrom(s, more))
    decreases |more|
  {
    if more != [] {
      StepKeeps(s, more[0]);
      StepKeepsStamps(s, more[0]);
      RunKeepsStamps(Next(s, more[0]), more[1..]);
    }
  }

  lemma {:induction false} CallKept(s: Sys, more: seq<Act>, h: nat)
    requires CanRun(s, more) && h < |s.handlers|
    ensures h < |RunFrom(s, more).handlers| && RunFrom(s, more).handlers[h].call == s.handlers[h].call
    decreases |more|
  {
    if more != [] {
      CallKept(Next(s, more[0]), more[1..], h);
    }
  }

  /** A call that returned before another was made comes first in the log. */
  lemma StampsOrder(s: Sys, g: nat, h: nat)
    requires LogOk(s) && g < |s.handlers| && h < |s.handlers|
    requires s.handlers[g].phase == Returned && s.handlers[g].returnedAt <= s.handlers[h].calledAt
    ensures forall j, k ::
      0 <= j < |s.log| && 0 <= k < |s.log| && s.log[j].caller == g && s.log[k].caller == h ==> j < k
  {
    forall j, k | 0 <= j < |s.log| && 0 <= k < |s.log| && s.log[j].caller == g && s.log[k].caller == h
      ensures j < k
    {
      assert InLog(s, g, j) && InLog(s, h, k) && PointOk(s, g) && PointOk(s, h);
    }
  }

  /** A handler that returns now, and one that begins now, bear the present length of the log. */
  lemma StampedNow(s: Sys, a: Act)
    requires Can(s, a)
    ensures a.Return? ==>
      Next(s, a).handlers[a.h].phase == Returned && Next(s, a).handlers[a.h].returnedAt == |s.log|
    ensures a.Arrive? ==>
      && |Next(s, a).handlers| == |s.handlers| + 1 && Next(s, a).handlers[|s.handlers|].call == a.call
      && Next(s, a).handlers[|s.handlers|].calledAt == |s.log|
  {
  }

  lemma StepThenRun(s: Sys, a: Act, more: seq<Act>)
    requires SysInv(s) && Can(s, a) && CanRun(Next(s, a), more)
    ensures SysInv(RunFrom(Next(s, a), more)) && StampsKept(Next(s, a), RunFrom(Next(s, a), more))
    ensures |s.log| <= |RunFrom(Next(s, a), more).log|
  {
    StepKeeps(s, a);
    StepKeepsStamps(s, a);
    RunKeeps(Next(s, a), more);
    RunKeepsStamps(Next(s, a), more);
  }

  /** Real-time order, said of the run itself: if call g returns, and later call h arrives, then in
      every state after that g's entry in the log comes before h's. */
  lemma RealTimeOrder(n: nat, acts: seq<Act>, s: Sys, g: nat, between: seq<Act>, c: Call, after: seq<Act>)
    requires Reaches(n, acts, s) && Can(s, Return(g)) && CanRun(Next(s, Return(g)), between)
    requires var t := RunFrom(Next(s, Return(g)), between); CanRun(Next(t, Arrive(c)), after)
    ensures var t := RunFrom(Next(s, Return(g)), between);
      var h, u := |t.handlers|, RunFrom(Next(t, Arrive(c)), after);
      && g < h < |u.handlers| && u.handlers[h].call == c
      && forall j, k :: 0 <= j < |u.log| && 0 <= k < |u.log| && u.log[j].caller == g && u.log[k].caller == h ==> j < k
  {
    var s1 := Next(s, Return(g));
    var t := RunFrom(s1, between);
    var t1 := Next(t, Arrive(c));
    var h, u := |t.handlers|, RunFrom(t1, after);
    ReachableInv(n, acts, s);
    StampedNow(s, Return(g));
    StepThenRun(s, Return(g), between);
    StampedNow(t, Arrive(c));
    StepKeepsStamps(t, Arrive(c));
    StepThenRun(t, Arrive(c), after);
    CallKept(t1, after, h);
    assert s1.handlers[g].returnedAt == t.handlers[g].returnedAt == t1.handlers[g].returnedAt;
    StampsOrder(u, g, h);
  }
}
