/** The running UPF: any number of RPC handler threads, the session tables under sessions_mutex_, the
    packet counters, and the classification pool (upf/src/upf_server.cpp, upf/src/thread_pool.h).
    A UPF with no workers is the single-threaded mode, in which each handler classifies for itself;
    its handlers still run concurrently. */
module PooledUpf {
  import opened Sums
  import opened SessionTable
  import P = PoolMachine

  datatype Option<T> = None | Some(value: T)

  /** How far one classification has come: not begun, session looked up, reply written into the
      handler's response, outcome counted, promise set. */
  datatype Pc = Start | LookedUp(found: Found) | Wrote(outcome: Outcome) | Tallied | Fulfilled

  /** Where one RPC handler is. Queued lasts from the push until the handler returns from wait. */
  datatype Phase = Called | Entered | Queued | Inline(pc: Pc) | Served | Returned

  /** The instant at which a call takes effect, as a position in the log, and its answer there. */
  datatype Point = Point(at: nat, resp: Response)

  /** `resp` is the caller's response message and `promises` the number of set_value calls on the
      handler's promise. The rest is history: the log length at the call and at the return, the
      instant the call took effect, and whether its outcome has been counted. */
  datatype Handler = Handler(
    call: Call, phase: Phase, resp: Option<Response>, promises: nat,
    calledAt: nat, returnedAt: nat, point: Option<Point>, tallied: bool)

  /** `pcs[w]` is the progress of worker w through its current task. `log` lists the operations in
      the order in which they took effect. */
  datatype Sys = Sys(pool: P.Pool, pcs: seq<Pc>, handlers: seq<Handler>, upf: Upf, log: seq<Op>)

  datatype Act =
    | Arrive(call: Call)      // an RPC handler starts
    | Enter(h: nat)           // pkt_count_++
    | PoolStep(a: P.Step)     // a step inside the pool's own code
    | LookUp(w: nat)          // a worker's locked lookup
    | WriteReply(w: nat)      // the worker fills in the handler's response
    | Tally(w: nat)           // fwd_count_++ or drop_count_++
    | Fulfil(w: nat)          // promise->set_value()
    | InlineLookUp(h: nat)
    | InlineWrite(h: nat)
    | InlineTally(h: nat)
    | Serve(h: nat)           // EstablishSession or ReleaseSession takes effect
    | Return(h: nat)

  function Init(n: nat): Sys {
    Sys(P.Init(n), seq(n, _ => Fulfilled), [], INIT_UPF, [])
  }

  predicate Pooled(s: Sys) { s.pool.workers != [] }

  predicate Working(s: Sys, w: nat) {
    && w < |s.pool.workers| && w < |s.pcs| && s.pool.workers[w].Running?
    && s.pool.workers[w].task < |s.handlers| && s.handlers[s.pool.workers[w].task].call.Classify?
  }

  function PacketOf(s: Sys, w: nat): Packet
    requires Working(s, w)
  {
    s.handlers[s.pool.workers[w].task].call.packet
  }

  predicate Can(s: Sys, a: Act) {
    match a
    case Arrive(_) => true
    case Enter(h) => h < |s.handlers| && s.handlers[h].phase == Called && s.handlers[h].call.Classify?
    case PoolStep(b) =>
      && P.Enabled(s.pool, b) && !b.NewClient?
      && (b.Push? ==> Pooled(s) && b.c < |s.handlers| && s.handlers[b.c].phase == Entered)
      && (b.Check? ==> b.w < |s.pcs|)
      && (b.Finish? ==> b.w < |s.pcs| && s.pcs[b.w] == Fulfilled)
    case LookUp(w) => Working(s, w) && s.pcs[w] == Start
    case WriteReply(w) =>
      Working(s, w) && s.pcs[w].LookedUp? && Decide(s.pcs[w].found, PacketOf(s, w)).Decided?
    case Tally(w) => Working(s, w) && s.pcs[w].Wrote?
    case Fulfil(w) => Working(s, w) && s.pcs[w] == Tallied
    case InlineLookUp(h) =>
      !Pooled(s) && h < |s.handlers| && s.handlers[h].phase == Entered && s.handlers[h].call.Classify?
    case InlineWrite(h) =>
      && h < |s.handlers| && s.handlers[h].phase.Inline? && s.handlers[h].phase.pc.LookedUp?
      && s.handlers[h].call.Classify?
      && Decide(s.handlers[h].phase.pc.found, s.handlers[h].call.packet).Decided?
    case InlineTally(h) => h < |s.handlers| && s.handlers[h].phase.Inline? && s.handlers[h].phase.pc.Wrote?
    case Serve(h) => h < |s.handlers| && s.handlers[h].phase == Called && !s.handlers[h].call.Classify?
    case Return(h) =>
      && h < |s.handlers|
      && match s.handlers[h].phase
         case Served => true
         case Inline(pc) => pc == Tallied
         case Queued => h < |s.pool.clients| && s.pool.clients[h] == P.Submitted && s.handlers[h].promises > 0
         case _ => false
  }

  function SetHandler(s: Sys, h: nat, hd: Handler): Sys
    requires h < |s.handlers|
  {
    s.(handlers := s.handlers[h := hd])
  }

  /** Handler h's call takes effect now, with answer r. */
  function TakeEffect(s: Sys, h: nat, r: Response): Sys
    requires h < |s.handlers|
  {
    SetHandler(s, h, s.handlers[h].(point := Some(Point(|s.log|, r))))
      .(log := s.log + [Op(h, s.handlers[h].call, r)])
  }

  function Count(u: Upf, o: Outcome): Upf {
    if Forwards(o) then u.(forwarded := u.forwarded + 1) else u.(dropped := u.dropped + 1)
  }

  function Next(s: Sys, a: Act): Sys
    requires Can(s, a)
  {
    match a
    case Arrive(call) =>
      s.(handlers := s.handlers + [Handler(call, Called, None, 0, |s.log|, 0, None, false)],
         pool := P.Do(s.pool, P.NewClient))
    case Enter(h) =>
      SetHandler(s, h, s.handlers[h].(phase := Entered)).(upf := s.upf.(packets := s.upf.packets + 1))
    case PoolStep(b) =>
      var t := s.(pool := P.Do(s.pool, b));
      if b.Push? then SetHandler(t, b.c, t.handlers[b.c].(phase := Queued))
      else if b.Check? && t.pool.workers[b.w].Running? then t.(pcs := t.pcs[b.w := Start])
      else t
    case LookUp(w) =>
      var found := Lookup(s.upf, PacketOf(s, w).srcIp);
      TakeEffect(s, s.pool.workers[w].task, Classified(Decide(found, PacketOf(s, w))))
        .(pcs := s.pcs[w := LookedUp(found)])
    case WriteReply(w) =>
      var h, o := s.pool.workers[w].task, Decide(s.pcs[w].found, PacketOf(s, w));
      SetHandler(s, h, s.handlers[h].(resp := Some(Classified(o)))).(pcs := s.pcs[w := Wrote(o)])
    case Tally(w) =>
      var h := s.pool.workers[w].task;
      SetHandler(s, h, s.handlers[h].(tallied := true))
        .(pcs := s.pcs[w := Tallied], upf := Count(s.upf, s.pcs[w].outcome))
    case Fulfil(w) =>
      var h := s.pool.workers[w].task;
      SetHandler(s, h, s.handlers[h].(promises := s.handlers[h].promises + 1)).(pcs := s.pcs[w := Fulfilled])
    case InlineLookUp(h) =>
      var found := Lookup(s.upf, s.handlers[h].call.packet.srcIp);
      var t := TakeEffect(s, h, Classified(Decide(found, s.handlers[h].call.packet)));
      SetHandler(t, h, t.handlers[h].(phase := Inline(LookedUp(found))))
    case InlineWrite(h) =>
      var o := Decide(s.handlers[h].phase.pc.found, s.handlers[h].call.packet);
      SetHandler(s, h, s.handlers[h].(phase := Inline(Wrote(o)), resp := Some(Classified(o))))
    case InlineTally(h) =>
      SetHandler(s, h, s.handlers[h].(phase := Inline(Tallied), tallied := true))
        .(upf := Count(s.upf, s.handlers[h].phase.pc.outcome))
    case Serve(h) =>
      var (u, r) := Apply(s.upf, s.handlers[h].call);
      var t := TakeEffect(s, h, r);
      SetHandler(t, h, t.handlers[h].(phase := Served, resp := Some(r))).(upf := u)
    case Return(h) =>
      SetHandler(s, h, s.handlers[h].(phase := Returned, returnedAt := |s.log|))
  }

  predicate CanRun(s: Sys, acts: seq<Act>)
    decreases |acts|
  {
    acts == [] || (Can(s, acts[0]) && CanRun(Next(s, acts[0]), acts[1..]))
  }

  function RunFrom(s: Sys, acts: seq<Act>): Sys
    requires CanRun(s, acts)
    decreases |acts|
  {
    if acts == [] then s else RunFrom(Next(s, acts[0]), acts[1..])
  }

  // ---- The invariant -------------------------------------------------------------------------

  /** A handler whose classification has come as far as pc. */
  ghost predicate Progress(hd: Handler, pc: Pc) {
    && hd.call.Classify?
    && (pc == Start <==> hd.point == None)
    && (hd.point.Some? ==> hd.point.value.resp.Classified?)
    && (pc.LookedUp? ==> hd.point.value.resp.outcome == Decide(pc.found, hd.call.packet))
    && (pc.Wrote? ==> hd.point.value.resp.outcome == pc.outcome && pc.outcome.Decided?)
    && (pc.Start? || pc.LookedUp? ==> hd.resp == None)
    && (pc.Wrote? || pc.Tallied? || pc.Fulfilled? ==> hd.resp == Some(hd.point.value.resp))
    && (hd.tallied <==> pc.Tallied? || pc.Fulfilled?)
    && hd.promises == (if pc.Fulfilled? then 1 else 0)
  }

  ghost predicate HandlerOk(hd: Handler, c: P.Client, pooled: bool) {
    && (c != P.Idle ==> pooled && hd.call.Classify? && hd.phase in {Queued, Returned})
    && match hd.phase
       case Called =>
         hd.point == None && hd.resp == None && hd.promises == 0 && !hd.tallied
       case Entered => Progress(hd, Start)
       case Queued => c != P.Idle && hd.call.Classify?
       case Inline(pc) => !pooled && Progress(hd, pc) && pc != Start && pc != Fulfilled
       case Served =>
         !hd.call.Classify? && hd.point.Some? && hd.resp == Some(hd.point.value.resp) && hd.promises == 0
       case Returned =>
         && hd.point.Some? && hd.resp == Some(hd.point.value.resp)
         && (hd.call.Classify? ==> hd.tallied && hd.point.value.resp.Classified?)
         && (hd.call.Classify? && pooled ==> c == P.Submitted)
         && (c == P.Idle ==> hd.promises == 0)
  }

  ghost predicate HandlersOk(s: Sys) {
    && |s.pcs| == |s.pool.workers|
    && |s.pool.clients| == |s.handlers|
    && (forall h :: 0 <= h < |s.handlers| ==> HandlerOk(s.handlers[h], s.pool.clients[h], Pooled(s)))
  }

  ghost predicate JobOk(s: Sys, h: nat, pc: Pc) {
    && h < |s.handlers| && Progress(s.handlers[h], pc)
    && (pc != Fulfilled ==> s.handlers[h].phase == Queued)
  }

  /** A handler whose task is queued, in a worker's hands, or done. */
  ghost predicate JobsOk(s: Sys)
    requires |s.pcs| == |s.pool.workers|
  {
    && (forall h :: h in s.pool.tasks ==>
          h < |s.handlers| && Progress(s.handlers[h], Start) && s.handlers[h].phase == Queued)
    && (forall w :: 0 <= w < |s.pool.workers| && s.pool.workers[w].Running? ==>
          JobOk(s, s.pool.workers[w].task, s.pcs[w]))
    && (forall h :: h in s.pool.executed ==> h < |s.handlers| && Progress(s.handlers[h], Fulfilled))
  }

  ghost predicate SameTables(u: Upf, v: Upf) {
    u.sessions == v.sessions && u.index == v.index && u.nextId == v.nextId
  }

  ghost predicate InLog(s: Sys, h: nat, k: nat)
    requires h < |s.handlers| && k < |s.log|
  {
    s.log[k].call == s.handlers[h].call && s.handlers[h].point == Some(Point(k, s.log[k].resp))
  }

  ghost predicate PointOk(s: Sys, h: nat)
    requires h < |s.handlers|
  {
    var hd := s.handlers[h];
    && hd.calledAt <= |s.log|
    && (hd.point.Some? ==>
          hd.calledAt <= hd.point.value.at < |s.log| && s.log[hd.point.value.at].caller == h)
    && (hd.phase == Returned ==> hd.point.Some? && hd.point.value.at < hd.returnedAt <= |s.log|)
  }

  /** The log is a legal single-threaded history, and it holds exactly one entry for each call that
      has taken effect, placed between that call's start and its return. */
  ghost predicate LogOk(s: Sys) {
    && Legal(s.log) && SameTables(s.upf, Replay(s.log))
    && (forall k :: 0 <= k < |s.log| ==>
          s.log[k].caller < |s.handlers| && InLog(s, s.log[k].caller, k))
    && (forall h :: 0 <= h < |s.handlers| ==> PointOk(s, h))
  }

  function IsUnserved(hd: Handler): nat {
    if hd.call.Classify? && hd.phase != Called && hd.point == None then 1 else 0
  }

  function OwesForward(hd: Handler): nat {
    if hd.point.Some? && hd.point.value.resp.Classified? && Forwards(hd.point.value.resp.outcome) && !hd.tallied
    then 1 else 0
  }

  function OwesDrop(hd: Handler): nat {
    if hd.point.Some? && hd.point.value.resp.Classified? && Drops(hd.point.value.resp.outcome) && !hd.tallied
    then 1 else 0
  }

  /** The three counters, which move at other instants than the log does. */
  ghost predicate CountsOk(s: Sys) {
    var r := Replay(s.log);
    && s.upf.packets == r.packets + Sum(s.handlers, IsUnserved)
    && r.forwarded == s.upf.forwarded + Sum(s.handlers, OwesForward)
    && r.dropped == s.upf.dropped + Sum(s.handlers, OwesDrop)
  }

  ghost predicate SysInv(s: Sys) {
    P.PoolInv(s.pool) && HandlersOk(s) && JobsOk(s) && LogOk(s) && CountsOk(s)
  }

  // ---- Every step keeps it -------------------------------------------------------------------

  /** Each step of the system is a step of the pool or leaves the pool alone. */
  lemma PoolKept(s: Sys, a: Act)
    requires P.PoolInv(s.pool) && Can(s, a)
    ensures P.PoolInv(Next(s, a).pool)
  {
    match a
    case Arrive(_) => P.StepKeeps(s.pool, P.NewClient);
    case PoolStep(b) => P.StepKeeps(s.pool, b);
    case _ =>
  }

  /** A task is queued, with one worker, or done: never two of these. */
  lemma OneOwner(p: P.Pool, w: nat)
    requires P.PoolInv(p) && w < |p.workers| && p.workers[w].Running?
    ensures var h := p.workers[w].task;
      && h !in p.tasks && h !in p.executed && h < |p.clients| && p.clients[h] != P.Idle
      && (forall v :: 0 <= v < |p.workers| && v != w && p.workers[v].Running? ==> p.workers[v].task != h)
  {
    var h := p.workers[w].task;
    var i :| 0 <= i < |p.dequeued| && p.dequeued[i] == h;
    assert p.pushed[i] == h && h in p.pushed;
    forall j | 0 <= j < |p.tasks|
      ensures p.tasks[j] != h
    {
      assert p.pushed[|p.dequeued| + j] == p.tasks[j];
    }
  }

  predicate IsWork(a: Act) {
    a.LookUp? || a.WriteReply? || a.Tally? || a.Fulfil?
  }

  lemma HandlersKeptByWork(s: Sys, a: Act)
    requires P.PoolInv(s.pool) && HandlersOk(s) && JobsOk(s) && Can(s, a) && IsWork(a)
    ensures HandlersOk(Next(s, a))
  {
    OneOwner(s.pool, a.w);
    assert JobOk(s, s.pool.workers[a.w].task, s.pcs[a.w]);
  }

  lemma HandlersKeptByPush(s: Sys, c: nat)
    requires HandlersOk(s) && Can(s, PoolStep(P.Push(c)))
    ensures HandlersOk(Next(s, PoolStep(P.Push(c))))
  {
    assert HandlerOk(s.handlers[c], s.pool.clients[c], Pooled(s));
  }

  lemma HandlersKeptByPool(s: Sys, b: P.Step)
    requires HandlersOk(s) && Can(s, PoolStep(b)) && !b.Push?
    ensures HandlersOk(Next(s, PoolStep(b)))
  {
    var s' := Next(s, PoolStep(b));
    forall h | 0 <= h < |s.handlers|
      ensures HandlerOk(s'.handlers[h], s'.pool.clients[h], Pooled(s'))
    {
      assert HandlerOk(s.handlers[h], s.pool.clients[h], Pooled(s));
    }
  }

  lemma HandlersKeptByArrival(s: Sys, call: Call)
    requires HandlersOk(s)
    ensures HandlersOk(Next(s, Arrive(call)))
  {
  }

  /** A handler that may return has its answer: its promise was set by a finished classification. */
  lemma ReturnsServed(s: Sys, h: nat)
    requires P.PoolInv(s.pool) && HandlersOk(s) && JobsOk(s)
    requires Can(s, Return(h)) && s.handlers[h].phase == Queued
    ensures Progress(s.handlers[h], Fulfilled)
  {
    assert h in s.pool.pushed;
    assert h !in s.pool.tasks;
    assert h in s.pool.dequeued;
    if h !in s.pool.executed {
      assert P.RunBy(s.pool, h);
      var w :| 0 <= w < |s.pool.workers| && s.pool.workers[w] == P.Running(h);
      assert JobOk(s, h, s.pcs[w]);
    }
  }

  /** A handler that moves on its own is in good order before and after. */
  lemma HandlerMoves(s: Sys, a: Act)
    requires P.PoolInv(s.pool) && HandlersOk(s) && JobsOk(s)
    requires Can(s, a) && !IsWork(a) && !a.PoolStep? && !a.Arrive?
    ensures HandlerOk(Next(s, a).handlers[a.h], s.pool.clients[a.h], Pooled(s))
  {
    assert HandlerOk(s.handlers[a.h], s.pool.clients[a.h], Pooled(s));
    if a.Return? && s.handlers[a.h].phase == Queued {
      ReturnsServed(s, a.h);
    }
  }

  lemma HandlersKeptByHandler(s: Sys, a: Act)
    requires P.PoolInv(s.pool) && HandlersOk(s) && JobsOk(s)
    requires Can(s, a) && !IsWork(a) && !a.PoolStep? && !a.Arrive?
    ensures HandlersOk(Next(s, a))
  {
    var s' := Next(s, a);
    HandlerMoves(s, a);
    assert s'.pool == s.pool && s'.pcs == s.pcs && s'.handlers == s.handlers[a.h := s'.handlers[a.h]];
  }

  /** A handler that has not pushed is nobody's task. */
  lemma NotAJob(p: P.Pool, h: nat)
    requires P.PoolInv(p) && h < |p.clients| && p.clients[h] == P.Idle
    ensures h !in p.tasks && h !in p.executed
    ensures forall w :: 0 <= w < |p.workers| && p.workers[w].Running? ==> p.workers[w].task != h
  {
    assert h !in p.pushed;
    assert forall t :: t in p.dequeued ==> t in p.pushed;
  }

  lemma JobsKeptByWork(s: Sys, a: Act)
    requires P.PoolInv(s.pool) && HandlersOk(s) && JobsOk(s) && Can(s, a) && IsWork(a)
    ensures |Next(s, a).pcs| == |Next(s, a).pool.workers| && JobsOk(Next(s, a))
  {
    OneOwner(s.pool, a.w);
    assert JobOk(s, s.pool.workers[a.w].task, s.pcs[a.w]);
    var s' := Next(s, a);
    forall w | 0 <= w < |s'.pool.workers| && s'.pool.workers[w].Running?
      ensures JobOk(s', s'.pool.workers[w].task, s'.pcs[w])
    {
      assert JobOk(s, s.pool.workers[w].task, s.pcs[w]);
    }
  }

  lemma JobsKeptByPush(s: Sys, c: nat)
    requires P.PoolInv(s.pool) && HandlersOk(s) && JobsOk(s) && Can(s, PoolStep(P.Push(c)))
    ensures JobsOk(Next(s, PoolStep(P.Push(c))))
  {
    var s' := Next(s, PoolStep(P.Push(c)));
    NotAJob(s.pool, c);
    assert HandlerOk(s.handlers[c], s.pool.clients[c], Pooled(s));
    forall w | 0 <= w < |s'.pool.workers| && s'.pool.workers[w].Running?
      ensures JobOk(s', s'.pool.workers[w].task, s'.pcs[w])
    {
      assert JobOk(s, s.pool.workers[w].task, s.pcs[w]);
    }
  }

  lemma JobsKeptByFinish(s: Sys, w: nat)
    requires P.PoolInv(s.pool) && HandlersOk(s) && JobsOk(s) && Can(s, PoolStep(P.Finish(w)))
    ensures JobsOk(Next(s, PoolStep(P.Finish(w))))
  {
    var s' := Next(s, PoolStep(P.Finish(w)));
    assert JobOk(s, s.pool.workers[w].task, s.pcs[w]);
    forall v | 0 <= v < |s'.pool.workers| && s'.pool.workers[v].Running?
      ensures JobOk(s', s'.pool.workers[v].task, s'.pcs[v])
    {
      assert JobOk(s, s.pool.workers[v].task, s.pcs[v]);
    }
  }

  lemma JobsKeptByPool(s: Sys, b: P.Step)
    requires P.PoolInv(s.pool) && HandlersOk(s) && JobsOk(s)
    requires Can(s, PoolStep(b)) && !b.Push? && !b.Finish?
    ensures |Next(s, PoolStep(b)).pcs| == |Next(s, PoolStep(b)).pool.workers|
    ensures JobsOk(Next(s, PoolStep(b)))
  {
    var s' := Next(s, PoolStep(b));
    assert s'.handlers == s.handlers && s'.pool.executed == s.pool.executed;
    forall h | h in s'.pool.tasks
      ensures h in s.pool.tasks
    {
    }
    forall w | 0 <= w < |s'.pool.workers| && s'.pool.workers[w].Running?
      ensures JobOk(s', s'.pool.workers[w].task, s'.pcs[w])
    {
      if s.pool.workers[w].Running? {
        assert JobOk(s, s.pool.workers[w].task, s.pcs[w]);
      } else {
        assert s'.pool.workers[w].task in s.pool.tasks;
      }
    }
  }

  /** A change to a handler that is nobody's task. */
  lemma JobsUntouched(s: Sys, h: nat, s': Sys)
    requires P.PoolInv(s.pool) && |s.pcs| == |s.pool.workers| && JobsOk(s)
    requires h < |s.handlers| && h < |s.pool.clients| && s.pool.clients[h] == P.Idle
    requires s'.pool == s.pool && s'.pcs == s.pcs && |s'.handlers| == |s.handlers|
    requires s'.handlers == s.handlers[h := s'.handlers[h]]
    ensures JobsOk(s')
  {
    NotAJob(s.pool, h);
    forall w | 0 <= w < |s'.pool.workers| && s'.pool.workers[w].Running?
      ensures JobOk(s', s'.pool.workers[w].task, s'.pcs[w])
    {
      assert JobOk(s, s.pool.workers[w].task, s.pcs[w]);
    }
  }

  lemma JobsKeptByHandler(s: Sys, a: Act)
    requires P.PoolInv(s.pool) && HandlersOk(s) && JobsOk(s)
    requires Can(s, a) && !IsWork(a) && !a.PoolStep? && !a.Arrive?
    requires s.handlers[a.h].phase != Queued
    ensures |Next(s, a).pcs| == |Next(s, a).pool.workers| && JobsOk(Next(s, a))
  {
    assert HandlerOk(s.handlers[a.h], s.pool.clients[a.h], Pooled(s));
    assert Next(s, a).handlers == s.handlers[a.h := Next(s, a).handlers[a.h]];
    JobsUntouched(s, a.h, Next(s, a));
  }

  lemma JobsKeptByReturn(s: Sys, h: nat)
    requires P.PoolInv(s.pool) && HandlersOk(s) && JobsOk(s)
    requires Can(s, Return(h)) && s.handlers[h].phase == Queued
    ensures JobsOk(Next(s, Return(h)))
  {
    var s' := Next(s, Return(h));
    ReturnsServed(s, h);
    forall w | 0 <= w < |s'.pool.workers| && s'.pool.workers[w].Running?
      ensures JobOk(s', s'.pool.workers[w].task, s'.pcs[w])
    {
      assert JobOk(s, s.pool.workers[w].task, s.pcs[w]);
    }
  }

  lemma JobsKeptByArrival(s: Sys, call: Call)
    requires HandlersOk(s) && JobsOk(s)
    ensures JobsOk(Next(s, Arrive(call)))
  {
    var s' := Next(s, Arrive(call));
    forall w | 0 <= w < |s'.pool.workers| && s'.pool.workers[w].Running?
      ensures JobOk(s', s'.pool.workers[w].task, s'.pcs[w])
    {
      assert JobOk(s, s.pool.workers[w].task, s.pcs[w]);
    }
  }

  // ---- The log -------------------------------------------------------------------------------

  /** The tables alone decide every answer and the next tables. */
  lemma TablesDecide(u: Upf, v: Upf, c: Call)
    requires SameTables(u, v)
    ensures Apply(u, c).1 == Apply(v, c).1 && SameTables(Apply(u, c).0, Apply(v, c).0)
  {
  }

  /** From s to s2 the call of handler h takes effect, and nothing else moves. */
  ghost predicate IsEffect(s: Sys, h: nat, s2: Sys) {
    && h < |s.handlers| == |s2.handlers|
    && s2.handlers == s.handlers[h := s2.handlers[h]]
    && var c := s.handlers[h].call;
       var (u, r) := Apply(s.upf, c);
       && s2.log == s.log + [Op(h, c, r)]
       && SameTables(s2.upf, u)
       && s2.upf.packets == s.upf.packets
       && s2.upf.forwarded == s.upf.forwarded && s2.upf.dropped == s.upf.dropped
       && s2.handlers[h].call == c && s2.handlers[h].point == Some(Point(|s.log|, r))
       && s2.handlers[h].calledAt == s.handlers[h].calledAt && s2.handlers[h].phase != Returned
       && s2.handlers[h].tallied == s.handlers[h].tallied
  }

  /** Handler h takes effect: the log stays legal and gains its one entry. */
  lemma EffectLogged(s: Sys, h: nat, s': Sys)
    requires LogOk(s) && IsEffect(s, h, s') && s.handlers[h].point == None && s.handlers[h].phase != Returned
    ensures LogOk(s')
  {
    var c := s.handlers[h].call;
    TablesDecide(s.upf, Replay(s.log), c);
    LegalExtends(s.log, Op(h, c, Apply(s.upf, c).1));
    forall k | 0 <= k < |s'.log|
      ensures s'.log[k].caller < |s'.handlers| && InLog(s', s'.log[k].caller, k)
    {
      if k < |s.log| {
        assert InLog(s, s.log[k].caller, k);
        assert s.log[k].caller != h;
      }
    }
    forall g | 0 <= g < |s'.handlers|
      ensures PointOk(s', g)
    {
      assert PointOk(s, g);
    }
  }

  /** A step without effect leaves the log and every call's place in it alone. */
  lemma LogUntouched(s: Sys, s': Sys)
    requires LogOk(s) && s'.log == s.log && SameTables(s'.upf, s.upf) && |s.handlers| <= |s'.handlers|
    requires forall h :: 0 <= h < |s.handlers| ==>
      && s'.handlers[h].call == s.handlers[h].call
      && s'.handlers[h].point == s.handlers[h].point
      && s'.handlers[h].calledAt == s.handlers[h].calledAt
    requires forall h :: 0 <= h < |s.handlers| && s'.handlers[h].phase == Returned ==>
      || (s.handlers[h].phase == Returned && s'.handlers[h].returnedAt == s.handlers[h].returnedAt)
      || (s.handlers[h].point.Some? && s'.handlers[h].returnedAt == |s.log|)
    requires forall h :: |s.handlers| <= h < |s'.handlers| ==>
      s'.handlers[h].point == None && s'.handlers[h].calledAt <= |s.log| && s'.handlers[h].phase != Returned
    ensures LogOk(s')
  {
    forall k | 0 <= k < |s'.log|
      ensures s'.log[k].caller < |s'.handlers| && InLog(s', s'.log[k].caller, k)
    {
      assert InLog(s, s.log[k].caller, k);
    }
    forall h | 0 <= h < |s'.handlers|
      ensures PointOk(s', h)
    {
      if h < |s.handlers| {
        assert PointOk(s, h);
      }
    }
  }

  /** The steps at which a call takes effect. */
  predicate TakesEffect(a: Act) {
    a.LookUp? || a.InlineLookUp? || a.Serve?
  }

  /** The handler a step works for, for the steps that work for one. */
  function Subject(s: Sys, a: Act): nat
    requires Can(s, a) && !a.Arrive? && !a.PoolStep?
  {
    if IsWork(a) then s.pool.workers[a.w].task else a.h
  }

  lemma EffectShape(s: Sys, a: Act)
    requires Can(s, a) && TakesEffect(a) && s.handlers[Subject(s, a)].phase != Returned
    ensures IsEffect(s, Subject(s, a), Next(s, a))
  {
  }

  /** A call that is about to take effect has not done so before. */
  lemma SubjectFresh(s: Sys, a: Act)
    requires HandlersOk(s) && JobsOk(s) && Can(s, a) && TakesEffect(a)
    ensures var hd := s.handlers[Subject(s, a)];
      && hd.point == None && !hd.tallied && hd.phase != Returned
      && (hd.call.Classify? ==> hd.phase != Called)
      && (a.Serve? <==> !hd.call.Classify?)
  {
    if a.LookUp? {
      assert JobOk(s, Subject(s, a), s.pcs[a.w]);
    } else {
      assert HandlerOk(s.handlers[a.h], s.pool.clients[a.h], Pooled(s));
    }
  }

  lemma LogKeptByEffect(s: Sys, a: Act)
    requires HandlersOk(s) && JobsOk(s) && LogOk(s) && Can(s, a) && TakesEffect(a)
    ensures LogOk(Next(s, a))
  {
    SubjectFresh(s, a);
    EffectShape(s, a);
    EffectLogged(s, Subject(s, a), Next(s, a));
  }

  lemma LogKeptByPool(s: Sys, a: Act)
    requires LogOk(s) && Can(s, a) && (a.PoolStep? || a.Arrive?)
    ensures LogOk(Next(s, a))
  {
    LogUntouched(s, Next(s, a));
  }

  lemma LogKeptByWork(s: Sys, a: Act)
    requires LogOk(s) && Can(s, a) && !TakesEffect(a) && IsWork(a)
    ensures LogOk(Next(s, a))
  {
    var s', h := Next(s, a), Subject(s, a);
    assert s'.handlers == s.handlers[h := s'.handlers[h]];
    LogUntouched(s, s');
  }

  lemma ReturnHasPoint(s: Sys, h: nat)
    requires P.PoolInv(s.pool) && HandlersOk(s) && JobsOk(s) && Can(s, Return(h))
    ensures s.handlers[h].point.Some?
  {
    assert HandlerOk(s.handlers[h], s.pool.clients[h], Pooled(s));
    if s.handlers[h].phase == Queued {
      ReturnsServed(s, h);
    }
  }

  lemma LogKeptByHandler(s: Sys, a: Act)
    requires P.PoolInv(s.pool) && HandlersOk(s) && JobsOk(s) && LogOk(s)
    requires Can(s, a) && !TakesEffect(a) && !IsWork(a) && !a.PoolStep? && !a.Arrive?
    ensures LogOk(Next(s, a))
  {
    var s' := Next(s, a);
    assert s'.handlers == s.handlers[a.h := s'.handlers[a.h]];
    if a.Return? {
      ReturnHasPoint(s, a.h);
    }
    LogUntouched(s, s');
  }

  // ---- The counters --------------------------------------------------------------------------

  /** One handler changes: each of the three sums moves by its weight. */
  lemma OneHandlerCounts(s: Sys, h: nat, hd: Handler)
    requires h < |s.handlers|
    ensures var t := s.handlers[h := hd];
      && Sum(t, IsUnserved) + IsUnserved(s.handlers[h]) == Sum(s.handlers, IsUnserved) + IsUnserved(hd)
      && Sum(t, OwesForward) + OwesForward(s.handlers[h]) == Sum(s.handlers, OwesForward) + OwesForward(hd)
      && Sum(t, OwesDrop) + OwesDrop(s.handlers[h]) == Sum(s.handlers, OwesDrop) + OwesDrop(hd)
  {
    SumUpdate(s.handlers, h, hd, IsUnserved);
    SumUpdate(s.handlers, h, hd, OwesForward);
    SumUpdate(s.handlers, h, hd, OwesDrop);
  }

  /** How one call moves the single-threaded counters. */
  lemma ApplyCounts(u: Upf, c: Call)
    ensures var (u', r) := Apply(u, c);
      && (r.Classified? <==> c.Classify?)
      && u'.packets == u.packets + (if c.Classify? then 1 else 0)
      && u'.forwarded == u.forwarded + (if r.Classified? && Forwards(r.outcome) then 1 else 0)
      && u'.dropped == u.dropped + (if r.Classified? && Drops(r.outcome) then 1 else 0)
  {
  }

  lemma EffectCounted(s: Sys, h: nat, s': Sys)
    requires LogOk(s) && CountsOk(s) && IsEffect(s, h, s')
    requires s.handlers[h].point == None && !s.handlers[h].tallied
    requires s.handlers[h].call.Classify? ==> s.handlers[h].phase != Called
    ensures CountsOk(s')
  {
    var c := s.handlers[h].call;
    ApplyCounts(Replay(s.log), c);
    TablesDecide(s.upf, Replay(s.log), c);
    LegalExtends(s.log, Op(h, c, Apply(s.upf, c).1));
    OneHandlerCounts(s, h, s'.handlers[h]);
  }

  lemma CountsKeptByEffect(s: Sys, a: Act)
    requires HandlersOk(s) && JobsOk(s) && LogOk(s) && CountsOk(s)
    requires Can(s, a) && TakesEffect(a)
    ensures CountsOk(Next(s, a))
  {
    SubjectFresh(s, a);
    EffectShape(s, a);
    EffectCounted(s, Subject(s, a), Next(s, a));
  }

  lemma CountsKeptByArrival(s: Sys, call: Call)
    requires CountsOk(s)
    ensures CountsOk(Next(s, Arrive(call)))
  {
    var hd := Next(s, Arrive(call)).handlers[|s.handlers|];
    SumAppend(s.handlers, hd, IsUnserved);
    SumAppend(s.handlers, hd, OwesForward);
    SumAppend(s.handlers, hd, OwesDrop);
  }

  lemma CountsKeptByPool(s: Sys, b: P.Step)
    requires CountsOk(s) && Can(s, PoolStep(b))
    ensures CountsOk(Next(s, PoolStep(b)))
  {
    if b.Push? {
      OneHandlerCounts(s, b.c, Next(s, PoolStep(b)).handlers[b.c]);
    }
  }

  lemma CountsKeptByWork(s: Sys, a: Act)
    requires |s.pcs| == |s.pool.workers| && JobsOk(s) && CountsOk(s)
    requires Can(s, a) && !TakesEffect(a) && IsWork(a)
    ensures CountsOk(Next(s, a))
  {
    var s', h := Next(s, a), Subject(s, a);
    assert JobOk(s, h, s.pcs[a.w]);
    assert s'.handlers == s.handlers[h := s'.handlers[h]];
    OneHandlerCounts(s, h, s'.handlers[h]);
  }

  lemma CountsKeptByHandler(s: Sys, a: Act)
    requires HandlersOk(s) && CountsOk(s)
    requires Can(s, a) && (a.Enter? || a.InlineWrite? || a.InlineTally?)
    ensures CountsOk(Next(s, a))
  {
    var s' := Next(s, a);
    assert HandlerOk(s.handlers[a.h], s.pool.clients[a.h], Pooled(s));
    assert s'.handlers == s.handlers[a.h := s'.handlers[a.h]];
    OneHandlerCounts(s, a.h, s'.handlers[a.h]);
  }

  lemma CountsKeptByReturn(s: Sys, h: nat)
    requires P.PoolInv(s.pool) && HandlersOk(s) && JobsOk(s) && CountsOk(s) && Can(s, Return(h))
    ensures CountsOk(Next(s, Return(h)))
  {
    ReturnHasPoint(s, h);
    OneHandlerCounts(s, h, Next(s, Return(h)).handlers[h]);
  }

  // ---- Runs ----------------------------------------------------------------------------------

  lemma HandlersAndJobsKept(s: Sys, a: Act)
    requires SysInv(s) && Can(s, a) && !IsWork(a) && !a.PoolStep?
    ensures HandlersOk(Next(s, a)) && JobsOk(Next(s, a))
  {
    if a.Arrive? {
      HandlersKeptByArrival(s, a.call);
      JobsKeptByArrival(s, a.call);
    } else {
      HandlersKeptByHandler(s, a);
      if s.handlers[a.h].phase == Queued {
        JobsKeptByReturn(s, a.h);
      } else {
        JobsKeptByHandler(s, a);
      }
    }
  }

  lemma CountsKept(s: Sys, a: Act)
    requires SysInv(s) && Can(s, a)
    ensures CountsOk(Next(s, a))
  {
    if TakesEffect(a) {
      CountsKeptByEffect(s, a);
    } else if IsWork(a) {
      CountsKeptByWork(s, a);
    } else {
      match a
      case Arrive(call) => CountsKeptByArrival(s, call);
      case PoolStep(b) => CountsKeptByPool(s, b);
      case Return(h) => CountsKeptByReturn(s, h);
      case Enter(_) => CountsKeptByHandler(s, a);
      case InlineWrite(_) => CountsKeptByHandler(s, a);
      case InlineTally(_) => CountsKeptByHandler(s, a);
      case _ => assert false;
    }
  }

  lemma StepKeeps(s: Sys, a: Act)
    requires SysInv(s) && Can(s, a)
    ensures SysInv(Next(s, a))
  {
    PoolKept(s, a);
    if IsWork(a) {
      HandlersKeptByWork(s, a);
      JobsKeptByWork(s, a);
    } else if a.PoolStep? {
      if a.a.Push? {
        HandlersKeptByPush(s, a.a.c);
        JobsKeptByPush(s, a.a.c);
      } else {
        HandlersKeptByPool(s, a.a);
        if a.a.Finish? {
          JobsKeptByFinish(s, a.a.w);
        } else {
          JobsKeptByPool(s, a.a);
        }
      }
    } else {
      HandlersAndJobsKept(s, a);
    }
    if TakesEffect(a) {
      LogKeptByEffect(s, a);
    } else {
      if a.PoolStep? || a.Arrive? {
        LogKeptByPool(s, a);
      } else if IsWork(a) {
        LogKeptByWork(s, a);
      } else {
        LogKeptByHandler(s, a);
      }
    }
    CountsKept(s, a);
  }

  lemma NoCallsYet(s: Sys)
    requires s.handlers == [] && s.log == [] && s.upf == INIT_UPF
    ensures LogOk(s) && CountsOk(s)
  {
    assert Replay([]) == INIT_UPF;
  }

  lemma InitHolds(n: nat)
    ensures SysInv(Init(n))
  {
    P.InitHolds(n);
    NoCallsYet(Init(n));
  }

  lemma {:induction false} RunKeeps(s: Sys, acts: seq<Act>)
    requires SysInv(s) && CanRun(s, acts)
    ensures SysInv(RunFrom(s, acts))
    decreases |acts|
  {
    if acts != [] {
      StepKeeps(s, acts[0]);
      RunKeeps(Next(s, acts[0]), acts[1..]);
    }
  }

  /** s is the state of a UPF with n workers after the steps `acts`. */
  ghost predicate Reaches(n: nat, acts: seq<Act>, s: Sys) {
    CanRun(Init(n), acts) && s == RunFrom(Init(n), acts)
  }

  lemma ReachableInv(n: nat, acts: seq<Act>, s: Sys)
    requires Reaches(n, acts, s)
    ensures SysInv(s)
  {
    InitHolds(n);
    RunKeeps(Init(n), acts);
  }
}
