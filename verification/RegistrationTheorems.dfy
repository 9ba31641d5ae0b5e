/** Accounting laws of the AMF and the UPF, over every run and every pattern of lost messages. */
module RegistrationTheorems {
  import opened SessionTable
  import opened Registration

  // ---- Sessions ------------------------------------------------------------------------------

  function One(b: bool): nat { if b then 1 else 0 }

  lemma ContextsAfter(m: map<string, UEContext>, supi: string, ue: UEContext)
    ensures |m[supi := ue]| == |m| + One(supi !in m)
  {
    if supi in m {
      assert m[supi := ue].Keys == m.Keys;
    } else {
      MapAdd(m, supi, ue);
    }
  }

  lemma AttemptConserves(s: System, r: Request)
    requires JointOk(s) && Attempts(s, r)
    ensures var t := Step(s, r);
      && |t.upf.sessions| == |s.upf.sessions| + One(r.fault != RequestLost)
      && |t.amf.contexts| == |s.amf.contexts| + One(r.fault == Delivered && r.supi !in s.amf.contexts)
  {
    AttemptDoes(s, r);
    FreshId(s.upf);
    if r.fault != RequestLost {
      MapAdd(s.upf.sessions, SessionId(s.upf.nextId), NewSession(s, r));
    }
    ContextsAfter(s.amf.contexts, r.supi, NewContext(s, r));
  }

  lemma StepConserves(s: System, r: Request)
    requires JointOk(s)
    ensures var t := Step(s, r);
      |t.upf.sessions| + |s.amf.contexts| ==
        |s.upf.sessions| + |t.amf.contexts|
        + One(Overwrites(s, r)) + One(LosesReply(s, r)) + One(MissesRelease(s, r))
  {
    if Attempts(s, r) {
      AttemptConserves(s, r);
    } else if r.Deregister? && r.supi in s.amf.contexts {
      DeregisterDoes(s, r);
      assert ContextOk(s, r.supi);
      MapRemove(s.amf.contexts, r.supi);
      MapRemove(s.upf.sessions, s.amf.contexts[r.supi].upfSessionId);
    } else {
      OtherwiseNothing(s, r);
    }
  }

  /** Session conservation over every run: the UPF's live sessions are the AMF's contexts, the
      overwriting re-registrations, the establishes whose reply was lost, and the releases that
      never took effect. */
  lemma {:induction false} SessionsConserved(rs: seq<Request>)
    ensures |Run(rs).upf.sessions| == |Run(rs).amf.contexts| + Orphaned(rs)
  {
    if rs != [] {
      SessionsConserved(rs[..|rs| - 1]);
      RunKeeps(rs[..|rs| - 1]);
      StepConserves(Run(rs[..|rs| - 1]), rs[|rs| - 1]);
    }
  }

  ghost predicate Named(s: System, id: string) {
    exists supi :: supi in s.amf.contexts && s.amf.contexts[supi].upfSessionId == id
  }

  ghost function SessionsOf(contexts: map<string, UEContext>): map<string, string> {
    map supi | supi in contexts :: contexts[supi].upfSessionId
  }

  lemma {:induction false} InjectiveValues(m: map<string, string>)
    requires forall a, b :: a in m && b in m && a != b ==> m[a] != m[b]
    ensures |m.Values| == |m|
    decreases |m|
  {
    if m != map[] {
      var k :| k in m;
      var rest := m - {k};
      MapRemove(m, k);
      InjectiveValues(rest);
      assert m.Values == rest.Values + {m[k]} by {
        forall v | v in m.Values
          ensures v in rest.Values + {m[k]}
        {
          var a :| a in m && m[a] == v;
          assert a == k || (a in rest && rest[a] == v);
        }
      }
      assert m[k] !in rest.Values;
    } else {
      assert m.Values == {};
    }
  }

  /** The sessions that contexts name are live and as many as the contexts. */
  lemma OwnedSessions(rs: seq<Request>)
    ensures var s := Run(rs);
      && SessionsOf(s.amf.contexts).Values <= s.upf.sessions.Keys
      && |SessionsOf(s.amf.contexts).Values| == |s.amf.contexts|
  {
    ContextsNameLiveSessions(rs);
    var s := Run(rs);
    var owned := SessionsOf(s.amf.contexts);
    assert owned.Keys == s.amf.contexts.Keys;
    forall a, b | a in owned && b in owned && a != b
      ensures owned[a] != owned[b]
    {
      assert a in s.amf.contexts && b in s.amf.contexts;
    }
    InjectiveValues(owned);
  }

  lemma NamedAreOwned(s: System)
    ensures forall id :: id in SessionsOf(s.amf.contexts).Values <==> Named(s, id)
  {
    var owned := SessionsOf(s.amf.contexts);
    forall id
      ensures id in owned.Values <==> Named(s, id)
    {
      if Named(s, id) {
        var supi :| supi in s.amf.contexts && s.amf.contexts[supi].upfSessionId == id;
        assert supi in owned && owned[supi] == id;
      }
      if id in owned.Values {
        var supi :| supi in owned && owned[supi] == id;
        assert s.amf.contexts[supi].upfSessionId == id;
      }
    }
  }

  lemma SubsetOfSameSize<T>(a: set<T>, b: set<T>)
    requires a <= b && |a| == |b|
    ensures a == b
  {
    assert |b - a| == |b| - |a|;
  }

  /** The two tables are in bijection (every live session is named by a context) exactly when the run
      has had no overwriting re-registration, no lost establish reply and no release that failed to
      take effect; nothing that happens later repairs an orphan. */
  lemma BijectionExactly(rs: seq<Request>)
    ensures (forall id :: id in Run(rs).upf.sessions ==> Named(Run(rs), id)) <==> Orphaned(rs) == 0
  {
    SessionsConserved(rs);
    OwnedSessions(rs);
    NamedAreOwned(Run(rs));
    var owned, live := SessionsOf(Run(rs).amf.contexts).Values, Run(rs).upf.sessions.Keys;
    if Orphaned(rs) == 0 {
      SubsetOfSameSize(owned, live);
    } else {
      assert owned != live;
    }
  }

  // ---- Identifiers ---------------------------------------------------------------------------

  lemma CounterStep(s: System, r: Request)
    ensures s.amf.nextNgap <= Step(s, r).amf.nextNgap
    ensures ReplyTo(s, r).Accepted? ==>
      Step(s, r).amf.nextNgap == s.amf.nextNgap + 1 && ReplyTo(s, r) == Accepted(NgapId(s.amf.nextNgap))
  {
    if Attempts(s, r) {
      AttemptDoes(s, r);
    } else if !(r.Deregister? && r.supi in s.amf.contexts) {
      OtherwiseNothing(s, r);
    }
  }

  lemma {:induction false} CounterGrows(rs: seq<Request>, j: nat)
    requires j <= |rs|
    ensures Run(rs[..j]).amf.nextNgap <= Run(rs).amf.nextNgap
  {
    if j == |rs| {
      assert rs[..j] == rs;
    } else {
      var pre := rs[..|rs| - 1];
      assert pre[..j] == rs[..j];
      CounterGrows(pre, j);
      CounterStep(Run(pre), rs[|rs| - 1]);
    }
  }

  /** No NGAP id is ever given out twice, to the same UE or to another. */
  lemma NgapNeverTwice(rs: seq<Request>, j: nat, k: nat)
    requires j < k < |rs|
    requires ReplyTo(Run(rs[..j]), rs[j]).Accepted? && ReplyTo(Run(rs[..k]), rs[k]).Accepted?
    ensures ReplyTo(Run(rs[..j]), rs[j]).ngapId != ReplyTo(Run(rs[..k]), rs[k]).ngapId
  {
    var before, after := Run(rs[..j]), Run(rs[..j + 1]);
    assert rs[..j + 1][..j] == rs[..j] && rs[..k][..j + 1] == rs[..j + 1];
    CounterStep(before, rs[j]);
    CounterGrows(rs[..k], j + 1);
    CounterStep(Run(rs[..k]), rs[k]);
    var m, n := before.amf.nextNgap, Run(rs[..k]).amf.nextNgap;
    if NgapId(m) == NgapId(n) {
      NgapIdInjective(m, n);
    }
  }

  // ---- The AMF's counters --------------------------------------------------------------------

  lemma BeginCounts(s: System, r: Request)
    requires JointOk(s)
    ensures var (t, _, due) := Begin(s, r);
      && t.amf.regCount == s.amf.regCount && t.amf.deregCount == s.amf.deregCount
      && |t.amf.contexts| + One(Overwrites(s, r)) + One(due == DeregDue) == |s.amf.contexts| + One(due == RegDue)
  {
    if Attempts(s, r) {
      AttemptDoes(s, r);
      ContextsAfter(s.amf.contexts, r.supi, NewContext(s, r));
    } else if r.Deregister? && r.supi in s.amf.contexts {
      MapRemove(s.amf.contexts, r.supi);
    }
  }

  /** With no operation in its critical section, registrations = deregistrations + contexts +
      overwriting re-registrations. */
  lemma {:induction false} RegistrationsConserved(rs: seq<Request>)
    ensures var a := Run(rs).amf;
      a.regCount == a.deregCount + |a.contexts| + Occurrences(rs, Overwrites)
  {
    if rs != [] {
      var pre := rs[..|rs| - 1];
      RegistrationsConserved(pre);
      RunKeeps(pre);
      BeginCounts(Run(pre), rs[|rs| - 1]);
    }
  }

  /** Between the table write and the increment of an operation r, the law holds with the pending
      increment added, and deregistrations still do not exceed registrations: the subtraction in
      the active-UE gauge does not underflow on a snapshot. When nothing was ever overwritten and no
      operation is in progress, the gauge is the size of the table. */
  lemma SnapshotNeverUnderflows(rs: seq<Request>, r: Request)
    ensures var (t, _, due) := Begin(Run(rs), r);
      && t.amf.regCount + One(due == RegDue) ==
           t.amf.deregCount + One(due == DeregDue) + |t.amf.contexts| + Occurrences(rs + [r], Overwrites)
      && t.amf.deregCount <= t.amf.regCount
    ensures var a := Run(rs).amf;
      && a.deregCount <= a.regCount
      && (a.regCount - a.deregCount == |a.contexts| <==> Occurrences(rs, Overwrites) == 0)
  {
    RegistrationsConserved(rs);
    RunKeeps(rs);
    BeginCounts(Run(rs), r);
    assert (rs + [r])[..|rs|] == rs;
  }

  lemma {:induction false} CountersGrow(rs: seq<Request>, j: nat)
    requires j <= |rs|
    ensures Run(rs[..j]).amf.regCount <= Run(rs).amf.regCount
    ensures Run(rs[..j]).amf.deregCount <= Run(rs).amf.deregCount
  {
    if j == |rs| {
      assert rs[..j] == rs;
    } else {
      var pre := rs[..|rs| - 1];
      assert pre[..j] == rs[..j];
      CountersGrow(pre, j);
      RunKeeps(pre);
      BeginCounts(Run(pre), rs[|rs| - 1]);
    }
  }

  /** The gauge reads the two counters one after the other, in an order C++ leaves open. */
  ghost predicate ReadsSafely(rs: seq<Request>, i: nat, j: nat)
    requires i <= |rs| && j <= |rs|
  {
    Run(rs[..j]).amf.deregCount <= Run(rs[..i]).amf.regCount
  }

  lemma SafeInOrder(rs: seq<Request>, i: nat, j: nat)
    requires j <= i <= |rs|
    ensures ReadsSafely(rs, i, j)
  {
    RegistrationsConserved(rs[..i]);
    assert rs[..i][..j] == rs[..j];
    CountersGrow(rs[..i], j);
  }

  /** One operation deregisters at most one of the UEs registered. */
  lemma DeregistersOne(s: System, r: Request)
    requires JointOk(s)
    ensures Step(s, r).amf.deregCount <= s.amf.deregCount + |s.amf.contexts|
  {
    BeginCounts(s, r);
  }

  lemma RunExtends(rs: seq<Request>, r: Request)
    ensures Run(rs + [r]) == Step(Run(rs), r)
  {
    assert (rs + [r])[..|rs|] == rs;
  }

  lemma SafeAcrossOne(rs: seq<Request>, i: nat)
    requires i < |rs|
    ensures ReadsSafely(rs, i, i + 1)
  {
    var pre := rs[..i];
    assert rs[..i + 1] == pre + [rs[i]];
    RunExtends(pre, rs[i]);
    RegistrationsConserved(pre);
    RunKeeps(pre);
    DeregistersOne(Run(pre), rs[i]);
  }

  /** Operations that change nothing in the AMF: deregistering a UE it does not know. */
  function Idle(n: nat): seq<Request> { seq(n, _ => Deregister("", Delivered)) }

  lemma {:induction false} IdleKeeps(rs: seq<Request>, n: nat)
    ensures Run(rs + Idle(n)).amf == Run(rs).amf
  {
    if n == 0 {
      assert rs + Idle(n) == rs;
    } else {
      var longer := rs + Idle(n);
      assert longer[..|longer| - 1] == rs + Idle(n - 1);
      IdleKeeps(rs, n - 1);
      RunKeeps(rs + Idle(n - 1));
      var s := Run(rs + Idle(n - 1));
      assert "" in s.amf.contexts ==> ContextOk(s, "");
      OtherwiseNothing(s, Deregister("", Delivered));
    }
  }

  /** After i idle operations, one UE registers and deregisters. */
  lemma OneVisit(i: nat) returns (rs: seq<Request>)
    ensures |rs| == i + 2 && Run(rs[..i]).amf.regCount == 0 && Run(rs).amf.deregCount == 1
  {
    var r1, r2 := Register("a", "initial", "", Delivered), Deregister("a", Delivered);
    IdleKeeps([], i);
    var quiet := [] + Idle(i);
    var s0 := Run(quiet);
    assert s0.amf == INIT_SYSTEM.amf;
    AttemptDoes(s0, r1);
    RunExtends(quiet, r1);
    var s1 := Run(quiet + [r1]);
    assert "a" in s1.amf.contexts && s1.amf.deregCount == 0;
    RunExtends(quiet + [r1], r2);
    RunKeeps(quiet + [r1]);
    DeregisterDoes(s1, r2);
    rs := quiet + [r1] + [r2];
    assert rs[..i] == quiet;
  }

  lemma UnderflowRun(i: nat, j: nat) returns (rs: seq<Request>)
    requires j >= i + 2
    ensures |rs| == j
    ensures Run(rs[..i]).amf.regCount == 0 && Run(rs[..j]).amf.deregCount == 1
  {
    var visit := OneVisit(i);
    rs := visit + Idle(j - i - 2);
    IdleKeeps(visit, j - i - 2);
    assert rs[..i] == visit[..i] && rs[..j] == rs;
  }

  /** Reading registrations after i operations and deregistrations after j is free of underflow in
      every run if and only if j <= i + 1: deregistrations read first, or at most one operation
      completing between the two reads. */
  lemma ScrapeSafeExactly(i: nat, j: nat)
    ensures (forall rs :: |rs| >= i && |rs| >= j ==> ReadsSafely(rs, i, j)) <==> j <= i + 1
  {
    if j <= i + 1 {
      forall rs: seq<Request> | |rs| >= i && |rs| >= j
        ensures ReadsSafely(rs, i, j)
      {
        if j <= i {
          SafeInOrder(rs, i, j);
        } else {
          SafeAcrossOne(rs, i);
        }
      }
    } else {
      var rs := UnderflowRun(i, j);
      assert !ReadsSafely(rs, i, j);
    }
  }

}
