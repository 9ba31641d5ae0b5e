/** What the AMF's context table holds, in terms of the requests that were made. */
module RegistrationHistory {
  import opened Decimal
  import opened SessionTable
  import opened Registration
  import opened RegistrationTheorems

  /** Request k was a registration of supi that was accepted. */
  ghost predicate AcceptedAt(rs: seq<Request>, k: nat, supi: string) {
    k < |rs| && rs[k].Register? && rs[k].supi == supi && ReplyTo(Run(rs[..k]), rs[k]).Accepted?
  }

  /** Request m ends the hold of earlier registrations of supi: it deregisters it or replaces it. */
  ghost predicate Supersedes(rs: seq<Request>, m: nat, supi: string) {
    m < |rs| && ((rs[m].Deregister? && rs[m].supi == supi) || AcceptedAt(rs, m, supi))
  }

  /** Request k is the registration of supi now in force. */
  ghost predicate InForce(rs: seq<Request>, k: nat, supi: string) {
    AcceptedAt(rs, k, supi) && forall m: nat :: k < m < |rs| ==> !Supersedes(rs, m, supi)
  }

  /** The context a registration accepted as request k leaves: the NGAP id it was answered with, the
      slice it asked for, and the session the UPF opened for it. */
  ghost function ContextFrom(rs: seq<Request>, k: nat): UEContext
    requires k < |rs| && rs[k].Register? && ReplyTo(Run(rs[..k]), rs[k]).Accepted?
  {
    UEContext(rs[k].supi, ReplyTo(Run(rs[..k]), rs[k]).ngapId, rs[k].nssai,
              SessionId(Run(rs[..k]).upf.nextId), true)
  }

  lemma EarlierStands(pre: seq<Request>, r: Request, k: nat, supi: string)
    requires k < |pre|
    ensures AcceptedAt(pre + [r], k, supi) <==> AcceptedAt(pre, k, supi)
    ensures Supersedes(pre + [r], k, supi) <==> Supersedes(pre, k, supi)
    ensures AcceptedAt(pre, k, supi) ==> ContextFrom(pre + [r], k) == ContextFrom(pre, k)
  {
    assert (pre + [r])[..k] == pre[..k];
  }

  lemma InForceExtends(pre: seq<Request>, r: Request, k: nat, supi: string)
    requires k < |pre|
    ensures InForce(pre + [r], k, supi) <==> InForce(pre, k, supi) && !Supersedes(pre + [r], |pre|, supi)
  {
    EarlierStands(pre, r, k, supi);
    forall m: nat | k < m < |pre|
      ensures Supersedes(pre + [r], m, supi) <==> Supersedes(pre, m, supi)
    {
      EarlierStands(pre, r, m, supi);
    }
  }

  lemma LastInForce(pre: seq<Request>, r: Request, supi: string)
    ensures InForce(pre + [r], |pre|, supi) <==> r.Register? && r.supi == supi && ReplyTo(Run(pre), r).Accepted?
    ensures Supersedes(pre + [r], |pre|, supi) <==>
      (r.Deregister? && r.supi == supi) || InForce(pre + [r], |pre|, supi)
    ensures InForce(pre + [r], |pre|, supi) ==>
      ContextFrom(pre + [r], |pre|) ==
        UEContext(supi, ReplyTo(Run(pre), r).ngapId, r.nssai, SessionId(Run(pre).upf.nextId), true)
  {
    assert (pre + [r])[..|pre|] == pre;
  }

  /** The contexts after one more request. */
  lemma ContextsStep(s: System, r: Request, supi: string)
    requires JointOk(s)
    ensures var t := Step(s, r).amf.contexts;
      if r.Register? && r.supi == supi && ReplyTo(s, r).Accepted? then
        supi in t && t[supi] == UEContext(supi, ReplyTo(s, r).ngapId, r.nssai, SessionId(s.upf.nextId), true)
      else if r.Deregister? && r.supi == supi then supi !in t
      else
        (supi in t <==> supi in s.amf.contexts) && (supi in t ==> t[supi] == s.amf.contexts[supi])
  {
    if Attempts(s, r) {
      AttemptDoes(s, r);
    } else if r.Deregister? && r.supi in s.amf.contexts {
      DeregisterDoes(s, r);
    } else {
      OtherwiseNothing(s, r);
    }
  }

  ghost predicate TableMatches(rs: seq<Request>, supi: string) {
    && (supi in Run(rs).amf.contexts <==> exists k: nat :: InForce(rs, k, supi))
    && (forall k: nat :: InForce(rs, k, supi) ==>
          supi in Run(rs).amf.contexts && Run(rs).amf.contexts[supi] == ContextFrom(rs, k))
  }

  lemma MatchesExtends(pre: seq<Request>, r: Request, supi: string)
    requires TableMatches(pre, supi)
    ensures TableMatches(pre + [r], supi)
  {
    var rs := pre + [r];
    RunExtends(pre, r);
    RunKeeps(pre);
    ContextsStep(Run(pre), r, supi);
    LastInForce(pre, r, supi);
    forall k: nat | InForce(rs, k, supi)
      ensures supi in Run(rs).amf.contexts && Run(rs).amf.contexts[supi] == ContextFrom(rs, k)
    {
      if k < |pre| {
        InForceExtends(pre, r, k, supi);
        EarlierStands(pre, r, k, supi);
      }
    }
    if supi in Run(rs).amf.contexts && !InForce(rs, |pre|, supi) {
      var k: nat :| InForce(pre, k, supi);
      InForceExtends(pre, r, k, supi);
      assert InForce(rs, k, supi);
    }
  }

  lemma NobodyYet(supi: string)
    ensures TableMatches([], supi)
  {
    assert Run([]) == INIT_SYSTEM;
    assert forall k: nat :: !AcceptedAt([], k, supi);
  }

  /** Over every run and whatever is lost: a UE has a context exactly when some registration of it is
      in force, that is, accepted and neither deregistered nor replaced since; and the context is the
      one that registration left, with the NGAP id its reply named. */
  lemma {:induction false} RegisteredByHistory(rs: seq<Request>, supi: string)
    ensures TableMatches(rs, supi)
  {
    if rs == [] {
      NobodyYet(supi);
    } else {
      var pre, r := rs[..|rs| - 1], rs[|rs| - 1];
      assert pre + [r] == rs;
      RegisteredByHistory(pre, supi);
      MatchesExtends(pre, r, supi);
    }
  }

  // ---- Replies and counters ------------------------------------------------------------------

  predicate Accepts(s: System, r: Request) { Attempts(s, r) && r.fault == Delivered }

  predicate Deregisters(s: System, r: Request) { r.Deregister? && r.supi in s.amf.contexts }

  lemma CountersStep(s: System, r: Request)
    requires JointOk(s)
    ensures var t := Step(s, r);
      && t.amf.nextNgap == s.amf.nextNgap + One(Attempts(s, r))
      && t.amf.regCount == s.amf.regCount + One(Accepts(s, r))
      && t.amf.deregCount == s.amf.deregCount + One(Deregisters(s, r))
  {
    if Attempts(s, r) {
      AttemptDoes(s, r);
    } else if Deregisters(s, r) {
      DeregisterDoes(s, r);
    } else {
      OtherwiseNothing(s, r);
    }
  }

  /** Over every run: the NGAP counter has moved once for each registration that got past the two early
      checks, the registration counter once for each that was accepted, and the deregistration counter
      once for each deregistration of a registered UE. */
  lemma {:induction false} CountersByRequests(rs: seq<Request>)
    ensures var amf := Run(rs).amf;
      && amf.nextNgap == 1000 + Occurrences(rs, Attempts)
      && amf.regCount == Occurrences(rs, Accepts)
      && amf.deregCount == Occurrences(rs, Deregisters)
  {
    if rs != [] {
      var pre := rs[..|rs| - 1];
      CountersByRequests(pre);
      RunKeeps(pre);
      CountersStep(Run(pre), rs[|rs| - 1]);
    }
  }

  ghost predicate IsRegistered(rs: seq<Request>, supi: string) {
    exists k: nat :: InForce(rs, k, supi)
  }

  /** The reply to r when its UE is registered or not and k is the next NGAP number. */
  function ReplyWhen(registered: bool, k: nat, r: Request): Reply
    requires !r.Traffic?
  {
    match r
    case Register(supi, regType, _, fault) =>
      if supi == "" then Rejected("missing_supi")
      else if registered && regType == "initial" then Rejected("already_registered")
      else if fault != Delivered then Rejected("upf_session_failed")
      else Accepted("ngap-" + Dec(k))
    case Deregister(_, _) => if registered then Deregistered else NotDeregistered("ue_not_found")
  }

  lemma ReplyToIs(s: System, r: Request)
    requires !r.Traffic?
    ensures ReplyTo(s, r) == ReplyWhen(r.supi in s.amf.contexts, s.amf.nextNgap, r)
  {
    assert UeIp(s.amf.nextNgap) != "";
  }

  /** The replies by history, text by text. A registration is refused for an empty SUPI, then if it is
      an initial one while another is in force, then if its session exchange fails; if accepted it is
      named after the number of attempts before it, failed ones included. A deregistration succeeds
      exactly if some registration is in force. */
  lemma RepliesByHistory(rs: seq<Request>, r: Request)
    requires !r.Traffic?
    ensures ReplyTo(Run(rs), r) == ReplyWhen(IsRegistered(rs, r.supi), 1000 + Occurrences(rs, Attempts), r)
  {
    RegisteredByHistory(rs, r.supi);
    CountersByRequests(rs);
    ReplyToIs(Run(rs), r);
  }
}
