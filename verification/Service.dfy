/** When a registered UE's packets are forwarded. Addresses recur every 254 NGAP numbers, and the
    release of a session unindexes its address for whoever else has it. */
module Service {
  import opened SessionTable
  import opened SessionHistory
  import opened Registration
  import opened RegistrationTheorems
  import opened Addressing

  // ---- The calls the UPF gets ----------------------------------------------------------------

  /** The call of the UPF that request r brings about, if one takes effect. */
  function EffectiveCall(s: System, r: Request): seq<Call> {
    match r
    case Register(supi, _, _, fault) =>
      if Attempts(s, r) && fault != RequestLost then
        [Establish(EstablishRequest(supi, "internet", UeIp(s.amf.nextNgap), 9))]
      else []
    case Deregister(supi, fault) =>
      if supi in s.amf.contexts && fault != RequestLost then [Release(s.amf.contexts[supi].upfSessionId)]
      else []
    case Traffic(p) => [Classify(p)]
  }

  /** The UPF's history in a run of the AMF; each entry carries the number of its request. */
  ghost function UpfLog(rs: seq<Request>): seq<Op> {
    if rs == [] then []
    else
      var pre := rs[..|rs| - 1];
      var calls := EffectiveCall(Run(pre), rs[|rs| - 1]);
      if calls == [] then UpfLog(pre)
      else UpfLog(pre) + [Op(|pre|, calls[0], Apply(Run(pre).upf, calls[0]).1)]
  }

  lemma CallTakesEffect(s: System, r: Request)
    ensures var calls := EffectiveCall(s, r);
      Step(s, r).upf == if calls == [] then s.upf else Apply(s.upf, calls[0]).0
  {
    assert UeIp(s.amf.nextNgap) != "";
  }

  /** Under the AMF, whatever is lost, the UPF is always in the state its history of calls leads to.
      So what is proved of every legal history (TablesByHistory, VerdictByHistory, ExactThroughout)
      holds of it. */
  lemma {:induction false} UpfFollowsLog(rs: seq<Request>)
    ensures Legal(UpfLog(rs)) && Replay(UpfLog(rs)) == Run(rs).upf
  {
    if rs != [] {
      var pre, r := rs[..|rs| - 1], rs[|rs| - 1];
      UpfFollowsLog(pre);
      CallTakesEffect(Run(pre), r);
      var calls := EffectiveCall(Run(pre), r);
      if calls != [] {
        LegalExtends(UpfLog(pre), Op(|pre|, calls[0], Apply(Run(pre).upf, calls[0]).1));
      }
    }
  }

  // ---- NGAP numbers and sessions -------------------------------------------------------------

  /** The UE's NGAP id is number c. */
  predicate HasNumber(s: System, supi: string, c: nat) {
    supi in s.amf.contexts && s.amf.contexts[supi].amfUeNgapId == NgapId(c)
  }

  /** A context's NGAP id and its session were made by one attempt. */
  ghost predicate NumberOk(s: System, born: map<string, nat>, supi: string) {
    supi in s.amf.contexts ==>
      s.amf.contexts[supi].upfSessionId in born && HasNumber(s, supi, born[s.amf.contexts[supi].upfSessionId])
  }

  lemma NumberStep(pre: seq<Request>, r: Request, supi: string)
    requires NumberOk(Run(pre), Born(pre), supi)
    ensures NumberOk(Run(pre + [r]), Born(pre + [r]), supi)
  {
    var s := Run(pre);
    assert (pre + [r])[..|pre|] == pre;
    RunExtends(pre, r);
    RunKeeps(pre);
    if Attempts(s, r) {
      AttemptDoes(s, r);
      FreshId(s.upf);
      assert supi in s.amf.contexts ==> ContextOk(s, supi);
    } else if r.Deregister? && r.supi in s.amf.contexts {
      DeregisterDoes(s, r);
    } else {
      OtherwiseNothing(s, r);
    }
  }

  lemma {:induction false} NumbersKept(rs: seq<Request>, supi: string)
    ensures NumberOk(Run(rs), Born(rs), supi)
  {
    if rs != [] {
      var pre, r := rs[..|rs| - 1], rs[|rs| - 1];
      assert rs == pre + [r];
      NumbersKept(pre, supi);
      NumberStep(pre, r, supi);
    }
  }

  /** The UE with NGAP number c has a live session, with the address of number c. */
  lemma AddressOfUe(rs: seq<Request>, supi: string, c: nat)
    requires HasNumber(Run(rs), supi, c)
    ensures var s := Run(rs);
      && s.amf.contexts[supi].upfSessionId in s.upf.sessions
      && s.upf.sessions[s.amf.contexts[supi].upfSessionId].ueIp == UeIp(c)
  {
    var s := Run(rs);
    RunKeeps(rs);
    BornKept(rs);
    NumbersKept(rs, supi);
    assert ContextOk(s, supi) && BornAt(s, Born(rs), s.amf.contexts[supi].upfSessionId);
    NgapIdInjective(c, Born(rs)[s.amf.contexts[supi].upfSessionId]);
  }

  // ---- Who is served -------------------------------------------------------------------------

  predicate Congruent(j: nat, k: nat) { j % 254 == k % 254 }

  /** Request k opened a session under a number congruent to c. */
  ghost predicate OpensAt(rs: seq<Request>, k: nat, c: nat) {
    && k < |rs| && Attempts(Run(rs[..k]), rs[k]) && rs[k].fault != RequestLost
    && Congruent(Run(rs[..k]).amf.nextNgap, c)
  }

  /** Request m deregistered a UE with a number congruent to c, and its release took effect. */
  ghost predicate ClosesAt(rs: seq<Request>, m: nat, c: nat) {
    && m < |rs| && rs[m].Deregister? && rs[m].fault != RequestLost
    && exists j: nat :: HasNumber(Run(rs[..m]), rs[m].supi, j) && Congruent(j, c)
  }

  ghost predicate NoneClosed(rs: seq<Request>, k: nat, c: nat) {
    forall m: nat :: k < m < |rs| ==> !ClosesAt(rs, m, c)
  }

  /** Since the latest session was opened under a number congruent to c, none has been closed. */
  ghost predicate Undisturbed(rs: seq<Request>, c: nat) {
    exists k: nat :: OpensAt(rs, k, c) && NoneClosed(rs, k, c)
  }

  lemma EarlierRequestsStand(pre: seq<Request>, r: Request, k: nat, c: nat)
    requires k < |pre|
    ensures OpensAt(pre + [r], k, c) <==> OpensAt(pre, k, c)
    ensures ClosesAt(pre + [r], k, c) <==> ClosesAt(pre, k, c)
  {
    assert (pre + [r])[..k] == pre[..k];
  }

  lemma NoneClosedExtends(pre: seq<Request>, r: Request, k: nat, c: nat)
    requires k < |pre|
    ensures NoneClosed(pre + [r], k, c) <==> NoneClosed(pre, k, c) && !ClosesAt(pre + [r], |pre|, c)
  {
    forall m: nat | k < m < |pre|
      ensures ClosesAt(pre + [r], m, c) <==> ClosesAt(pre, m, c)
    {
      EarlierRequestsStand(pre, r, m, c);
    }
  }

  lemma UndisturbedExtends(pre: seq<Request>, r: Request, c: nat)
    ensures Undisturbed(pre + [r], c) <==>
      OpensAt(pre + [r], |pre|, c) || (Undisturbed(pre, c) && !ClosesAt(pre + [r], |pre|, c))
  {
    var rs := pre + [r];
    if Undisturbed(rs, c) {
      var k: nat :| OpensAt(rs, k, c) && NoneClosed(rs, k, c);
      if k < |pre| {
        EarlierRequestsStand(pre, r, k, c);
        NoneClosedExtends(pre, r, k, c);
      }
    }
    if OpensAt(rs, |pre|, c) {
      assert NoneClosed(rs, |pre|, c);
    }
    if Undisturbed(pre, c) && !ClosesAt(rs, |pre|, c) {
      var k: nat :| OpensAt(pre, k, c) && NoneClosed(pre, k, c);
      EarlierRequestsStand(pre, r, k, c);
      NoneClosedExtends(pre, r, k, c);
      assert OpensAt(rs, k, c);
    }
  }

  lemma LastOpens(pre: seq<Request>, r: Request, c: nat)
    ensures OpensAt(pre + [r], |pre|, c) <==>
      Attempts(Run(pre), r) && r.fault != RequestLost && UeIp(Run(pre).amf.nextNgap) == UeIp(c)
  {
    assert (pre + [r])[..|pre|] == pre;
    UeIpSame(Run(pre).amf.nextNgap, c);
  }

  lemma LastCloses(pre: seq<Request>, r: Request, c: nat)
    ensures ClosesAt(pre + [r], |pre|, c) <==>
      var s := Run(pre);
      && r.Deregister? && r.fault != RequestLost && r.supi in s.amf.contexts
      && s.amf.contexts[r.supi].upfSessionId in s.upf.sessions
      && s.upf.sessions[s.amf.contexts[r.supi].upfSessionId].ueIp == UeIp(c)
  {
    var s := Run(pre);
    assert (pre + [r])[..|pre|] == pre;
    if r.Deregister? && r.supi in s.amf.contexts {
      NumbersKept(pre, r.supi);
      var j := Born(pre)[s.amf.contexts[r.supi].upfSessionId];
      AddressOfUe(pre, r.supi, j);
      UeIpSame(j, c);
      forall i: nat | HasNumber(s, r.supi, i)
        ensures i == j
      {
        NgapIdInjective(i, j);
      }
      assert HasNumber(s, r.supi, j);
    }
  }

  lemma IndexedStep(pre: seq<Request>, r: Request, c: nat)
    requires UeIp(c) in Run(pre).upf.index <==> Undisturbed(pre, c)
    ensures UeIp(c) in Run(pre + [r]).upf.index <==> Undisturbed(pre + [r], c)
  {
    var s := Run(pre);
    RunExtends(pre, r);
    RunKeeps(pre);
    UndisturbedExtends(pre, r, c);
    LastOpens(pre, r, c);
    LastCloses(pre, r, c);
    if Attempts(s, r) {
      AttemptDoes(s, r);
    } else if r.Deregister? && r.supi in s.amf.contexts {
      DeregisterDoes(s, r);
    } else {
      OtherwiseNothing(s, r);
    }
  }

  /** The address of NGAP number c is indexed exactly while it is undisturbed. */
  lemma {:induction false} IndexedExactly(rs: seq<Request>, c: nat)
    ensures UeIp(c) in Run(rs).upf.index <==> Undisturbed(rs, c)
  {
    if rs == [] {
      assert !Undisturbed(rs, c);
    } else {
      var pre, r := rs[..|rs| - 1], rs[|rs| - 1];
      assert rs == pre + [r];
      IndexedExactly(pre, c);
      IndexedStep(pre, r, c);
    }
  }

  /** Service, exactly, in every run and whatever is lost. A packet from the address of NGAP number c
      to an unblocked destination is forwarded, with QoS class 9, if and only if no UE whose number
      is congruent to c modulo 254 was effectively deregistered after the latest session was opened
      under such a number; otherwise it is dropped. */
  lemma ServedExactly(rs: seq<Request>, c: nat, p: Packet)
    requires p.srcIp == UeIp(c) && !BlockedDestination(p.dstIp)
    ensures Decide(Lookup(Run(rs).upf, p.srcIp), p) ==
      Decided(if Undisturbed(rs, c) then Verdict(FORWARD, "172.16.0.1", 9) else DROPPED)
  {
    var u := Run(rs).upf;
    RunKeeps(rs);
    BornKept(rs);
    IndexedExactly(rs, c);
    if p.srcIp in u.index {
      assert BornAt(Run(rs), Born(rs), u.index[p.srcIp]);
    }
  }

  /** The answer to any packet from an address the AMF can give out, blocked destination or not. */
  lemma TrafficAnswered(rs: seq<Request>, c: nat, p: Packet)
    requires p.srcIp == UeIp(c)
    ensures ReplyTo(Run(rs), Traffic(p)) == Answered(Decided(
      if !Undisturbed(rs, c) then Verdict(DROP, "", 0)
      else if BlockedDestination(p.dstIp) then Verdict(DROP, "", 9)
      else Verdict(FORWARD, "172.16.0.1", 9)))
  {
    var u := Run(rs).upf;
    RunKeeps(rs);
    BornKept(rs);
    IndexedExactly(rs, c);
    if p.srcIp in u.index {
      assert BornAt(Run(rs), Born(rs), u.index[p.srcIp]);
    }
  }

  /** Only addresses the AMF gave out are indexed. */
  lemma IndexedIsGivenOut(rs: seq<Request>, ip: string)
    ensures ip in Run(rs).upf.index ==> exists c: nat :: ip == UeIp(c)
  {
    RunKeeps(rs);
    BornKept(rs);
    if ip in Run(rs).upf.index {
      assert BornAt(Run(rs), Born(rs), Run(rs).upf.index[ip]);
    }
  }

  /** A packet from any other address is dropped. */
  lemma StrangerDropped(rs: seq<Request>, p: Packet)
    requires forall c: nat :: p.srcIp != UeIp(c)
    ensures ReplyTo(Run(rs), Traffic(p)) == Answered(Decided(Verdict(DROP, "", 0)))
  {
    IndexedIsGivenOut(rs, p.srcIp);
  }

  /** So being registered is not enough: the UE with number c, live session and all, is served exactly
      while its number is undisturbed. */
  lemma RegisteredUeIsServedExactly(rs: seq<Request>, supi: string, c: nat, p: Packet)
    requires HasNumber(Run(rs), supi, c) && !BlockedDestination(p.dstIp)
    requires var s, sid := Run(rs), Run(rs).amf.contexts[supi].upfSessionId;
      sid in s.upf.sessions && p.srcIp == s.upf.sessions[sid].ueIp
    ensures Forwards(Decide(Lookup(Run(rs).upf, p.srcIp), p)) <==> Undisturbed(rs, c)
  {
    AddressOfUe(rs, supi, c);
    ServedExactly(rs, c, p);
  }

  // ---- A registered UE that is not served ----------------------------------------------------

  /** Registrations whose session request is lost: each uses up an NGAP number and nothing more. */
  function Lost(n: nat, supi: string): seq<Request> {
    seq(n, _ => Register(supi, "initial", "", RequestLost))
  }

  lemma {:induction false} LostUseNumbers(rs: seq<Request>, n: nat, supi: string)
    requires supi != "" && supi !in Run(rs).amf.contexts
    ensures var s, t := Run(rs), Run(rs + Lost(n, supi));
      t.upf == s.upf && t.amf.contexts == s.amf.contexts && t.amf.nextNgap == s.amf.nextNgap + n
  {
    if n == 0 {
      assert rs + Lost(n, supi) == rs;
    } else {
      var r := Register(supi, "initial", "", RequestLost);
      assert rs + Lost(n, supi) == rs + Lost(n - 1, supi) + [r];
      LostUseNumbers(rs, n - 1, supi);
      RunExtends(rs + Lost(n - 1, supi), r);
      AttemptDoes(Run(rs + Lost(n - 1, supi)), r);
    }
  }

  /** A UE that comes and goes leaves the address it had unindexed, and the contexts as they were. */
  lemma VisitUnindexes(rs: seq<Request>, supi: string) returns (longer: seq<Request>)
    requires supi != "" && supi !in Run(rs).amf.contexts
    ensures Run(longer).amf.contexts == Run(rs).amf.contexts
    ensures UeIp(Run(rs).amf.nextNgap) !in Run(longer).upf.index
  {
    var comes, goes := Register(supi, "initial", "", Delivered), Deregister(supi, Delivered);
    RunExtends(rs, comes);
    AttemptDoes(Run(rs), comes);
    RunExtends(rs + [comes], goes);
    RunKeeps(rs + [comes]);
    DeregisterDoes(Run(rs + [comes]), goes);
    longer := rs + [comes] + [goes];
  }

  /** UE a is registered, its session is live, and packets from that session's address are dropped. */
  ghost predicate RegisteredButDropped(s: System, a: string) {
    && a in s.amf.contexts
    && var sid := s.amf.contexts[a].upfSessionId;
       && sid in s.upf.sessions
       && forall p: Packet :: p.srcIp == s.upf.sessions[sid].ueIp ==>
            Decide(Lookup(s.upf, p.srcIp), p) == Decided(DROPPED)
  }

  /** UE a, with number c, is registered, and the next number is congruent to c: a visit by another UE
      ends a's service. */
  lemma VisitEndsService(rs: seq<Request>, a: string, c: nat, b: string) returns (longer: seq<Request>)
    requires HasNumber(Run(rs), a, c) && Congruent(Run(rs).amf.nextNgap, c)
    requires b != "" && b !in Run(rs).amf.contexts
    ensures Run(longer).amf.contexts == Run(rs).amf.contexts && RegisteredButDropped(Run(longer), a)
  {
    longer := VisitUnindexes(rs, b);
    UeIpSame(Run(rs).amf.nextNgap, c);
    AddressOfUe(longer, a, c);
  }

  lemma FirstUe(supi: string) returns (rs: seq<Request>, c: nat)
    requires supi != ""
    ensures Run(rs).amf.contexts.Keys == {supi} && HasNumber(Run(rs), supi, c) && Run(rs).amf.nextNgap == c + 1
  {
    var r := Register(supi, "initial", "", Delivered);
    assert Run([]) == INIT_SYSTEM;
    RunExtends([], r);
    AttemptDoes(INIT_SYSTEM, r);
    rs, c := [] + [r], INIT_SYSTEM.amf.nextNgap;
  }

  lemma NextRound(c: nat)
    ensures Congruent(c + 254, c)
  {
    assert c + 254 == 254 * (c / 254 + 1) + c % 254;
  }

  /** UE a registers, 253 registrations lose their session request, and UE b, which so gets a's
      address, comes and goes. Then a is the only UE registered, its session is live, and its packets
      are dropped. */
  lemma RegisteredUeIsDropped(a: string, b: string) returns (rs: seq<Request>)
    requires a != "" && b != "" && a != b
    ensures Run(rs).amf.contexts.Keys == {a} && RegisteredButDropped(Run(rs), a)
  {
    var first, c := FirstUe(a);
    LostUseNumbers(first, 253, b);
    var quiet := first + Lost(253, b);
    NextRound(c);
    rs := VisitEndsService(quiet, a, c, b);
  }
}
