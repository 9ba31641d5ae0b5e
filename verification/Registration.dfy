/** The AMF (amf/src/amf_server.cpp) and the UPF it calls, as one system. Each RPC is delivered, or
    its request is lost before it takes effect, or it takes effect and its reply is lost; the AMF
    is the UPF's only session client, and any traffic may be classified in between. */
module Registration {
  import opened Decimal
  import opened SessionTable

  datatype UEContext = UEContext(
    supi: string, amfUeNgapId: string, nssai: string, upfSessionId: string, registered: bool)

  datatype Amf = Amf(contexts: map<string, UEContext>, regCount: nat, deregCount: nat, nextNgap: nat)

  datatype System = System(amf: Amf, upf: Upf)

  const INIT_SYSTEM := System(Amf(map[], 0, 0, 1000), INIT_UPF)

  datatype Fault = Delivered | RequestLost | ReplyLost

  datatype Request =
    | Register(supi: string, regType: string, nssai: string, fault: Fault)
    | Deregister(supi: string, fault: Fault)
    | Traffic(packet: Packet)

  datatype Reply =
    | Accepted(ngapId: string)
    | Rejected(cause: string)
    | Deregistered
    | NotDeregistered(cause: string)
    | Answered(outcome: Outcome)

  /** The counter increment an operation still has to make when it has updated the table. */
  datatype Due = Nothing | RegDue | DeregDue

  function NgapId(k: nat): string { "ngap-" + Dec(k) }

  function Octet(k: nat): nat { (k + 1) % 254 + 1 }

  /** The address given to the UE whose NGAP id is number k: the counter is read after it has been
      incremented. */
  function UeIp(k: nat): string { "10.0.0." + Dec(Octet(k)) }

  lemma NgapIdInjective(j: nat, k: nat)
    requires NgapId(j) == NgapId(k)
    ensures j == k
  {
    assert Dec(j) == NgapId(j)[5..] == Dec(k);
    DecInjective(j, k);
  }

  /** The text of an NGAP id, exactly: the prefix, and the one decimal text of the number. */
  lemma NgapIdExactly(id: string, k: nat)
    ensures id == NgapId(k) <==>
      |id| >= 5 && id[..5] == "ngap-" && IsDecimal(id[5..]) && Undec(id[5..]) == k
  {
    assert NgapId(k)[..5] == "ngap-" && NgapId(k)[5..] == Dec(k);
    if |id| >= 5 {
      assert id == id[..5] + id[5..];
      DecExactly(id[5..], k);
    }
  }

  lemma NextResidue(k: nat)
    ensures (k + 1) % 254 == if k % 254 == 253 then 0 else k % 254 + 1
  {
    assert k + 1 == 254 * (k / 254) + (k % 254 + 1);
  }

  /** Two NGAP numbers get the same address exactly when they differ by a multiple of 254. */
  lemma UeIpSame(j: nat, k: nat)
    ensures UeIp(j) == UeIp(k) <==> j % 254 == k % 254
  {
    NextResidue(j);
    NextResidue(k);
    if UeIp(j) == UeIp(k) {
      assert Dec(Octet(j)) == UeIp(j)[7..] == Dec(Octet(k));
      DecInjective(Octet(j), Octet(k));
    }
  }

  /** What the UPF does, and what the AMF sees: None when the RPC fails. */
  datatype RpcResult = Failed | Got(resp: Response)

  function CallUpf(u: Upf, c: Call, fault: Fault): (Upf, RpcResult) {
    match fault
    case Delivered => (Apply(u, c).0, Got(Apply(u, c).1))
    case RequestLost => (u, Failed)
    case ReplyLost => (Apply(u, c).0, Failed)
  }

  /** establish_upf_session, for the UE with NGAP number k: the UPF afterwards, whether it worked,
      and the session id. */
  function EstablishUpf(u: Upf, supi: string, k: nat, fault: Fault): (Upf, bool, string) {
    var (v, rpc) := CallUpf(u, Establish(EstablishRequest(supi, "internet", UeIp(k), 9)), fault);
    if rpc.Failed? || !rpc.resp.Established? || !rpc.resp.success then (v, false, "")
    else (v, true, rpc.resp.sessionId)
  }

  /** Register up to and including the table write. */
  function BeginRegister(s: System, supi: string, regType: string, nssai: string, fault: Fault)
    : (System, Reply, Due)
  {
    if supi == "" then
      (s, Rejected("missing_supi"), Nothing)
    else if supi in s.amf.contexts && regType == "initial" then
      (s, Rejected("already_registered"), Nothing)
    else
      var k := s.amf.nextNgap;
      var amf := s.amf.(nextNgap := k + 1);
      var (u, ok, sessionId) := EstablishUpf(s.upf, supi, k, fault);
      if !ok then
        (System(amf, u), Rejected("upf_session_failed"), Nothing)
      else
        var ue := UEContext(supi, NgapId(k), nssai, sessionId, true);
        (System(amf.(contexts := amf.contexts[supi := ue]), u), Accepted(NgapId(k)), RegDue)
  }

  /** Deregister up to and including the table write; the release status is ignored. */
  function BeginDeregister(s: System, supi: string, fault: Fault): (System, Reply, Due) {
    if supi !in s.amf.contexts then
      (s, NotDeregistered("ue_not_found"), Nothing)
    else
      var (u, _) := CallUpf(s.upf, Release(s.amf.contexts[supi].upfSessionId), fault);
      (System(s.amf.(contexts := s.amf.contexts - {supi}), u), Deregistered, DeregDue)
  }

  /** The state a metrics scrape sees while the operation is between its table write and its
      counter increment. */
  function Begin(s: System, r: Request): (System, Reply, Due) {
    match r
    case Register(supi, regType, nssai, fault) => BeginRegister(s, supi, regType, nssai, fault)
    case Deregister(supi, fault) => BeginDeregister(s, supi, fault)
    case Traffic(p) =>
      var (u, resp) := ApplyClassify(s.upf, p);
      (s.(upf := u), Answered(resp.outcome), Nothing)
  }

  function Settle(s: System, d: Due): System {
    match d
    case Nothing => s
    case RegDue => s.(amf := s.amf.(regCount := s.amf.regCount + 1))
    case DeregDue => s.(amf := s.amf.(deregCount := s.amf.deregCount + 1))
  }

  function Step(s: System, r: Request): System {
    var (t, _, due) := Begin(s, r);
    Settle(t, due)
  }

  function ReplyTo(s: System, r: Request): Reply { Begin(s, r).1 }

  // ---- The three ways a session is orphaned --------------------------------------------------

  /** The request gets past Register's two early rejections. */
  predicate Attempts(s: System, r: Request) {
    r.Register? && r.supi != "" && !(r.supi in s.amf.contexts && r.regType == "initial")
  }

  /** A re-registration that overwrites a context without releasing its session. */
  predicate Overwrites(s: System, r: Request) {
    Attempts(s, r) && r.fault == Delivered && r.supi in s.amf.contexts
  }

  /** An establish that took effect but whose reply was lost. */
  predicate LosesReply(s: System, r: Request) {
    Attempts(s, r) && r.fault == ReplyLost
  }

  /** A release that never took effect. */
  predicate MissesRelease(s: System, r: Request) {
    r.Deregister? && r.supi in s.amf.contexts && r.fault == RequestLost
  }

  // ---- Runs ----------------------------------------------------------------------------------

  /** The system after the requests `rs`, in order. */
  function Run(rs: seq<Request>): System {
    if rs == [] then INIT_SYSTEM else Step(Run(rs[..|rs| - 1]), rs[|rs| - 1])
  }

  /** How many requests of the run were of a kind. */
  ghost function Occurrences(rs: seq<Request>, kind: (System, Request) -> bool): nat {
    if rs == [] then 0
    else
      Occurrences(rs[..|rs| - 1], kind)
      + (if kind(Run(rs[..|rs| - 1]), rs[|rs| - 1]) then 1 else 0)
  }

  ghost function Orphaned(rs: seq<Request>): nat {
    Occurrences(rs, Overwrites) + Occurrences(rs, LosesReply) + Occurrences(rs, MissesRelease)
  }

  // ---- The joint invariant -------------------------------------------------------------------

  /** The id was rendered from a counter that has come as far as next. */
  ghost predicate NgapMinted(next: nat, id: string) {
    exists k: nat :: k < next && id == NgapId(k)
  }

  ghost predicate ContextOk(s: System, supi: string)
    requires supi in s.amf.contexts
  {
    var ue := s.amf.contexts[supi];
    && ue.supi == supi && supi != "" && ue.registered
    && NgapMinted(s.amf.nextNgap, ue.amfUeNgapId)
    && ue.upfSessionId in s.upf.sessions
    && s.upf.sessions[ue.upfSessionId].supi == supi
  }

  /** Every context names a live session of its own UE, and no two contexts share an NGAP id. */
  ghost predicate JointOk(s: System) {
    && TablesOk(s.upf)
    && (forall supi :: supi in s.amf.contexts ==> ContextOk(s, supi))
    && (forall a, b :: a in s.amf.contexts && b in s.amf.contexts && a != b ==>
          s.amf.contexts[a].amfUeNgapId != s.amf.contexts[b].amfUeNgapId)
  }

  lemma FreshNgap(next: nat)
    ensures !NgapMinted(next, NgapId(next))
  {
    forall k: nat | k < next
      ensures NgapId(k) != NgapId(next)
    {
      if NgapId(k) == NgapId(next) {
        NgapIdInjective(k, next);
      }
    }
  }

  lemma NgapMintedGrows(m: nat, n: nat, id: string)
    requires NgapMinted(m, id) && m <= n
    ensures NgapMinted(n, id)
  {
    var k: nat :| k < m && id == NgapId(k);
    assert k < n;
  }

  /** Taking a number mints its id, which is new, and no other. */
  lemma OneMoreNgap(next: nat)
    ensures !NgapMinted(next, NgapId(next))
    ensures forall id :: NgapMinted(next + 1, id) <==> NgapMinted(next, id) || id == NgapId(next)
  {
    FreshNgap(next);
    forall id
      ensures NgapMinted(next + 1, id) <==> NgapMinted(next, id) || id == NgapId(next)
    {
      if NgapMinted(next, id) {
        NgapMintedGrows(next, next + 1, id);
      }
      assert next < next + 1;
    }
  }

  lemma MapAdd<K, V>(m: map<K, V>, k: K, v: V)
    requires k !in m
    ensures |m[k := v]| == |m| + 1
  {
    assert m[k := v].Keys == m.Keys + {k};
  }

  lemma MapRemove<K, V>(m: map<K, V>, k: K)
    requires k in m
    ensures |m - {k}| == |m| - 1
  {
    assert (m - {k}).Keys == m.Keys - {k};
  }

  /** The session and the context an attempt creates. */
  function NewSession(s: System, r: Request): PduSession
    requires r.Register?
  {
    PduSession(SessionId(s.upf.nextId), r.supi, UeIp(s.amf.nextNgap), "internet", 9, true)
  }

  function NewContext(s: System, r: Request): UEContext
    requires r.Register?
  {
    UEContext(r.supi, NgapId(s.amf.nextNgap), r.nssai, SessionId(s.upf.nextId), true)
  }

  /** What an attempt does: it uses up an NGAP number; unless its request is lost the UPF gains one
      session, under an unused id and indexed by its address; and only if the reply arrives does
      the AMF store a context naming that session. */
  lemma AttemptDoes(s: System, r: Request)
    requires Attempts(s, r)
    ensures var t := Step(s, r);
      && t.amf.nextNgap == s.amf.nextNgap + 1
      && t.amf.contexts ==
           (if r.fault == Delivered then s.amf.contexts[r.supi := NewContext(s, r)] else s.amf.contexts)
      && t.amf.regCount == s.amf.regCount + (if r.fault == Delivered then 1 else 0)
      && t.amf.deregCount == s.amf.deregCount
      && (if r.fault == RequestLost then t.upf == s.upf
          else
            && t.upf.sessions == s.upf.sessions[SessionId(s.upf.nextId) := NewSession(s, r)]
            && t.upf.index == s.upf.index[UeIp(s.amf.nextNgap) := SessionId(s.upf.nextId)]
            && t.upf.nextId == s.upf.nextId + 1)
      && (ReplyTo(s, r).Accepted? <==> r.fault == Delivered)
      && (ReplyTo(s, r).Accepted? ==> ReplyTo(s, r) == Accepted(NgapId(s.amf.nextNgap)))
  {
    assert UeIp(s.amf.nextNgap) != "";
  }

  /** The UPF's own tables stay consistent, whatever the AMF asks of it. */
  lemma TablesKept(s: System, r: Request)
    requires TablesOk(s.upf)
    ensures TablesOk(Step(s, r).upf)
  {
    match r
    case Register(supi, _, _, fault) =>
      ApplyKeepsTables(s.upf, Establish(EstablishRequest(supi, "internet", UeIp(s.amf.nextNgap), 9)));
    case Deregister(supi, fault) =>
      if supi in s.amf.contexts {
        ApplyKeepsTables(s.upf, Release(s.amf.contexts[supi].upfSessionId));
      }
    case Traffic(p) => ApplyKeepsTables(s.upf, Classify(p));
  }

  lemma AttemptContexts(s: System, r: Request, supi: string)
    requires JointOk(s) && Attempts(s, r) && supi in Step(s, r).amf.contexts
    ensures ContextOk(Step(s, r), supi)
  {
    var t := Step(s, r);
    AttemptDoes(s, r);
    FreshId(s.upf);
    if supi == r.supi && r.fault == Delivered {
      assert s.amf.nextNgap < t.amf.nextNgap;
    } else {
      assert ContextOk(s, supi);
      NgapMintedGrows(s.amf.nextNgap, t.amf.nextNgap, s.amf.contexts[supi].amfUeNgapId);
    }
  }

  lemma AttemptNgaps(s: System, r: Request, a: string, b: string)
    requires JointOk(s) && Attempts(s, r) && a != b
    requires a in Step(s, r).amf.contexts && b in Step(s, r).amf.contexts
    ensures Step(s, r).amf.contexts[a].amfUeNgapId != Step(s, r).amf.contexts[b].amfUeNgapId
  {
    AttemptDoes(s, r);
    FreshNgap(s.amf.nextNgap);
    if a in s.amf.contexts {
      assert ContextOk(s, a);
    }
    if b in s.amf.contexts {
      assert ContextOk(s, b);
    }
  }

  lemma AttemptKeeps(s: System, r: Request)
    requires JointOk(s) && Attempts(s, r)
    ensures JointOk(Step(s, r))
  {
    TablesKept(s, r);
    var t := Step(s, r);
    forall supi | supi in t.amf.contexts
      ensures ContextOk(t, supi)
    {
      AttemptContexts(s, r, supi);
    }
    forall a, b | a in t.amf.contexts && b in t.amf.contexts && a != b
      ensures t.amf.contexts[a].amfUeNgapId != t.amf.contexts[b].amfUeNgapId
    {
      AttemptNgaps(s, r, a, b);
    }
  }

  /** A deregistration removes its own context and, unless the request is lost, its own session. */
  lemma DeregisterDoes(s: System, r: Request)
    requires JointOk(s) && r.Deregister? && r.supi in s.amf.contexts
    ensures var t, sid := Step(s, r), s.amf.contexts[r.supi].upfSessionId;
      && t.amf == s.amf.(contexts := s.amf.contexts - {r.supi}, deregCount := s.amf.deregCount + 1)
      && t.upf == (if r.fault == RequestLost then s.upf else
            s.upf.(sessions := s.upf.sessions - {sid}, index := s.upf.index - {s.upf.sessions[sid].ueIp}))
  {
    assert ContextOk(s, r.supi);
  }

  lemma DeregisterKeeps(s: System, r: Request)
    requires JointOk(s) && r.Deregister? && r.supi in s.amf.contexts
    ensures JointOk(Step(s, r))
  {
    TablesKept(s, r);
    DeregisterDoes(s, r);
    var t := Step(s, r);
    assert ContextOk(s, r.supi);
    forall supi | supi in t.amf.contexts
      ensures ContextOk(t, supi)
      ensures supi in s.amf.contexts
    {
      assert ContextOk(s, supi);
      NgapMintedGrows(s.amf.nextNgap, t.amf.nextNgap, s.amf.contexts[supi].amfUeNgapId);
    }
  }

  lemma OtherwiseNothing(s: System, r: Request)
    requires !Attempts(s, r) && !(r.Deregister? && r.supi in s.amf.contexts)
    ensures var t := Step(s, r);
      && t.amf == s.amf && t.upf.sessions == s.upf.sessions && t.upf.index == s.upf.index
      && t.upf.nextId == s.upf.nextId && !ReplyTo(s, r).Accepted?
  {
  }

  lemma StepKeeps(s: System, r: Request)
    requires JointOk(s)
    ensures JointOk(Step(s, r))
  {
    if Attempts(s, r) {
      AttemptKeeps(s, r);
    } else if r.Deregister? && r.supi in s.amf.contexts {
      DeregisterKeeps(s, r);
    } else {
      OtherwiseNothing(s, r);
      TablesKept(s, r);
      forall supi | supi in s.amf.contexts
        ensures ContextOk(Step(s, r), supi)
      {
        assert ContextOk(s, supi);
      }
    }
  }

  lemma {:induction false} RunKeeps(rs: seq<Request>)
    ensures JointOk(Run(rs))
  {
    if rs != [] {
      RunKeeps(rs[..|rs| - 1]);
      StepKeeps(Run(rs[..|rs| - 1]), rs[|rs| - 1]);
    }
  }

  /** Joint invariant over every run, whatever is lost: every AMF context names a session that is
      live at the UPF under that UE's SUPI, so no two contexts share a session, and none share an
      NGAP id. */
  lemma ContextsNameLiveSessions(rs: seq<Request>)
    ensures var s := Run(rs);
      && (forall supi :: supi in s.amf.contexts ==>
            s.amf.contexts[supi].upfSessionId in s.upf.sessions &&
            s.upf.sessions[s.amf.contexts[supi].upfSessionId].supi == supi)
      && (forall a, b :: a in s.amf.contexts && b in s.amf.contexts && a != b ==>
            s.amf.contexts[a].upfSessionId != s.amf.contexts[b].upfSessionId &&
            s.amf.contexts[a].amfUeNgapId != s.amf.contexts[b].amfUeNgapId)
  {
    RunKeeps(rs);
    var s := Run(rs);
    forall supi | supi in s.amf.contexts
      ensures s.amf.contexts[supi].upfSessionId in s.upf.sessions
      ensures s.upf.sessions[s.amf.contexts[supi].upfSessionId].supi == supi
    {
      assert ContextOk(s, supi);
    }
  }
}
