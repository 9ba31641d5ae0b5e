/** The UPF's tables and its three operations, each as it acts on the state in one thread
    (upf/src/upf_server.cpp). */
module SessionTable {
  import opened Decimal

  datatype PduSession = PduSession(
    sessionId: string, supi: string, ueIp: string, dnn: string, qosProfile: nat, active: bool)

  /** `index` is ue_to_session_; the last three fields are the packet counters. */
  datatype Upf = Upf(
    sessions: map<string, PduSession>, index: map<string, string>, nextId: nat,
    packets: nat, forwarded: nat, dropped: nat)

  const INIT_UPF := Upf(map[], map[], 1, 0, 0, 0)

  datatype EstablishRequest = EstablishRequest(supi: string, dnn: string, ueIp: string, qosProfile: nat)

  datatype Packet = Packet(
    srcIp: string, dstIp: string, srcPort: nat, dstPort: nat, protocol: string, sessionId: string)

  datatype Action = FORWARD | DROP

  datatype Verdict = Verdict(action: Action, nextHop: string, qosClass: nat)

  /** The result of classify: std::unordered_map::at throws on a missing key. */
  datatype Outcome = Threw | Decided(verdict: Verdict)

  datatype Call =
    | Establish(req: EstablishRequest)
    | Release(sessionId: string)
    | Classify(packet: Packet)

  datatype Response =
    | Established(success: bool, sessionId: string, cause: string)
    | Released(success: bool, cause: string)
    | Classified(outcome: Outcome)

  function SessionId(k: nat): string { "sess-" + Dec(k) }

  lemma SessionIdInjective(j: nat, k: nat)
    requires SessionId(j) == SessionId(k)
    ensures j == k
  {
    assert Dec(j) == SessionId(j)[5..] == Dec(k);
    DecInjective(j, k);
  }

  /** The text of a session id, exactly: the prefix, and the one decimal text of the number. */
  lemma SessionIdExactly(id: string, k: nat)
    ensures id == SessionId(k) <==>
      |id| >= 5 && id[..5] == "sess-" && IsDecimal(id[5..]) && Undec(id[5..]) == k
  {
    assert SessionId(k)[..5] == "sess-" && SessionId(k)[5..] == Dec(k);
    if |id| >= 5 {
      assert id == id[..5] + id[5..];
      DecExactly(id[5..], k);
    }
  }

  function ApplyEstablish(u: Upf, req: EstablishRequest): (Upf, Response) {
    if req.supi == "" || req.ueIp == "" then
      (u, Established(false, "", "invalid_request"))
    else
      var id := SessionId(u.nextId);
      var session := PduSession(id, req.supi, req.ueIp, req.dnn, req.qosProfile, true);
      (u.(sessions := u.sessions[id := session], index := u.index[req.ueIp := id], nextId := u.nextId + 1),
       Established(true, id, ""))
  }

  function ApplyRelease(u: Upf, id: string): (Upf, Response) {
    if id !in u.sessions then
      (u, Released(false, "session_not_found"))
    else
      (u.(index := u.index - {u.sessions[id].ueIp}, sessions := u.sessions - {id}),
       Released(true, ""))
  }

  /** The part of classify done under sessions_mutex_. */
  datatype Found = NoSession | OutOfRange | Session(qosProfile: nat, active: bool)

  function Lookup(u: Upf, ip: string): Found {
    if ip !in u.index then NoSession
    else if u.index[ip] !in u.sessions then OutOfRange
    else Session(u.sessions[u.index[ip]].qosProfile, u.sessions[u.index[ip]].active)
  }

  /** std::string::substr(0, n). */
  function Prefix(s: string, n: nat): string {
    if |s| < n then s else s[..n]
  }

  predicate BlockedDestination(dst: string) {
    Prefix(dst, 3) == "10." || Prefix(dst, 8) == "192.168."
  }

  const NEXT_HOP := "172.16.0.1"
  const DROPPED := Verdict(DROP, "", 0)

  /** The decision classify takes after the lock is released. */
  function Decide(f: Found, p: Packet): Outcome {
    match f
    case NoSession => Decided(DROPPED)
    case OutOfRange => Threw
    case Session(qos, active) =>
      if !active then Decided(DROPPED)
      else if BlockedDestination(p.dstIp) then Decided(Verdict(DROP, "", qos))
      else if qos == 1 then
        if p.protocol == "UDP" && 16384 <= p.dstPort <= 32767 then Decided(Verdict(FORWARD, NEXT_HOP, qos))
        else Decided(Verdict(DROP, "", qos))
      else if qos == 4 then
        if p.dstPort == 443 || p.dstPort == 1935 || 16384 <= p.dstPort <= 32767 then
          Decided(Verdict(FORWARD, NEXT_HOP, qos))
        else Decided(Verdict(DROP, "", qos))
      else Decided(Verdict(FORWARD, NEXT_HOP, qos))
  }

  predicate Forwards(o: Outcome) { o.Decided? && o.verdict.action == FORWARD }

  predicate Drops(o: Outcome) { o.Decided? && o.verdict.action == DROP }

  /** ClassifyPacket with pool_ null: count the packet, classify, count the outcome. */
  function ApplyClassify(u: Upf, p: Packet): (Upf, Response) {
    var o := Decide(Lookup(u, p.srcIp), p);
    (u.(packets := u.packets + 1,
        forwarded := u.forwarded + (if Forwards(o) then 1 else 0),
        dropped := u.dropped + (if Drops(o) then 1 else 0)),
     Classified(o))
  }

  function Apply(u: Upf, c: Call): (Upf, Response) {
    match c
    case Establish(req) => ApplyEstablish(u, req)
    case Release(id) => ApplyRelease(u, id)
    case Classify(p) => ApplyClassify(u, p)
  }

  // ---- Sequential runs -----------------------------------------------------------------------

  /** One completed operation; `caller` tells concurrent callers apart. */
  datatype Op = Op(caller: nat, call: Call, resp: Response)

  /** The state a single-threaded UPF reaches by the calls of `log`, in order. */
  function Replay(log: seq<Op>): Upf {
    if log == [] then INIT_UPF else Apply(Replay(log[..|log| - 1]), log[|log| - 1].call).0
  }

  /** Every answer in the log is the one a single-threaded UPF gives at that point. */
  ghost predicate Legal(log: seq<Op>) {
    forall k :: 0 <= k < |log| ==> log[k].resp == Apply(Replay(log[..k]), log[k].call).1
  }

  lemma LegalPrefix(log: seq<Op>)
    requires Legal(log) && log != []
    ensures Legal(log[..|log| - 1])
  {
    var pre := log[..|log| - 1];
    forall k | 0 <= k < |pre|
      ensures pre[k].resp == Apply(Replay(pre[..k]), pre[k].call).1
    {
      assert pre[..k] == log[..k];
    }
  }

  lemma LegalExtends(log: seq<Op>, op: Op)
    requires Legal(log) && op.resp == Apply(Replay(log), op.call).1
    ensures Legal(log + [op]) && Replay(log + [op]) == Apply(Replay(log), op.call).0
  {
    var longer := log + [op];
    assert longer[..|log|] == log;
    forall k | 0 <= k < |longer|
      ensures longer[k].resp == Apply(Replay(longer[..k]), longer[k].call).1
    {
      assert longer[..k] == log[..k];
    }
  }

  // ---- The invariant classify relies on ------------------------------------------------------

  ghost predicate Minted(u: Upf, id: string) {
    exists k: nat :: k < u.nextId && id == SessionId(k)
  }

  ghost predicate TablesOk(u: Upf) {
    && (forall id :: id in u.sessions ==>
          u.sessions[id].sessionId == id && u.sessions[id].active && Minted(u, id))
    && (forall ip :: ip in u.index ==> u.index[ip] in u.sessions && u.sessions[u.index[ip]].ueIp == ip)
    && u.nextId >= 1
  }

  lemma FreshId(u: Upf)
    ensures !Minted(u, SessionId(u.nextId))
  {
    forall k: nat | k < u.nextId
      ensures SessionId(k) != SessionId(u.nextId)
    {
      if SessionId(k) == SessionId(u.nextId) {
        SessionIdInjective(k, u.nextId);
      }
    }
  }

  /** Taking a number mints its id, which is new, and no other. */
  lemma OneMoreId(u: Upf, v: Upf)
    requires v.nextId == u.nextId + 1
    ensures !Minted(u, SessionId(u.nextId))
    ensures forall id :: Minted(v, id) <==> Minted(u, id) || id == SessionId(u.nextId)
  {
    FreshId(u);
    forall id
      ensures Minted(v, id) <==> Minted(u, id) || id == SessionId(u.nextId)
    {
      if Minted(u, id) {
        var k: nat :| k < u.nextId && id == SessionId(k);
        assert k < v.nextId;
      }
      assert u.nextId < v.nextId;
    }
  }

  lemma ApplyKeepsTables(u: Upf, c: Call)
    requires TablesOk(u)
    ensures TablesOk(Apply(u, c).0)
  {
    FreshId(u);
    var u' := Apply(u, c).0;
    forall id | id in u'.sessions
      ensures Minted(u', id)
    {
      if id in u.sessions {
        var k: nat :| k < u.nextId && id == SessionId(k);
        assert k < u'.nextId;
      } else {
        assert u.nextId < u'.nextId && id == SessionId(u.nextId);
      }
    }
  }

  lemma {:induction false} ReplayKeepsTables(log: seq<Op>)
    ensures TablesOk(Replay(log))
  {
    if log != [] {
      ReplayKeepsTables(log[..|log| - 1]);
      ApplyKeepsTables(Replay(log[..|log| - 1]), log[|log| - 1].call);
    }
  }

  /** In a state with consistent tables classify does not throw. */
  lemma NeverThrows(u: Upf, p: Packet)
    requires TablesOk(u)
    ensures Decide(Lookup(u, p.srcIp), p).Decided?
  {
  }

  /** Single-threaded packet conservation: every packet is forwarded or dropped. */
  lemma {:induction false} ReplayConserves(log: seq<Op>)
    ensures Replay(log).packets == Replay(log).forwarded + Replay(log).dropped
  {
    if log != [] {
      var pre := log[..|log| - 1];
      ReplayConserves(pre);
      ReplayKeepsTables(pre);
    }
  }

  /** A QoS class admits the packet: class 1 carries UDP media ports, class 4 those ports over any
      protocol and two streaming ports, and any other class everything. */
  predicate Admits(qos: nat, p: Packet) {
    var media := 16384 <= p.dstPort <= 32767;
    (qos == 1 ==> media && p.protocol == "UDP") && (qos == 4 ==> media || p.dstPort in {443, 1935})
  }

  /** When classify forwards: there is an indexed session, the destination is outside both tested
      blocks, and the session's QoS class admits the packet. The next hop is set exactly on
      forwarding, and the QoS class reported is the session's unless no session was found. */
  lemma ForwardsExactly(u: Upf, p: Packet)
    requires TablesOk(u)
    ensures var o := Decide(Lookup(u, p.srcIp), p);
      && (Forwards(o) <==>
            (p.srcIp in u.index && !BlockedDestination(p.dstIp) &&
             Admits(u.sessions[u.index[p.srcIp]].qosProfile, p)))
      && o.Decided?
      && (o.verdict.nextHop == (if Forwards(o) then "172.16.0.1" else ""))
      && (o.verdict.qosClass ==
            if p.srcIp in u.index then u.sessions[u.index[p.srcIp]].qosProfile else 0)
  {
  }
}
