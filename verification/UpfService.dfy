/** UpfServiceImpl with no thread pool: the session tables and counters as updated fields. */
module UpfService {
  import opened SessionTable
  import opened SessionHistory

  /** A session just established is the latest for its address, and its id is new. */
  lemma EstablishedIsLatest(pre: seq<Op>, op: Op)
    requires Legal(pre) && op.resp == Apply(Replay(pre), op.call).1
    requires op.call.Establish? && op.resp.success
    ensures LatestFor(pre + [op], op.resp.sessionId, op.call.req.ueIp)
    ensures op.resp.sessionId !in Replay(pre).sessions
  {
    LastCall(pre, op);
    LatestExtends(pre, op, op.resp.sessionId, op.call.req.ueIp);
    ReplayKeepsTables(pre);
    FreshId(Replay(pre));
  }

  class UpfServiceImpl {
    var sessions: map<string, PduSession>
    var ueToSession: map<string, string>
    var sessionIdCounter: nat
    var pktCount: nat
    var fwdCount: nat
    var dropCount: nat
    /** The calls answered so far. */
    ghost var log: seq<Op>

    ghost function State(): Upf
      reads this
    {
      Upf(sessions, ueToSession, sessionIdCounter, pktCount, fwdCount, dropCount)
    }

    /** The fields hold what a single-threaded UPF holds after the calls answered so far. */
    ghost predicate Valid()
      reads this
    {
      Legal(log) && State() == Replay(log)
    }

    constructor ()
      ensures Valid() && log == [] && State() == INIT_UPF
    {
      sessions, ueToSession := map[], map[];
      sessionIdCounter := 1;
      pktCount, fwdCount, dropCount := 0, 0, 0;
      log := [];
    }

    /** The id is new, and it is the only one minted. */
    method GenerateSessionId() returns (id: string)
      modifies this`sessionIdCounter
      ensures id == SessionId(old(sessionIdCounter)) && sessionIdCounter == old(sessionIdCounter) + 1
      ensures !Minted(old(State()), id)
      ensures forall x :: Minted(State(), x) <==> Minted(old(State()), x) || x == id
    {
      id := SessionId(sessionIdCounter);
      sessionIdCounter := sessionIdCounter + 1;
      OneMoreId(old(State()), State());
    }

    method EstablishSession(req: EstablishRequest) returns (resp: Response)
      requires Valid()
      modifies this
      ensures Valid() && log == old(log) + [Op(0, Establish(req), resp)]
      ensures (State(), resp) == ApplyEstablish(old(State()), req)
      ensures resp.Established? && (resp.success <==> req.supi != "" && req.ueIp != "")
      ensures resp.success ==> resp.sessionId !in old(sessions)
    {
      if req.supi == "" || req.ueIp == "" {
        resp := Established(false, "", "invalid_request");
      } else {
        var id := GenerateSessionId();
        var session := PduSession(id, req.supi, req.ueIp, req.dnn, req.qosProfile, true);
        sessions := sessions[session.sessionId := session];
        ueToSession := ueToSession[session.ueIp := session.sessionId];
        resp := Established(true, session.sessionId, "");
      }
      Record(Establish(req), resp);
      if resp.success {
        EstablishedIsLatest(old(log), log[|log| - 1]);
      }
    }

    method ReleaseSession(sessionId: string) returns (resp: Response)
      requires Valid()
      modifies this
      ensures Valid() && log == old(log) + [Op(0, Release(sessionId), resp)]
      ensures (State(), resp) == ApplyRelease(old(State()), sessionId)
      ensures resp.Released? && (resp.success <==> sessionId in old(sessions))
      ensures sessionId !in sessions && (resp.success ==> old(sessions[sessionId].ueIp) !in ueToSession)
    {
      if sessionId !in sessions {
        resp := Released(false, "session_not_found");
      } else {
        ueToSession := ueToSession - {sessions[sessionId].ueIp};
        sessions := sessions - {sessionId};
        resp := Released(true, "");
      }
      Record(Release(sessionId), resp);
    }

    /** Writes the two out-parameters as classify does; at() cannot fail here. */
    method ClassifyInto(p: Packet) returns (action: Action, qosOut: nat, nextHop: string)
      requires Valid()
      ensures Decide(Lookup(State(), p.srcIp), p) == Decided(Verdict(action, nextHop, qosOut))
      ensures action == FORWARD ==> exists id :: LatestFor(log, id, p.srcIp)
    {
      ReplayKeepsTables(log);
      TablesByHistory(log);
      action, qosOut, nextHop := DROP, 0, "";
      if p.srcIp !in ueToSession {
        return;
      }
      var session := sessions[ueToSession[p.srcIp]];
      assert LatestFor(log, ueToSession[p.srcIp], p.srcIp);
      if !session.active {
        return;
      }
      qosOut := session.qosProfile;
      if Prefix(p.dstIp, 3) == "10." || Prefix(p.dstIp, 8) == "192.168." {
        return DROP, qosOut, nextHop;
      }
      if qosOut == 1 {
        if p.protocol == "UDP" && p.dstPort >= 16384 && p.dstPort <= 32767 {
          nextHop := "172.16.0.1";
          return FORWARD, qosOut, nextHop;
        }
        return DROP, qosOut, nextHop;
      }
      if qosOut == 4 {
        if p.dstPort == 443 || p.dstPort == 1935 || (p.dstPort >= 16384 && p.dstPort <= 32767) {
          nextHop := "172.16.0.1";
          return FORWARD, qosOut, nextHop;
        }
        return DROP, qosOut, nextHop;
      }
      nextHop := "172.16.0.1";
      return FORWARD, qosOut, nextHop;
    }

    method ClassifyPacket(p: Packet) returns (verdict: Verdict)
      requires Valid()
      modifies this
      ensures Valid() && log == old(log) + [Op(0, Classify(p), Classified(Decided(verdict)))]
      ensures sessions == old(sessions) && ueToSession == old(ueToSession)
      ensures pktCount == fwdCount + dropCount
    {
      var action, qosClass, nextHop := ClassifyInto(p);
      pktCount := pktCount + 1;
      verdict := Verdict(action, nextHop, qosClass);
      if action == FORWARD {
        fwdCount := fwdCount + 1;
      } else {
        dropCount := dropCount + 1;
      }
      Record(Classify(p), Classified(Decided(verdict)));
      ReplayConserves(log);
    }

    /** Enters the call just answered into the history. */
    ghost method Record(call: Call, resp: Response)
      requires Legal(log) && resp == Apply(Replay(log), call).1 && State() == Apply(Replay(log), call).0
      modifies this`log
      ensures Valid() && log == old(log) + [Op(0, call, resp)]
    {
      LegalExtends(log, Op(0, call, resp));
      log := log + [Op(0, call, resp)];
    }
  }

}
