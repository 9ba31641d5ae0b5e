/** AmfServiceImpl: the context table and counters as updated fields, and the UPF it calls. Each
    method takes the fate of its RPC, which the network decides. */
module AmfService {
  import opened Decimal
  import opened SessionTable
  import opened Registration
  import opened UpfService

  /** The state and reply after an attempt, put together from what its RPC returned. */
  lemma AttemptAssembles(s: System, r: Request)
    requires Attempts(s, r)
    ensures var k := s.amf.nextNgap;
      var (u, ok, sessionId) := EstablishUpf(s.upf, r.supi, k, r.fault);
      if ok then
        && ReplyTo(s, r) == Accepted(NgapId(k))
        && Step(s, r) == System(
             Amf(s.amf.contexts[r.supi := UEContext(r.supi, NgapId(k), r.nssai, sessionId, true)],
                 s.amf.regCount + 1, s.amf.deregCount, k + 1), u)
      else
        && ReplyTo(s, r) == Rejected("upf_session_failed")
        && Step(s, r) == System(Amf(s.amf.contexts, s.amf.regCount, s.amf.deregCount, k + 1), u)
  {
  }

  /** The same for a deregistration: what its RPC returned plays no part. */
  lemma ReleaseAssembles(s: System, r: Request)
    requires r.Deregister?
    ensures
      if r.supi in s.amf.contexts then
        var (u, _) := CallUpf(s.upf, Release(s.amf.contexts[r.supi].upfSessionId), r.fault);
        && ReplyTo(s, r) == Deregistered
        && Step(s, r) == System(
             Amf(s.amf.contexts - {r.supi}, s.amf.regCount, s.amf.deregCount + 1, s.amf.nextNgap), u)
      else
        ReplyTo(s, r) == NotDeregistered("ue_not_found") && Step(s, r) == s
  {
  }

  class AmfServiceImpl {
    var ueContexts: map<string, UEContext>
    var regCount: nat
    var deregCount: nat
    var ngapIdCounter: nat
    const upf: UpfServiceImpl

    ghost function State(): System
      reads this, upf
    {
      System(Amf(ueContexts, regCount, deregCount, ngapIdCounter), upf.State())
    }

    /** Every context names a live session of its UE, and no two share an NGAP id. */
    ghost predicate Valid()
      reads this, upf
    {
      upf.Valid() && JointOk(State())
    }

    constructor (upf: UpfServiceImpl)
      requires upf.Valid()
      ensures Valid() && this.upf == upf
      ensures State() == System(INIT_SYSTEM.amf, upf.State())
    {
      this.upf := upf;
      ueContexts, regCount, deregCount, ngapIdCounter := map[], 0, 0, 1000;
      new;
      ReplayKeepsTables(upf.log);
    }

    /** The id is new, and it is the only one minted. */
    method GenerateNgapId() returns (id: string)
      modifies this`ngapIdCounter
      ensures id == NgapId(old(ngapIdCounter)) && ngapIdCounter == old(ngapIdCounter) + 1
      ensures !NgapMinted(old(ngapIdCounter), id)
      ensures forall x :: NgapMinted(ngapIdCounter, x) <==> NgapMinted(old(ngapIdCounter), x) || x == id
    {
      OneMoreNgap(ngapIdCounter);
      id := NgapId(ngapIdCounter);
      ngapIdCounter := ngapIdCounter + 1;
    }

    /** The address comes from the counter as it is now, after the NGAP id was taken from it. */
    method EstablishUpfSession(supi: string, fault: Fault) returns (ok: bool, sessionId: string)
      requires upf.Valid() && ngapIdCounter > 0
      modifies upf
      ensures upf.Valid()
      ensures (upf.State(), ok, sessionId) == EstablishUpf(old(upf.State()), supi, ngapIdCounter - 1, fault)
    {
      var req := EstablishRequest(supi, "internet", "10.0.0." + Dec(ngapIdCounter % 254 + 1), 9);
      ok, sessionId := false, "";
      if fault != RequestLost {
        var resp := upf.EstablishSession(req);
        if fault == Delivered && resp.success {
          ok, sessionId := true, resp.sessionId;
        }
      }
    }

    /** Register once its two early checks are passed. */
    method Admit(supi: string, nssai: string, fault: Fault, ghost r: Request) returns (reply: Reply)
      requires upf.Valid() && Attempts(State(), r)
      requires r.supi == supi && r.nssai == nssai && r.fault == fault
      modifies this, upf
      ensures upf.Valid() && State() == Step(old(State()), r) && reply == ReplyTo(old(State()), r)
    {
      AttemptAssembles(State(), r);
      var ngapId := GenerateNgapId();
      var ok, sessionId := EstablishUpfSession(supi, fault);
      if !ok {
        return Rejected("upf_session_failed");
      }
      ueContexts := ueContexts[supi := UEContext(supi, ngapId, nssai, sessionId, true)];
      regCount := regCount + 1;
      reply := Accepted(ngapId);
    }

    method Register(supi: string, regType: string, nssai: string, fault: Fault) returns (reply: Reply)
      requires Valid()
      modifies this, upf
      ensures Valid()
      ensures var r := Registration.Request.Register(supi, regType, nssai, fault);
        State() == Step(old(State()), r) && reply == ReplyTo(old(State()), r)
    {
      ghost var r := Registration.Request.Register(supi, regType, nssai, fault);
      StepKeeps(State(), r);
      if supi == "" {
        return Rejected("missing_supi");
      }
      if supi in ueContexts && regType == "initial" {
        return Rejected("already_registered");
      }
      reply := Admit(supi, nssai, fault, r);
    }

    method Deregister(supi: string, fault: Fault) returns (reply: Reply)
      requires Valid()
      modifies this, upf
      ensures Valid()
      ensures var r := Registration.Request.Deregister(supi, fault);
        State() == Step(old(State()), r) && reply == ReplyTo(old(State()), r)
      ensures supi !in ueContexts
    {
      ghost var r := Registration.Request.Deregister(supi, fault);
      StepKeeps(State(), r);
      ReleaseAssembles(State(), r);
      if supi !in ueContexts {
        return NotDeregistered("ue_not_found");
      }
      if fault != RequestLost {
        var _ := upf.ReleaseSession(ueContexts[supi].upfSessionId);
      }
      ueContexts := ueContexts - {supi};
      deregCount := deregCount + 1;
      reply := Deregistered;
    }
  }

}
