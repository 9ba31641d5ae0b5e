/** The REST AMF's two handlers (transport-bench/rest_amf_server.cpp): state and replies. */
module RestAmf {
  import opened Decimal
  import opened Json
  import opened Registration

  datatype RestContext = RestContext(supi: string, ngapId: string, registered: bool)

  datatype Rest = Rest(contexts: map<string, RestContext>, nextNgap: nat, regCount: nat)

  const INIT_REST := Rest(map[], 1000, 0)

  datatype HttpReply = HttpReply(status: nat, content: string)

  /** The state after an accepted registration. */
  function Admitted(s: Rest, supi: string): Rest {
    Rest(s.contexts[supi := RestContext(supi, NgapId(s.nextNgap), true)], s.nextNgap + 1, s.regCount + 1)
  }

  /** POST .../{supi}/register; `now` is the timestamp. */
  function RestRegister(s: Rest, supi: string, body: string, now: int): (Rest, HttpReply) {
    if supi in s.contexts && ExtractField(body, "registration_type") == "initial" then
      (s, HttpReply(200, MakeJsonResponse(false, "", "already_registered", now)))
    else
      (Admitted(s, supi), HttpReply(201, MakeJsonResponse(true, NgapId(s.nextNgap), "", now)))
  }

  /** DELETE .../{supi}: it answers success whether or not the UE is known. */
  function RestDelete(s: Rest, supi: string): (Rest, HttpReply) {
    (s.(contexts := s.contexts - {supi}), HttpReply(200, "{\"success\":true}"))
  }

  // ---- The invariant -------------------------------------------------------------------------

  /** Each context stands under its own SUPI with a minted NGAP id that no other context has; the two
      counters move together. */
  ghost predicate RestOk(s: Rest) {
    && s.nextNgap == 1000 + s.regCount && |s.contexts| <= s.regCount
    && (forall supi :: supi in s.contexts ==>
          && s.contexts[supi].supi == supi && s.contexts[supi].registered
          && NgapMinted(s.nextNgap, s.contexts[supi].ngapId))
    && (forall a, b :: a in s.contexts && b in s.contexts && a != b ==>
          s.contexts[a].ngapId != s.contexts[b].ngapId)
  }

  lemma NgapIdQuoteFree(k: nat)
    ensures QuoteFree(NgapId(k))
  {
    assert forall i :: 0 <= i < |Dec(k)| ==> IsDigit(Dec(k)[i]);
    assert QuoteFree("ngap-");
  }

  /** The body asks for an initial registration: the first value given for the type is that word. */
  ghost predicate AsksInitial(body: string) {
    exists k: nat :: FirstAt(body, "\"registration_type\":\"", k) && UpToQuote(body[k + 21..]) == "initial"
  }

  lemma {:induction false} FirstMatch(text: string, pat: string, k: nat) returns (first: nat)
    requires MatchAt(text, pat, k)
    ensures first <= k && FirstAt(text, pat, first)
  {
    if j: nat :| j < k && MatchAt(text, pat, j) {
      first := FirstMatch(text, pat, j);
    } else {
      first := k;
    }
  }

  /** What the handler reads is "initial" exactly when the body asks for it; in particular never when
      the field is missing. */
  lemma TypeRead(body: string)
    ensures ExtractField(body, "registration_type") == "initial" <==> AsksInitial(body)
    ensures (forall k: nat :: !MatchAt(body, "\"registration_type\":\"", k)) ==> !AsksInitial(body)
  {
    var pat := SearchFor("registration_type");
    assert pat == "\"registration_type\":\"" && |pat| == 21;
    ExtractExactly(body, "registration_type");
    if k: nat :| MatchAt(body, pat, k) {
      var first := FirstMatch(body, pat, k);
    }
  }

  /** A registration is accepted unless the UE is known and asks for an initial one. If accepted, the
      UE is registered under an id that was never minted before, which a client reads back from the
      reply, and nobody else is touched; if not, nothing changes. */
  ghost predicate RegistersAs(s: Rest, supi: string, initial: bool, t: Rest, reply: HttpReply, now: int) {
    && reply.status == (if supi in s.contexts && initial then 200 else 201)
    && (reply.status == 200 ==>
          t == s && reply.content == MakeJsonResponse(false, "", "already_registered", now))
    && (reply.status == 201 ==>
          && supi in t.contexts && t.contexts == s.contexts[supi := t.contexts[supi]]
          && !NgapMinted(s.nextNgap, t.contexts[supi].ngapId)
          && (forall other :: other in s.contexts ==> s.contexts[other].ngapId != t.contexts[supi].ngapId)
          && reply.content == MakeJsonResponse(true, t.contexts[supi].ngapId, "", now)
          && ExtractField(reply.content, NGAP_KEY) == t.contexts[supi].ngapId)
  }

  /** The id an accepted registration gets is nobody's. */
  lemma IdIsFree(s: Rest)
    requires RestOk(s)
    ensures !NgapMinted(s.nextNgap, NgapId(s.nextNgap))
    ensures forall other :: other in s.contexts ==> s.contexts[other].ngapId != NgapId(s.nextNgap)
  {
    FreshNgap(s.nextNgap);
  }

  lemma AdmittedMints(s: Rest, supi: string, other: string)
    requires RestOk(s) && other in Admitted(s, supi).contexts
    ensures NgapMinted(s.nextNgap + 1, Admitted(s, supi).contexts[other].ngapId)
  {
    OneMoreNgap(s.nextNgap);
  }

  lemma AdmittedGrows(s: Rest, supi: string)
    ensures |Admitted(s, supi).contexts| <= |s.contexts| + 1
  {
    assert Admitted(s, supi).contexts.Keys == s.contexts.Keys + {supi};
  }

  lemma AdmittedKeeps(s: Rest, supi: string)
    requires RestOk(s)
    ensures RestOk(Admitted(s, supi))
  {
    var t := Admitted(s, supi);
    IdIsFree(s);
    AdmittedGrows(s, supi);
    forall other | other in t.contexts
      ensures NgapMinted(t.nextNgap, t.contexts[other].ngapId)
    {
      AdmittedMints(s, supi, other);
    }
  }

  lemma RestRegisterKeeps(s: Rest, supi: string, body: string, now: int, t: Rest, reply: HttpReply)
    requires RestOk(s) && (t, reply) == RestRegister(s, supi, body, now)
    ensures RestOk(t)
    ensures RegistersAs(s, supi, AsksInitial(body), t, reply, now)
  {
    TypeRead(body);
    AdmittedKeeps(s, supi);
    IdIsFree(s);
    NgapIdQuoteFree(s.nextNgap);
    NgapRoundTrip(true, NgapId(s.nextNgap), "", now);
  }

  /** A body without the field is always accepted, for a known UE too. */
  lemma NoTypeIsAccepted(s: Rest, supi: string, body: string, now: int)
    requires forall k: nat :: !MatchAt(body, "\"registration_type\":\"", k)
    ensures RestRegister(s, supi, body, now).1.status == 201
    ensures RestRegister(s, supi, body, now).0 == Admitted(s, supi)
  {
    TypeRead(body);
  }

  lemma RestDeleteKeeps(s: Rest, supi: string)
    requires RestOk(s)
    ensures RestOk(RestDelete(s, supi).0)
  {
    var t := RestDelete(s, supi).0;
    assert t.contexts.Keys == s.contexts.Keys - {supi};
    assert |s.contexts.Keys| == |t.contexts.Keys| + |s.contexts.Keys * {supi}|;
  }

  class RestAmfServer {
    var ueContexts: map<string, RestContext>
    var ngapCounter: nat
    var regCount: nat

    ghost function State(): Rest
      reads this
    {
      Rest(ueContexts, ngapCounter, regCount)
    }

    ghost predicate Valid()
      reads this
    {
      RestOk(State())
    }

    constructor ()
      ensures Valid() && State() == INIT_REST
    {
      ueContexts, ngapCounter, regCount := map[], 1000, 0;
    }

    method Register(supi: string, body: string, now: int) returns (reply: HttpReply)
      requires Valid()
      modifies this
      ensures Valid()
      ensures RegistersAs(old(State()), supi, AsksInitial(body), State(), reply, now)
      ensures (State(), reply) == RestRegister(old(State()), supi, body, now)
    {
      var regType := ExtractField(body, "registration_type");
      if supi in ueContexts && regType == "initial" {
        reply := HttpReply(200, MakeJsonResponse(false, "", "already_registered", now));
        RestRegisterKeeps(old(State()), supi, body, now, State(), reply);
        return;
      }
      var ue := RestContext(supi, NgapId(ngapCounter), true);
      ngapCounter := ngapCounter + 1;
      ueContexts := ueContexts[supi := ue];
      regCount := regCount + 1;
      reply := HttpReply(201, MakeJsonResponse(true, ue.ngapId, "", now));
      RestRegisterKeeps(old(State()), supi, body, now, State(), reply);
    }

    method Delete(supi: string) returns (reply: HttpReply)
      requires Valid()
      modifies this
      ensures Valid()
      ensures supi !in ueContexts
      ensures forall other :: other != supi ==>
        && (other in ueContexts <==> other in old(ueContexts))
        && (other in ueContexts ==> ueContexts[other] == old(ueContexts)[other])
      ensures ngapCounter == old(ngapCounter) && regCount == old(regCount)
      ensures (State(), reply) == RestDelete(old(State()), supi)
    {
      RestDeleteKeeps(State(), supi);
      ueContexts := ueContexts - {supi};
      reply := HttpReply(200, "{\"success\":true}");
    }
  }
}
