/** The REST AMF against the AMF with its UPF: the same registration logic, seen from outside. */
module Simulation {
  import opened Decimal
  import opened SessionTable
  import opened Registration
  import opened Json
  import opened RestAmf

  /** Both sides hold the same UEs under the same NGAP ids and will mint the same next id. */
  ghost predicate Similar(s: System, t: Rest) {
    && s.amf.contexts.Keys == t.contexts.Keys
    && s.amf.nextNgap == t.nextNgap && s.amf.regCount == t.regCount
    && (forall supi :: supi in t.contexts ==>
          t.contexts[supi] == RestContext(supi, s.amf.contexts[supi].amfUeNgapId, true))
  }

  /** One request as it reaches both servers: a gRPC message, and a REST body at some time. */
  datatype Exchange = Exchange(req: Request, body: string, now: int)

  /** The REST body says the same registration type. */
  ghost predicate SameRequest(x: Exchange) {
    x.req.Register? ==> ExtractField(x.body, "registration_type") == x.req.regType
  }

  function RestStep(t: Rest, x: Exchange): (Rest, HttpReply) {
    match x.req
    case Register(supi, _, _, _) => RestRegister(t, supi, x.body, x.now)
    case Deregister(supi, _) => RestDelete(t, supi)
    case Traffic(_) => (t, HttpReply(200, ""))
  }

  ghost predicate Says(text: string, accepted: bool, ngapId: string, cause: string, now: int) {
    && text == MakeJsonResponse(accepted, ngapId, cause, now)
    && ExtractField(text, NGAP_KEY) == ngapId && ExtractField(text, CAUSE_KEY) == cause
  }

  /** The two servers decide alike: one accepts exactly when the other does, the REST reply is the
      gRPC reply printed, and a REST client reads from it the very NGAP id and cause. */
  ghost predicate DecideAlike(reply: Reply, http: HttpReply, now: int) {
    && (reply.Accepted? <==> http.status == 201)
    && (reply.Accepted? ==> Says(http.content, true, reply.ngapId, "", now))
    && (reply.Rejected? ==> Says(http.content, false, "", reply.cause, now))
  }

  /** A printed reply without quotes in its fields, as its reader sees it. */
  lemma ReplyReads(accepted: bool, ngapId: string, cause: string, now: int)
    requires QuoteFree(ngapId) && QuoteFree(cause)
    ensures Says(MakeJsonResponse(accepted, ngapId, cause, now), accepted, ngapId, cause, now)
  {
    NgapRoundTrip(accepted, ngapId, cause, now);
    CauseRoundTrip(accepted, ngapId, cause, now);
  }

  /** What the REST register handler's reply says to its reader. */
  lemma RestReplyReads(t: Rest, supi: string, body: string, now: int)
    ensures var (_, http) := RestRegister(t, supi, body, now);
      if supi in t.contexts && ExtractField(body, "registration_type") == "initial" then
        http.status == 200 && Says(http.content, false, "", "already_registered", now)
      else
        http.status == 201 && Says(http.content, true, NgapId(t.nextNgap), "", now)
  {
    NgapIdQuoteFree(t.nextNgap);
    ReplyReads(true, NgapId(t.nextNgap), "", now);
    ReplyReads(false, "", "already_registered", now);
  }

  lemma RegisteredAlike(s: System, t: Rest, x: Exchange)
    requires Similar(s, t) && x.req.Register? && SameRequest(x) && Attempts(s, x.req)
    ensures RestStep(t, x).0 ==
      Rest(t.contexts[x.req.supi := RestContext(x.req.supi, NgapId(t.nextNgap), true)], t.nextNgap + 1, t.regCount + 1)
    ensures x.req.fault == Delivered ==> Similar(Step(s, x.req), RestStep(t, x).0)
  {
    AttemptDoes(s, x.req);
  }

  lemma RefusedAlike(s: System, t: Rest, x: Exchange)
    requires Similar(s, t) && x.req.Register? && SameRequest(x) && !Attempts(s, x.req)
    ensures Step(s, x.req) == s
    ensures x.req.supi != "" ==> ReplyTo(s, x.req) == Rejected("already_registered") && RestStep(t, x).0 == t
    ensures x.req.supi == "" ==> ReplyTo(s, x.req) == Rejected("missing_supi")
  {
  }

  /** From similar states a registration is decided alike if and only if its SUPI is non-empty and
      either the UPF exchange suffers no fault or the UE is refused as already registered. In that
      case the states stay similar. */
  lemma RegisterSimulates(s: System, t: Rest, x: Exchange)
    requires JointOk(s) && Similar(s, t) && x.req.Register? && SameRequest(x)
    ensures DecideAlike(ReplyTo(s, x.req), RestStep(t, x).1, x.now) <==>
      x.req.supi != "" && (x.req.fault == Delivered || !Attempts(s, x.req))
    ensures DecideAlike(ReplyTo(s, x.req), RestStep(t, x).1, x.now) ==> Similar(Step(s, x.req), RestStep(t, x).0)
  {
    var r := x.req;
    RestReplyReads(t, r.supi, x.body, x.now);
    assert "" in s.amf.contexts ==> ContextOk(s, "");
    if Attempts(s, r) {
      AttemptDoes(s, r);
      RegisteredAlike(s, t, x);
    } else {
      RefusedAlike(s, t, x);
    }
  }

  /** Corollary: deregistration keeps the states similar whatever is lost; but the replies say the same only for
      a registered UE, since REST reports success for an unknown one too. */
  lemma DeregisterSimulates(s: System, t: Rest, x: Exchange)
    requires Similar(s, t) && x.req.Deregister?
    ensures Similar(Step(s, x.req), RestStep(t, x).0)
    ensures RestStep(t, x).1 == HttpReply(200, "{\"success\":true}")
    ensures ReplyTo(s, x.req).Deregistered? <==> x.req.supi in t.contexts
  {
  }

  // ---- Whole runs ----------------------------------------------------------------------------

  function Requests(xs: seq<Exchange>): seq<Request> {
    seq(|xs|, i requires 0 <= i < |xs| => xs[i].req)
  }

  function RestRun(xs: seq<Exchange>): Rest {
    if xs == [] then INIT_REST else RestStep(RestRun(xs[..|xs| - 1]), xs[|xs| - 1]).0
  }

  /** Non-empty SUPIs, no transport fault, and the two forms of each request agreeing. */
  ghost predicate Faultless(xs: seq<Exchange>) {
    forall i :: 0 <= i < |xs| ==>
      SameRequest(xs[i]) && (xs[i].req.Register? ==> xs[i].req.supi != "" && xs[i].req.fault == Delivered)
  }

  lemma StepSimulates(s: System, t: Rest, x: Exchange)
    requires JointOk(s) && Similar(s, t) && SameRequest(x)
    requires x.req.Register? ==> x.req.supi != "" && x.req.fault == Delivered
    ensures Similar(Step(s, x.req), RestStep(t, x).0)
    ensures x.req.Register? ==> DecideAlike(ReplyTo(s, x.req), RestStep(t, x).1, x.now)
  {
    match x.req
    case Register(_, _, _, _) => RegisterSimulates(s, t, x);
    case Deregister(_, _) => DeregisterSimulates(s, t, x);
    case Traffic(_) => OtherwiseNothing(s, x.req);
  }

  lemma {:induction false} RunSimulates(xs: seq<Exchange>)
    requires Faultless(xs)
    ensures Similar(Run(Requests(xs)), RestRun(xs))
  {
    if xs != [] {
      var pre := xs[..|xs| - 1];
      RunSimulates(pre);
      assert Requests(xs)[..|xs| - 1] == Requests(pre);
      RunKeeps(Requests(pre));
      StepSimulates(Run(Requests(pre)), RestRun(pre), xs[|xs| - 1]);
    }
  }

  /** Simulation: over any sequence of requests with non-empty SUPIs and no transport fault on
      registrations, both AMFs hold the same registered UEs under the same NGAP ids throughout, and
      decide every registration alike. */
  lemma Simulates(xs: seq<Exchange>, k: nat)
    requires Faultless(xs) && k < |xs|
    ensures Similar(Run(Requests(xs[..k])), RestRun(xs[..k]))
    ensures xs[k].req.Register? ==>
      DecideAlike(ReplyTo(Run(Requests(xs[..k])), xs[k].req), RestStep(RestRun(xs[..k]), xs[k]).1, xs[k].now)
  {
    RunSimulates(xs[..k]);
    RunKeeps(Requests(xs[..k]));
    StepSimulates(Run(Requests(xs[..k])), RestRun(xs[..k]), xs[k]);
  }

  /** The body the transport benchmark posts carries its registration type to the REST AMF. */
  lemma BenchmarkBodyReads(regType: string, rest: string)
    requires QuoteFree(regType)
    ensures ExtractField("{\"registration_type\":\"" + regType + "\"" + rest, "registration_type") == regType
  {
    assert "{\"registration_type\":\"" == "{" + SearchFor("registration_type");
    var pat := SearchFor("registration_type");
    var tail := regType + "\"" + rest;
    assert "{" + pat + regType + "\"" + rest == "{" + pat + tail;
    assert ("{" + pat + tail)[0] == '{' && pat[0] == '\"';
    assert !MatchAt("{" + pat + tail, pat, 0);
    ExtractAfter("{", "registration_type", tail);
    UpToQuoteWithin(regType, rest);
  }
}
