/** The AMF's address allocator against the UPF's address index: 254 addresses, handed out by NGAP
    number modulo 254. */
module Addressing {
  import opened Decimal
  import opened SessionTable
  import opened IndexExactness
  import opened Registration
  import opened RegistrationTheorems
  import opened RegistrationHistory

  /** The NGAP number under which each session of the run was established. */
  function Born(rs: seq<Request>): map<string, nat> {
    if rs == [] then map[]
    else
      var pre, r := rs[..|rs| - 1], rs[|rs| - 1];
      var s := Run(pre);
      if Attempts(s, r) && r.fault != RequestLost then Born(pre)[SessionId(s.upf.nextId) := s.amf.nextNgap]
      else Born(pre)
  }

  ghost predicate BornAt(s: System, born: map<string, nat>, id: string)
    requires id in s.upf.sessions
  {
    && id in born && born[id] < s.amf.nextNgap
    && s.upf.sessions[id] == PduSession(id, s.upf.sessions[id].supi, UeIp(born[id]), "internet", 9, true)
  }

  /** Live sessions have the addresses of distinct NGAP numbers. */
  ghost predicate BornOk(s: System, born: map<string, nat>) {
    && (forall id :: id in s.upf.sessions ==> BornAt(s, born, id))
    && (forall i, j :: i in s.upf.sessions && j in s.upf.sessions && i != j && i in born && j in born ==>
          born[i] != born[j])
  }

  lemma BornFewer(s: System, t: System, born: map<string, nat>)
    requires BornOk(s, born) && s.amf.nextNgap <= t.amf.nextNgap
    requires forall id :: id in t.upf.sessions ==> id in s.upf.sessions && t.upf.sessions[id] == s.upf.sessions[id]
    ensures BornOk(t, born)
  {
    forall id | id in t.upf.sessions
      ensures BornAt(t, born, id)
    {
      assert BornAt(s, born, id);
    }
  }

  lemma BornAttempt(s: System, r: Request, t: System, born: map<string, nat>, born': map<string, nat>)
    requires BornOk(s, born) && r.Register? && t.amf.nextNgap == s.amf.nextNgap + 1
    requires SessionId(s.upf.nextId) !in s.upf.sessions
    requires if r.fault == RequestLost then t.upf == s.upf && born' == born else
      && t.upf.sessions == s.upf.sessions[SessionId(s.upf.nextId) := NewSession(s, r)]
      && born' == born[SessionId(s.upf.nextId) := s.amf.nextNgap]
    ensures BornOk(t, born')
  {
    forall id | id in t.upf.sessions
      ensures BornAt(t, born', id)
      ensures id in s.upf.sessions ==> born'[id] < s.amf.nextNgap
    {
      if id in s.upf.sessions {
        assert BornAt(s, born, id);
      }
    }
  }

  lemma BornStep(pre: seq<Request>, r: Request)
    requires BornOk(Run(pre), Born(pre))
    ensures BornOk(Run(pre + [r]), Born(pre + [r]))
  {
    var s := Run(pre);
    assert (pre + [r])[..|pre|] == pre;
    RunExtends(pre, r);
    RunKeeps(pre);
    if Attempts(s, r) {
      AttemptDoes(s, r);
      FreshId(s.upf);
      BornAttempt(s, r, Step(s, r), Born(pre), Born(pre + [r]));
    } else if r.Deregister? && r.supi in s.amf.contexts {
      DeregisterDoes(s, r);
      BornFewer(s, Step(s, r), Born(pre));
    } else {
      OtherwiseNothing(s, r);
      BornFewer(s, Step(s, r), Born(pre));
    }
  }

  lemma {:induction false} BornKept(rs: seq<Request>)
    ensures BornOk(Run(rs), Born(rs))
  {
    if rs != [] {
      var pre := rs[..|rs| - 1];
      BornKept(pre);
      BornStep(pre, rs[|rs| - 1]);
      assert rs == pre + [rs[|rs| - 1]];
    }
  }

  // ---- The addresses themselves --------------------------------------------------------------

  lemma AddressText(n: nat)
    ensures UeIp(1000 + n) == "10.0.0." + Dec((1001 + n) % 254 + 1)
  {
    assert 1000 + n + 1 == 1001 + n;
  }

  lemma OpensNewSession(s: System, r: Request)
    requires JointOk(s) && Attempts(s, r) && r.fault != RequestLost
    ensures var id := SessionId(s.upf.nextId);
      && id !in s.upf.sessions && id in Step(s, r).upf.sessions
      && Step(s, r).upf.sessions[id] == PduSession(id, r.supi, UeIp(s.amf.nextNgap), "internet", 9, true)
  {
    FreshId(s.upf);
    AttemptDoes(s, r);
  }

  /** A session the AMF opens asks for data network "internet" and QoS class 9, and its last octet is
      the number of attempts so far, 1001 further on, modulo 254 and counted from 1. */
  lemma SessionOpened(rs: seq<Request>, r: Request)
    requires Attempts(Run(rs), r) && r.fault != RequestLost
    ensures var id := SessionId(Run(rs).upf.nextId);
      && id !in Run(rs).upf.sessions && id in Run(rs + [r]).upf.sessions
      && Run(rs + [r]).upf.sessions[id] ==
           PduSession(id, r.supi, "10.0.0." + Dec((1001 + Occurrences(rs, Attempts)) % 254 + 1), "internet", 9, true)
  {
    RunExtends(rs, r);
    RunKeeps(rs);
    OpensNewSession(Run(rs), r);
    CountersByRequests(rs);
    AddressText(Occurrences(rs, Attempts));
  }

  /** The next number's address is the next one, and after the 254th comes the first. */
  lemma NextAddress(k: nat, o: nat)
    requires 1 <= o <= 254 && UeIp(k) == "10.0.0." + Dec(o)
    ensures UeIp(k + 1) == "10.0.0." + Dec(if o == 254 then 1 else o + 1)
  {
    assert Dec(Octet(k)) == UeIp(k)[7..] == Dec(o);
    DecInjective(Octet(k), o);
    NextResidue(k + 1);
  }

  /** The address of the session that request r opened after rs. */
  ghost function AddressGiven(rs: seq<Request>, r: Request): string
    requires Attempts(Run(rs), r) && r.fault != RequestLost
  {
    SessionOpened(rs, r);
    Run(rs + [r]).upf.sessions[SessionId(Run(rs).upf.nextId)].ueIp
  }

  lemma AddressOfNumber(rs: seq<Request>, r: Request)
    requires Attempts(Run(rs), r) && r.fault != RequestLost
    ensures AddressGiven(rs, r) == UeIp(1000 + Occurrences(rs, Attempts))
  {
    SessionOpened(rs, r);
    AddressText(Occurrences(rs, Attempts));
  }

  /** Two attempts with no other attempt between them, whatever else happens there, open sessions with
      successive addresses. With FirstRegistration this fixes every address handed out. */
  lemma SuccessiveAddresses(rs: seq<Request>, r: Request, between: seq<Request>, r': Request, o: nat)
    requires Attempts(Run(rs), r) && r.fault != RequestLost
    requires Attempts(Run(rs + [r] + between), r') && r'.fault != RequestLost
    requires Occurrences(rs + [r] + between, Attempts) == Occurrences(rs, Attempts) + 1
    requires 1 <= o <= 254 && AddressGiven(rs, r) == "10.0.0." + Dec(o)
    ensures AddressGiven(rs + [r] + between, r') == "10.0.0." + Dec(if o == 254 then 1 else o + 1)
  {
    AddressOfNumber(rs, r);
    AddressOfNumber(rs + [r] + between, r');
    NextAddress(1000 + Occurrences(rs, Attempts), o);
  }

  // ---- Within a window of 254 NGAP numbers ---------------------------------------------------

  /** Every live session was established under one of the last 254 NGAP numbers minted. */
  ghost predicate Recent(rs: seq<Request>) {
    forall id :: id in Run(rs).upf.sessions && id in Born(rs) ==> Run(rs).amf.nextNgap <= Born(rs)[id] + 254
  }

  ghost predicate AlwaysRecent(rs: seq<Request>) {
    forall n :: 0 <= n <= |rs| ==> Recent(rs[..n])
  }

  lemma CloseResidues(j: nat, k: nat)
    requires j < k < j + 254
    ensures j % 254 != k % 254
  {
    assert k - j == 254 * (k / 254 - j / 254) + (k % 254 - j % 254);
  }

  /** In such a state no two live sessions share an address. */
  lemma RecentAddressesDistinct(rs: seq<Request>, i: string, j: string)
    requires Recent(rs) && i in Run(rs).upf.sessions && j in Run(rs).upf.sessions && i != j
    ensures Run(rs).upf.sessions[i].ueIp != Run(rs).upf.sessions[j].ueIp
  {
    BornKept(rs);
    assert BornAt(Run(rs), Born(rs), i) && BornAt(Run(rs), Born(rs), j);
    var a, b := Born(rs)[i], Born(rs)[j];
    UeIpSame(a, b);
    if a < b {
      CloseResidues(a, b);
    } else {
      CloseResidues(b, a);
    }
  }

  lemma AlwaysRecentPrefix(pre: seq<Request>, r: Request)
    requires AlwaysRecent(pre + [r])
    ensures AlwaysRecent(pre) && Recent(pre + [r])
  {
    var rs := pre + [r];
    assert rs[..|rs|] == rs;
    forall n | 0 <= n <= |pre|
      ensures Recent(pre[..n])
    {
      assert pre[..n] == rs[..n];
    }
  }

  /** The address of a new registration is free while the window is kept. */
  lemma NewAddressFree(pre: seq<Request>, r: Request)
    requires Recent(pre + [r]) && Attempts(Run(pre), r) && r.fault != RequestLost
    ensures UeIp(Run(pre).amf.nextNgap) !in Run(pre).upf.index
  {
    var s := Run(pre);
    var ip, newest := UeIp(s.amf.nextNgap), SessionId(s.upf.nextId);
    RunKeeps(pre);
    RunExtends(pre, r);
    AttemptDoes(s, r);
    FreshId(s.upf);
    if ip in s.upf.index {
      var id := s.upf.index[ip];
      assert id in s.upf.sessions && s.upf.sessions[id].ueIp == ip && id != newest;
      var t := Run(pre + [r]);
      assert t.upf.sessions[id].ueIp == t.upf.sessions[newest].ueIp;
      RecentAddressesDistinct(pre + [r], id, newest);
    }
  }

  lemma ExactStays(pre: seq<Request>, r: Request)
    requires Exact(Run(pre).upf) && Recent(pre + [r])
    ensures Exact(Run(pre + [r]).upf)
  {
    var s := Run(pre);
    RunKeeps(pre);
    RunExtends(pre, r);
    if Attempts(s, r) && r.fault != RequestLost {
      NewAddressFree(pre, r);
      AttemptDoes(s, r);
      ExactStep(s.upf, Establish(EstablishRequest(r.supi, "internet", UeIp(s.amf.nextNgap), 9)));
    } else if Attempts(s, r) {
      AttemptDoes(s, r);
    } else if r.Deregister? && r.supi in s.amf.contexts {
      DeregisterDoes(s, r);
      ExactStep(s.upf, Release(s.amf.contexts[r.supi].upfSessionId));
    } else {
      OtherwiseNothing(s, r);
    }
  }

  /** While all live sessions come from the last 254 NGAP numbers, the index is the exact inverse of
      the session table, so the indexed lookup agrees with a search of it. */
  lemma {:induction false} RecentIndexExact(rs: seq<Request>)
    requires AlwaysRecent(rs)
    ensures Exact(Run(rs).upf)
  {
    if rs != [] {
      var pre, r := rs[..|rs| - 1], rs[|rs| - 1];
      assert rs == pre + [r];
      AlwaysRecentPrefix(pre, r);
      RecentIndexExact(pre);
      ExactStays(pre, r);
    }
  }

  /** So no two live sessions share an address, and classify finds a session for an address exactly
      when a search of the table would, and that one. */
  lemma RecentLookupIsSearch(rs: seq<Request>, ip: string)
    requires AlwaysRecent(rs)
    ensures var u := Run(rs).upf;
      && (Lookup(u, ip) == NoSession <==> forall id :: id in u.sessions ==> u.sessions[id].ueIp != ip)
      && (forall id :: id in u.sessions && u.sessions[id].ueIp == ip ==>
            Lookup(u, ip) == Session(u.sessions[id].qosProfile, true))
  {
    RecentIndexExact(rs);
    RunKeeps(rs);
    LookupAgreesWithSearch(Run(rs).upf, ip);
  }

  /** Registration gives service: while the window is kept, a packet from the address of a registered
      UE to an unblocked destination is forwarded with QoS class 9. */
  lemma RegisteredUeIsServed(rs: seq<Request>, supi: string, p: Packet)
    requires AlwaysRecent(rs) && supi in Run(rs).amf.contexts
    requires var sid := Run(rs).amf.contexts[supi].upfSessionId;
      sid in Run(rs).upf.sessions && p.srcIp == Run(rs).upf.sessions[sid].ueIp
    requires !BlockedDestination(p.dstIp)
    ensures Decide(Lookup(Run(rs).upf, p.srcIp), p) == Decided(Verdict(FORWARD, "172.16.0.1", 9))
  {
    RecentIndexExact(rs);
    RunKeeps(rs);
    BornKept(rs);
    assert BornAt(Run(rs), Born(rs), Run(rs).amf.contexts[supi].upfSessionId);
  }

  /** Corollary: deregistration ends it, in any run: once the release takes effect, packets from the
      address the UE had are dropped. */
  lemma DeregisteredUeIsDropped(rs: seq<Request>, supi: string, fault: Fault, p: Packet)
    requires supi in Run(rs).amf.contexts && fault != RequestLost
    requires var sid := Run(rs).amf.contexts[supi].upfSessionId;
      sid in Run(rs).upf.sessions && p.srcIp == Run(rs).upf.sessions[sid].ueIp
    ensures Decide(Lookup(Run(rs + [Deregister(supi, fault)]).upf, p.srcIp), p) == Decided(DROPPED)
  {
    RunKeeps(rs);
    RunExtends(rs, Deregister(supi, fault));
    DeregisterDoes(Run(rs), Deregister(supi, fault));
  }

  lemma FirstIdentifiers()
    ensures NgapId(1000) == "ngap-1000" && SessionId(1) == "sess-1" && UeIp(1000) == "10.0.0.240"
  {
    assert Dec(10) == "10" && Dec(24) == "24";
    assert Dec(100) == "100" && Dec(240) == "240";
    assert Octet(1000) == 240;
  }

  lemma FirstAttempt(s: System, r: Request)
    requires s == INIT_SYSTEM && Attempts(s, r) && r.fault == Delivered
    ensures ReplyTo(s, r) == Accepted(NgapId(1000))
    ensures Step(s, r).upf.sessions ==
      map[SessionId(1) := PduSession(SessionId(1), r.supi, UeIp(1000), "internet", 9, true)]
  {
    AttemptDoes(s, r);
  }

  /** The first UE a fresh pair of functions serves, in the identifiers that go over the wire. */
  lemma FirstRegistration(supi: string, regType: string, nssai: string)
    requires supi != ""
    ensures var r := Register(supi, regType, nssai, Delivered);
      && ReplyTo(INIT_SYSTEM, r) == Accepted("ngap-1000")
      && Step(INIT_SYSTEM, r).upf.sessions ==
           map["sess-1" := PduSession("sess-1", supi, "10.0.0.240", "internet", 9, true)]
  {
    FirstIdentifiers();
    FirstAttempt(INIT_SYSTEM, Register(supi, regType, nssai, Delivered));
  }

  // ---- Beyond the window ---------------------------------------------------------------------

  ghost function Pool(n: nat): set<string> {
    set k: nat | k < n :: UeIp(k)
  }

  lemma {:induction false} PoolSize(n: nat)
    ensures |Pool(n)| <= n
  {
    if n > 0 {
      PoolSize(n - 1);
      assert Pool(n) == Pool(n - 1) + {UeIp(n - 1)};
    } else {
      assert Pool(0) == {};
    }
  }

  lemma UeIpInPool(k: nat)
    ensures UeIp(k) in Pool(254)
  {
    var r := k % 254;
    assert r % 254 == r;
    UeIpSame(k, r);
    assert UeIp(r) in Pool(254);
  }

  lemma SubsetSize<T>(a: set<T>, b: set<T>)
    requires a <= b
    ensures |a| <= |b|
  {
    assert |b - a| == |b| - |a|;
  }

  /** With the AMF as the only client the index never holds more than 254 entries. */
  lemma IndexBounded(rs: seq<Request>)
    ensures |Run(rs).upf.index| <= 254
  {
    var u := Run(rs).upf;
    RunKeeps(rs);
    BornKept(rs);
    forall ip | ip in u.index
      ensures ip in Pool(254)
    {
      assert BornAt(Run(rs), Born(rs), u.index[ip]);
      UeIpInPool(Born(rs)[u.index[ip]]);
    }
    PoolSize(254);
    SubsetSize(u.index.Keys, Pool(254));
  }

  /** By pigeonhole, with more than 254 sessions live, orphans included, two of them share an address,
      and the index does not lead to both. */
  lemma TooManySessionsShare(rs: seq<Request>) returns (i: string, j: string)
    requires |Run(rs).upf.sessions| > 254
    ensures i in Run(rs).upf.sessions && j in Run(rs).upf.sessions && i != j
    ensures Run(rs).upf.sessions[i].ueIp == Run(rs).upf.sessions[j].ueIp
    ensures !Exact(Run(rs).upf)
  {
    var u := Run(rs).upf;
    BornKept(rs);
    var ips := map id | id in u.sessions :: u.sessions[id].ueIp;
    assert ips.Keys == u.sessions.Keys;
    forall ip | ip in ips.Values
      ensures ip in Pool(254)
    {
      var id :| id in ips && ips[id] == ip;
      assert BornAt(Run(rs), Born(rs), id);
      UeIpInPool(Born(rs)[id]);
    }
    PoolSize(254);
    SubsetSize(ips.Values, Pool(254));
    if forall x, y :: x in ips && y in ips && x != y ==> ips[x] != ips[y] {
      InjectiveValues(ips);
      assert false;
    }
    i, j :| i in ips && j in ips && i != j && ips[i] == ips[j];
  }

  /** Two UEs are registered with one address. */
  ghost predicate SharedAddress(s: System, a: string, b: string) {
    && a in s.amf.contexts && b in s.amf.contexts && a != b
    && s.amf.contexts[a].upfSessionId in s.upf.sessions && s.amf.contexts[b].upfSessionId in s.upf.sessions
    && s.upf.sessions[s.amf.contexts[a].upfSessionId].ueIp == s.upf.sessions[s.amf.contexts[b].upfSessionId].ueIp
  }

  /** The address of each registered UE. */
  ghost function AddressOf(s: System): map<string, string>
    requires JointOk(s)
  {
    map supi | supi in s.amf.contexts ::
      assert ContextOk(s, supi); s.upf.sessions[s.amf.contexts[supi].upfSessionId].ueIp
  }

  /** By pigeonhole, with more than 254 UEs registered two of them share an address, and the index
      does not lead to the session of at least one. */
  lemma TooManyUesShare(rs: seq<Request>) returns (a: string, b: string)
    requires |Run(rs).amf.contexts| > 254
    ensures SharedAddress(Run(rs), a, b)
    ensures !Exact(Run(rs).upf)
  {
    var s := Run(rs);
    RunKeeps(rs);
    BornKept(rs);
    ContextsNameLiveSessions(rs);
    var ips := AddressOf(s);
    assert ips.Keys == s.amf.contexts.Keys;
    forall ip | ip in ips.Values
      ensures ip in Pool(254)
    {
      var supi :| supi in ips && ips[supi] == ip;
      assert ContextOk(s, supi) && BornAt(s, Born(rs), s.amf.contexts[supi].upfSessionId);
      UeIpInPool(Born(rs)[s.amf.contexts[supi].upfSessionId]);
    }
    PoolSize(254);
    SubsetSize(ips.Values, Pool(254));
    if forall x, y :: x in ips && y in ips && x != y ==> ips[x] != ips[y] {
      InjectiveValues(ips);
      assert false;
    }
    a, b :| a in ips && b in ips && a != b && ips[a] == ips[b];
    assert ContextOk(s, a) && ContextOk(s, b);
  }
}
