/** What the two UPF tables hold, said in terms of the calls that were made. The index is not the
    inverse of the session table in general, so both are characterised by history. */
module SessionHistory {
  import opened Decimal
  import opened Sums
  import opened SessionTable

  /** Call k established session id for address ip. */
  predicate EstablishedAt(log: seq<Op>, k: nat, id: string, ip: string) {
    && k < |log| && log[k].call.Establish? && log[k].call.req.ueIp == ip
    && log[k].resp == Established(true, id, "")
  }

  /** Call k released session id. */
  predicate ReleasedAt(log: seq<Op>, k: nat, id: string) {
    k < |log| && log[k].call == Release(id) && log[k].resp == Released(true, "")
  }

  /** Session id was established, for ip, before call k. */
  ghost predicate WasFor(log: seq<Op>, k: nat, id: string, ip: string) {
    exists j: nat :: j < k && EstablishedAt(log, j, id, ip)
  }

  /** Call m displaces ip's index entry: a newer session for ip, or the release of any session that
      was established for ip. */
  ghost predicate Displaces(log: seq<Op>, m: nat, ip: string) {
    || (exists id :: EstablishedAt(log, m, id, ip))
    || (exists id :: ReleasedAt(log, m, id) && WasFor(log, m, id, ip))
  }

  ghost predicate Undisplaced(log: seq<Op>, k: nat, ip: string) {
    forall m :: k < m < |log| ==> !Displaces(log, m, ip)
  }

  /** Session id is the latest established for ip, and no session with that ip was released since. */
  ghost predicate LatestFor(log: seq<Op>, id: string, ip: string) {
    exists k: nat :: EstablishedAt(log, k, id, ip) && Undisplaced(log, k, ip)
  }

  ghost predicate Unreleased(log: seq<Op>, k: nat, id: string) {
    forall m: nat :: k < m < |log| ==> !ReleasedAt(log, m, id)
  }

  /** Session id was established for ip and not released since. */
  ghost predicate LiveFor(log: seq<Op>, id: string, ip: string) {
    exists k: nat :: EstablishedAt(log, k, id, ip) && Unreleased(log, k, id)
  }

  /** Ids given out so far are below the counter, and each belongs to one address. */
  ghost predicate IdsOk(log: seq<Op>) {
    && (forall k, id, ip :: EstablishedAt(log, k, id, ip) ==> Minted(Replay(log), id))
    && (forall j, k, id, ip, ip' ::
          EstablishedAt(log, j, id, ip) && EstablishedAt(log, k, id, ip') ==> j == k)
  }

  ghost predicate SessionsMatch(log: seq<Op>) {
    forall id, ip ::
      (id in Replay(log).sessions && Replay(log).sessions[id].ueIp == ip) <==> LiveFor(log, id, ip)
  }

  ghost predicate IndexMatches(log: seq<Op>) {
    forall id, ip ::
      (ip in Replay(log).index && Replay(log).index[ip] == id) <==> LatestFor(log, id, ip)
  }

  // ---- What one more call changes ------------------------------------------------------------

  lemma EarlierCallsStand(pre: seq<Op>, op: Op)
    ensures forall k: nat, id, ip :: k < |pre| ==>
      (EstablishedAt(pre + [op], k, id, ip) <==> EstablishedAt(pre, k, id, ip))
    ensures forall k: nat, id :: k < |pre| ==> (ReleasedAt(pre + [op], k, id) <==> ReleasedAt(pre, k, id))
    ensures forall k: nat, id, ip :: k <= |pre| ==>
      (WasFor(pre + [op], k, id, ip) <==> WasFor(pre, k, id, ip))
  {
    var log := pre + [op];
    forall k: nat, id, ip | k <= |pre|
      ensures WasFor(log, k, id, ip) <==> WasFor(pre, k, id, ip)
    {
      if WasFor(log, k, id, ip) {
        var j: nat :| j < k && EstablishedAt(log, j, id, ip);
        assert EstablishedAt(pre, j, id, ip);
      }
      if WasFor(pre, k, id, ip) {
        var j: nat :| j < k && EstablishedAt(pre, j, id, ip);
        assert EstablishedAt(log, j, id, ip);
      }
    }
  }

  lemma DisplacesStands(pre: seq<Op>, op: Op, m: nat, ip: string)
    requires m < |pre|
    ensures Displaces(pre + [op], m, ip) <==> Displaces(pre, m, ip)
  {
    EarlierCallsStand(pre, op);
  }

  lemma UndisplacedExtends(pre: seq<Op>, op: Op, k: nat, ip: string)
    requires k < |pre|
    ensures Undisplaced(pre + [op], k, ip) <==> Undisplaced(pre, k, ip) && !Displaces(pre + [op], |pre|, ip)
  {
    var log := pre + [op];
    forall m | k < m < |pre|
      ensures Displaces(log, m, ip) <==> Displaces(pre, m, ip)
    {
      DisplacesStands(pre, op, m, ip);
    }
  }

  /** The latest-for relation after one more call. */
  lemma LatestExtends(pre: seq<Op>, op: Op, id: string, ip: string)
    ensures LatestFor(pre + [op], id, ip) <==>
      || EstablishedAt(pre + [op], |pre|, id, ip)
      || (LatestFor(pre, id, ip) && !Displaces(pre + [op], |pre|, ip))
  {
    var log := pre + [op];
    EarlierCallsStand(pre, op);
    if LatestFor(log, id, ip) {
      var k: nat :| EstablishedAt(log, k, id, ip) && Undisplaced(log, k, ip);
      if k < |pre| {
        UndisplacedExtends(pre, op, k, ip);
        assert EstablishedAt(pre, k, id, ip) && Undisplaced(pre, k, ip);
      }
    }
    if EstablishedAt(log, |pre|, id, ip) {
      assert Undisplaced(log, |pre|, ip);
    }
    if LatestFor(pre, id, ip) && !Displaces(log, |pre|, ip) {
      var k: nat :| EstablishedAt(pre, k, id, ip) && Undisplaced(pre, k, ip);
      UndisplacedExtends(pre, op, k, ip);
      assert EstablishedAt(log, k, id, ip);
    }
  }

  /** The live-for relation after one more call. */
  lemma LiveExtends(pre: seq<Op>, op: Op, id: string, ip: string)
    ensures LiveFor(pre + [op], id, ip) <==>
      || EstablishedAt(pre + [op], |pre|, id, ip)
      || (LiveFor(pre, id, ip) && !ReleasedAt(pre + [op], |pre|, id))
  {
    var log := pre + [op];
    EarlierCallsStand(pre, op);
    if LiveFor(log, id, ip) {
      var k: nat :| EstablishedAt(log, k, id, ip) && Unreleased(log, k, id);
      if k < |pre| {
        assert EstablishedAt(pre, k, id, ip) && Unreleased(pre, k, id);
      }
    }
    if EstablishedAt(log, |pre|, id, ip) {
      assert Unreleased(log, |pre|, id);
    }
    if LiveFor(pre, id, ip) && !ReleasedAt(log, |pre|, id) {
      var k: nat :| EstablishedAt(pre, k, id, ip) && Unreleased(pre, k, id);
      assert EstablishedAt(log, k, id, ip) && Unreleased(log, k, id);
    }
  }

  /** What the last call of a legal run did, read off its answer. */
  lemma LastEstablished(pre: seq<Op>, op: Op, id: string, ip: string)
    requires op.resp == Apply(Replay(pre), op.call).1
    ensures EstablishedAt(pre + [op], |pre|, id, ip) <==>
      op.call.Establish? && op.resp.success && op.call.req.ueIp == ip && id == SessionId(Replay(pre).nextId)
  {
    assert (pre + [op])[|pre|] == op;
  }

  lemma LastReleased(pre: seq<Op>, op: Op, id: string)
    requires op.resp == Apply(Replay(pre), op.call).1
    ensures ReleasedAt(pre + [op], |pre|, id) <==> op.call == Release(id) && id in Replay(pre).sessions
  {
    assert (pre + [op])[|pre|] == op;
  }

  lemma LastCall(pre: seq<Op>, op: Op)
    requires op.resp == Apply(Replay(pre), op.call).1
    ensures forall id, ip :: EstablishedAt(pre + [op], |pre|, id, ip) <==>
      op.call.Establish? && op.resp.success && op.call.req.ueIp == ip && id == SessionId(Replay(pre).nextId)
    ensures forall id :: ReleasedAt(pre + [op], |pre|, id) <==>
      op.call == Release(id) && id in Replay(pre).sessions
  {
    forall id, ip {
      LastEstablished(pre, op, id, ip);
    }
    forall id {
      LastReleased(pre, op, id);
    }
  }

  lemma MintedGrows(u: Upf, c: Call, id: string)
    requires Minted(u, id)
    ensures Minted(Apply(u, c).0, id)
  {
    var m: nat :| m < u.nextId && id == SessionId(m);
    assert m < Apply(u, c).0.nextId;
  }

  lemma MintedEarlier(pre: seq<Op>, op: Op, k: nat, id: string, ip: string)
    requires IdsOk(pre) && k < |pre| && EstablishedAt(pre + [op], k, id, ip)
    ensures EstablishedAt(pre, k, id, ip) && Minted(Replay(pre), id)
    ensures Minted(Apply(Replay(pre), op.call).0, id)
  {
    assert EstablishedAt(pre, k, id, ip);
    MintedGrows(Replay(pre), op.call, id);
  }

  lemma MintedNow(u: Upf, c: Call)
    requires c.Establish? && Apply(u, c).1.success
    ensures Minted(Apply(u, c).0, SessionId(u.nextId)) && !Minted(u, SessionId(u.nextId))
  {
    FreshId(u);
    assert u.nextId < Apply(u, c).0.nextId;
  }

  lemma MintedByLast(pre: seq<Op>, op: Op, k: nat, id: string, ip: string)
    requires op.resp == Apply(Replay(pre), op.call).1 && IdsOk(pre)
    requires EstablishedAt(pre + [op], k, id, ip)
    ensures Minted(Apply(Replay(pre), op.call).0, id)
    ensures k < |pre| ==> EstablishedAt(pre, k, id, ip) && Minted(Replay(pre), id)
    ensures k == |pre| ==> !Minted(Replay(pre), id)
  {
    if k < |pre| {
      MintedEarlier(pre, op, k, id, ip);
    } else {
      LastEstablished(pre, op, id, ip);
      MintedNow(Replay(pre), op.call);
    }
  }

  lemma IdsKept(pre: seq<Op>, op: Op)
    requires Legal(pre) && op.resp == Apply(Replay(pre), op.call).1 && IdsOk(pre)
    ensures IdsOk(pre + [op])
  {
    var log := pre + [op];
    LegalExtends(pre, op);
    forall k: nat, id, ip | EstablishedAt(log, k, id, ip)
      ensures Minted(Replay(log), id)
    {
      MintedByLast(pre, op, k, id, ip);
    }
    forall j: nat, k: nat, id, ip, ip' | EstablishedAt(log, j, id, ip) && EstablishedAt(log, k, id, ip')
      ensures j == k
    {
      MintedByLast(pre, op, j, id, ip);
      MintedByLast(pre, op, k, id, ip');
    }
  }

  lemma SessionKept(pre: seq<Op>, op: Op, id: string, ip: string)
    requires Legal(pre) && op.resp == Apply(Replay(pre), op.call).1 && IdsOk(pre) && SessionsMatch(pre)
    ensures var u' := Apply(Replay(pre), op.call).0;
      (id in u'.sessions && u'.sessions[id].ueIp == ip) <==> LiveFor(pre + [op], id, ip)
  {
    var u := Replay(pre);
    FreshId(u);
    LastCall(pre, op);
    LiveExtends(pre, op, id, ip);
    assert (id in u.sessions && u.sessions[id].ueIp == ip) <==> LiveFor(pre, id, ip);
    if LiveFor(pre, id, ip) {
      assert Minted(u, id);
    }
  }

  lemma SessionsKept(pre: seq<Op>, op: Op)
    requires Legal(pre) && op.resp == Apply(Replay(pre), op.call).1 && IdsOk(pre) && SessionsMatch(pre)
    ensures SessionsMatch(pre + [op])
  {
    LegalExtends(pre, op);
    forall id, ip
      ensures (id in Replay(pre + [op]).sessions && Replay(pre + [op]).sessions[id].ueIp == ip)
        <==> LiveFor(pre + [op], id, ip)
    {
      SessionKept(pre, op, id, ip);
    }
  }

  /** A live session was established for its own address and for no other. */
  lemma SessionWasFor(pre: seq<Op>, op: Op, id: string, ip: string)
    requires IdsOk(pre) && SessionsMatch(pre) && id in Replay(pre).sessions
    ensures WasFor(pre + [op], |pre|, id, ip) <==> Replay(pre).sessions[id].ueIp == ip
  {
    var own := Replay(pre).sessions[id].ueIp;
    assert LiveFor(pre, id, own);
    var k: nat :| EstablishedAt(pre, k, id, own) && Unreleased(pre, k, id);
    assert EstablishedAt(pre + [op], k, id, own);
    if WasFor(pre + [op], |pre|, id, ip) {
      var j: nat :| j < |pre| && EstablishedAt(pre + [op], j, id, ip);
      assert EstablishedAt(pre, j, id, ip);
    }
  }

  lemma DisplacedByEstablish(pre: seq<Op>, op: Op, ip: string)
    requires op.resp == Apply(Replay(pre), op.call).1
    ensures (exists id :: EstablishedAt(pre + [op], |pre|, id, ip)) <==>
      op.resp.Established? && op.resp.success && op.call.req.ueIp == ip
  {
    if id :| EstablishedAt(pre + [op], |pre|, id, ip) {
      LastEstablished(pre, op, id, ip);
    }
    LastEstablished(pre, op, SessionId(Replay(pre).nextId), ip);
  }

  lemma DisplacedByRelease(pre: seq<Op>, op: Op, ip: string)
    requires op.resp == Apply(Replay(pre), op.call).1 && IdsOk(pre) && SessionsMatch(pre)
    ensures (exists id :: ReleasedAt(pre + [op], |pre|, id) && WasFor(pre + [op], |pre|, id, ip)) <==>
      op.call.Release? && op.call.sessionId in Replay(pre).sessions &&
      Replay(pre).sessions[op.call.sessionId].ueIp == ip
  {
    if id :| ReleasedAt(pre + [op], |pre|, id) && WasFor(pre + [op], |pre|, id, ip) {
      LastReleased(pre, op, id);
      SessionWasFor(pre, op, id, ip);
    }
    if op.call.Release? && op.call.sessionId in Replay(pre).sessions {
      SessionWasFor(pre, op, op.call.sessionId, ip);
      LastReleased(pre, op, op.call.sessionId);
    }
  }

  /** A call displaces ip exactly when it changes the entry stored for ip. */
  lemma DisplacedBy(pre: seq<Op>, op: Op, ip: string)
    requires Legal(pre) && op.resp == Apply(Replay(pre), op.call).1
    requires IdsOk(pre) && SessionsMatch(pre)
    ensures Displaces(pre + [op], |pre|, ip) <==>
      || (op.resp.Established? && op.resp.success && op.call.req.ueIp == ip)
      || (op.resp.Released? && op.resp.success && Replay(pre).sessions[op.call.sessionId].ueIp == ip)
  {
    DisplacedByEstablish(pre, op, ip);
    DisplacedByRelease(pre, op, ip);
  }

  lemma IndexEntryKept(pre: seq<Op>, op: Op, id: string, ip: string)
    requires Legal(pre) && op.resp == Apply(Replay(pre), op.call).1
    requires IdsOk(pre) && SessionsMatch(pre) && IndexMatches(pre)
    ensures var u' := Apply(Replay(pre), op.call).0;
      (ip in u'.index && u'.index[ip] == id) <==> LatestFor(pre + [op], id, ip)
  {
    var u := Replay(pre);
    LastCall(pre, op);
    LatestExtends(pre, op, id, ip);
    DisplacedBy(pre, op, ip);
    assert (ip in u.index && u.index[ip] == id) <==> LatestFor(pre, id, ip);
  }

  lemma IndexKept(pre: seq<Op>, op: Op)
    requires Legal(pre) && op.resp == Apply(Replay(pre), op.call).1
    requires IdsOk(pre) && SessionsMatch(pre) && IndexMatches(pre)
    ensures IndexMatches(pre + [op])
  {
    LegalExtends(pre, op);
    forall id, ip
      ensures (ip in Replay(pre + [op]).index && Replay(pre + [op]).index[ip] == id)
        <==> LatestFor(pre + [op], id, ip)
    {
      IndexEntryKept(pre, op, id, ip);
    }
  }

  // ---- The characterisation ------------------------------------------------------------------

  lemma NothingYet()
    ensures IdsOk([]) && SessionsMatch([]) && IndexMatches([])
  {
    assert Replay([]) == INIT_UPF;
    assert forall id, ip :: !LiveFor([], id, ip) && !LatestFor([], id, ip);
  }

  lemma LegalNow(log: seq<Op>)
    requires Legal(log) && log != []
    ensures log[|log| - 1].resp == Apply(Replay(log[..|log| - 1]), log[|log| - 1].call).1
  {
  }

  lemma TablesExtend(pre: seq<Op>, op: Op)
    requires Legal(pre) && op.resp == Apply(Replay(pre), op.call).1
    requires IdsOk(pre) && SessionsMatch(pre) && IndexMatches(pre)
    ensures IdsOk(pre + [op]) && SessionsMatch(pre + [op]) && IndexMatches(pre + [op])
  {
    IdsKept(pre, op);
    SessionsKept(pre, op);
    IndexKept(pre, op);
  }

  /** In every state a UPF can reach, a session is live exactly when it was established and not
      released since, and ue_to_session_[ip] is id exactly when id is the latest session
      established for ip and no session with that address has been released since. */
  lemma {:induction false} TablesByHistory(log: seq<Op>)
    requires Legal(log)
    ensures IdsOk(log) && SessionsMatch(log) && IndexMatches(log)
  {
    if log == [] {
      NothingYet();
    } else {
      var pre, op := log[..|log| - 1], log[|log| - 1];
      assert pre + [op] == log;
      LegalPrefix(log);
      LegalNow(log);
      TablesByHistory(pre);
      TablesExtend(pre, op);
    }
  }

  /** classify relies on sessions_.at not throwing: whatever calls came before, the lookup finds the
      session the history names, live and with the packet's source address. */
  lemma ClassifyNeverThrows(log: seq<Op>, p: Packet)
    requires Legal(log)
    ensures var u := Replay(log);
      && Decide(Lookup(u, p.srcIp), p).Decided?
      && (forall id :: LatestFor(log, id, p.srcIp) ==>
            LiveFor(log, id, p.srcIp) && id in u.sessions && u.sessions[id].active &&
            Lookup(u, p.srcIp) == Session(u.sessions[id].qosProfile, true))
      && ((forall id :: !LatestFor(log, id, p.srcIp)) ==> Lookup(u, p.srcIp) == NoSession)
  {
    TablesByHistory(log);
    ReplayKeepsTables(log);
    var u := Replay(log);
    if p.srcIp in u.index {
      assert LatestFor(log, u.index[p.srcIp], p.srcIp);
    }
    forall id | LatestFor(log, id, p.srcIp)
      ensures id in u.sessions && u.sessions[id].ueIp == p.srcIp
    {
      assert p.srcIp in u.index && u.index[p.srcIp] == id;
    }
  }

  function Requested(req: EstablishRequest, id: string): PduSession {
    PduSession(id, req.supi, req.ueIp, req.dnn, req.qosProfile, true)
  }

  /** Each live session holds what the call that established it asked for. */
  ghost predicate RecordsMatch(log: seq<Op>) {
    forall k: nat, id, ip :: EstablishedAt(log, k, id, ip) && id in Replay(log).sessions ==>
      Replay(log).sessions[id] == Requested(log[k].call.req, id)
  }

  /** No call alters a session that exists already. */
  lemma OldSessionStands(u: Upf, c: Call, id: string)
    requires Minted(u, id) && id in Apply(u, c).0.sessions
    ensures id in u.sessions && Apply(u, c).0.sessions[id] == u.sessions[id]
  {
    FreshId(u);
  }

  lemma NewSessionIsRequested(u: Upf, c: Call)
    requires c.Establish? && Apply(u, c).1.success
    ensures var id := SessionId(u.nextId);
      id in Apply(u, c).0.sessions && Apply(u, c).0.sessions[id] == Requested(c.req, id)
  {
  }

  lemma RecordKept(pre: seq<Op>, op: Op, k: nat, id: string, ip: string)
    requires Legal(pre) && op.resp == Apply(Replay(pre), op.call).1 && IdsOk(pre) && RecordsMatch(pre)
    requires EstablishedAt(pre + [op], k, id, ip) && id in Apply(Replay(pre), op.call).0.sessions
    ensures Apply(Replay(pre), op.call).0.sessions[id] == Requested((pre + [op])[k].call.req, id)
  {
    MintedByLast(pre, op, k, id, ip);
    if k < |pre| {
      OldSessionStands(Replay(pre), op.call, id);
    } else {
      LastEstablished(pre, op, id, ip);
      NewSessionIsRequested(Replay(pre), op.call);
    }
  }

  lemma RecordsExtend(pre: seq<Op>, op: Op)
    requires Legal(pre) && op.resp == Apply(Replay(pre), op.call).1 && IdsOk(pre) && RecordsMatch(pre)
    ensures RecordsMatch(pre + [op])
  {
    LegalExtends(pre, op);
    forall k: nat, id, ip | EstablishedAt(pre + [op], k, id, ip) && id in Replay(pre + [op]).sessions
      ensures Replay(pre + [op]).sessions[id] == Requested((pre + [op])[k].call.req, id)
    {
      RecordKept(pre, op, k, id, ip);
    }
  }

  lemma {:induction false} SessionsHoldRequests(log: seq<Op>)
    requires Legal(log)
    ensures RecordsMatch(log)
  {
    if log != [] {
      var pre, op := log[..|log| - 1], log[|log| - 1];
      assert pre + [op] == log;
      LegalPrefix(log);
      LegalNow(log);
      SessionsHoldRequests(pre);
      TablesByHistory(pre);
      RecordsExtend(pre, op);
    }
  }

  /** Call k established the session that currently serves the packet's source address. */
  ghost predicate Serves(log: seq<Op>, k: nat, p: Packet) {
    exists id :: EstablishedAt(log, k, id, p.srcIp) && Undisplaced(log, k, p.srcIp)
  }

  lemma ServingCall(log: seq<Op>, k: nat, p: Packet)
    requires Legal(log) && Serves(log, k, p)
    ensures var u := Replay(log);
      && p.srcIp in u.index && u.index[p.srcIp] in u.sessions
      && u.sessions[u.index[p.srcIp]].qosProfile == log[k].call.req.qosProfile
  {
    var u := Replay(log);
    TablesByHistory(log);
    ReplayKeepsTables(log);
    SessionsHoldRequests(log);
    var id :| EstablishedAt(log, k, id, p.srcIp) && Undisplaced(log, k, p.srcIp);
    assert LatestFor(log, id, p.srcIp);
    assert p.srcIp in u.index && u.index[p.srcIp] == id;
  }

  lemma IndexedIsServed(log: seq<Op>, p: Packet) returns (k: nat)
    requires Legal(log) && p.srcIp in Replay(log).index
    ensures Serves(log, k, p)
  {
    TablesByHistory(log);
    var id := Replay(log).index[p.srcIp];
    assert LatestFor(log, id, p.srcIp);
    k :| EstablishedAt(log, k, id, p.srcIp) && Undisplaced(log, k, p.srcIp);
  }

  /** The verdict on a packet by history. It is forwarded if and only if the destination is outside
      the tested blocks and some call established a session for the source address that is still
      the latest, undisplaced, and asked for a QoS class that admits the packet. The class reported
      is the one that call asked for, or 0 if there is no such call, and a next hop is given exactly
      with forwarding. */
  lemma VerdictByHistory(log: seq<Op>, p: Packet)
    requires Legal(log)
    ensures var o := Decide(Lookup(Replay(log), p.srcIp), p);
      && o.Decided?
      && (Forwards(o) <==>
            (!BlockedDestination(p.dstIp) &&
             exists k: nat :: Serves(log, k, p) && Admits(log[k].call.req.qosProfile, p)))
      && (forall k: nat :: Serves(log, k, p) ==> o.verdict.qosClass == log[k].call.req.qosProfile)
      && ((forall k: nat :: !Serves(log, k, p)) ==> o.verdict == DROPPED)
      && o.verdict.nextHop == (if Forwards(o) then "172.16.0.1" else "")
  {
    ReplayKeepsTables(log);
    ForwardsExactly(Replay(log), p);
    forall k: nat | Serves(log, k, p)
      ensures var u := Replay(log);
        && p.srcIp in u.index && u.index[p.srcIp] in u.sessions
        && u.sessions[u.index[p.srcIp]].qosProfile == log[k].call.req.qosProfile
    {
      ServingCall(log, k, p);
    }
    if p.srcIp in Replay(log).index {
      var k := IndexedIsServed(log, p);
    }
  }

  // ---- Answers and counters ------------------------------------------------------------------

  function IsEstablishment(op: Op): nat { if op.resp.Established? && op.resp.success then 1 else 0 }
  function IsClassification(op: Op): nat { if op.call.Classify? then 1 else 0 }
  function IsForward(op: Op): nat { if op.resp.Classified? && Forwards(op.resp.outcome) then 1 else 0 }
  function IsDrop(op: Op): nat { if op.resp.Classified? && Drops(op.resp.outcome) then 1 else 0 }

  /** The counters are the numbers of calls and answers they stand for. */
  ghost predicate CountersMatch(log: seq<Op>) {
    var u := Replay(log);
    && u.nextId == 1 + Sum(log, IsEstablishment) && u.packets == Sum(log, IsClassification)
    && u.forwarded == Sum(log, IsForward) && u.dropped == Sum(log, IsDrop)
  }

  lemma CountersExtend(pre: seq<Op>, op: Op)
    requires op.resp == Apply(Replay(pre), op.call).1 && CountersMatch(pre)
    ensures var u := Apply(Replay(pre), op.call).0;
      && u.nextId == 1 + Sum(pre + [op], IsEstablishment) && u.packets == Sum(pre + [op], IsClassification)
      && u.forwarded == Sum(pre + [op], IsForward) && u.dropped == Sum(pre + [op], IsDrop)
  {
    SumAppend(pre, op, IsEstablishment);
    SumAppend(pre, op, IsClassification);
    SumAppend(pre, op, IsForward);
    SumAppend(pre, op, IsDrop);
  }

  /** Over every legal history: the id counter is one more than the establishments that succeeded, and
      the packet counters are the classify calls, those answered FORWARD and those answered DROP. */
  lemma {:induction false} CountersByHistory(log: seq<Op>)
    requires Legal(log)
    ensures CountersMatch(log)
  {
    if log == [] {
      assert Replay(log) == INIT_UPF;
    } else {
      var pre, op := log[..|log| - 1], log[|log| - 1];
      assert pre + [op] == log;
      LegalPrefix(log);
      LegalNow(log);
      CountersByHistory(pre);
      CountersExtend(pre, op);
    }
  }

  lemma LegalUpTo(log: seq<Op>, k: nat)
    requires Legal(log) && k <= |log|
    ensures Legal(log[..k])
  {
    forall j | 0 <= j < k
      ensures log[..k][j].resp == Apply(Replay(log[..k][..j]), log[..k][j].call).1
    {
      assert log[..k][..j] == log[..j];
    }
  }

  /** A session is in the table exactly when the history has it live, for some address. */
  lemma LiveInTable(log: seq<Op>, id: string)
    requires Legal(log)
    ensures id in Replay(log).sessions <==> exists ip :: LiveFor(log, id, ip)
  {
    TablesByHistory(log);
    if id in Replay(log).sessions {
      assert LiveFor(log, id, Replay(log).sessions[id].ueIp);
    }
  }

  /** The answer to a session call by history, field by field. An establish call is refused exactly for
      an empty SUPI or address, and otherwise gets the number of the establishments that succeeded
      before, plus one, as its id; a release succeeds exactly if its session is live. */
  ghost function AnswerByHistory(before: seq<Op>, call: Call): Response
    requires !call.Classify?
  {
    match call
    case Establish(req) =>
      if req.supi == "" || req.ueIp == "" then Established(false, "", "invalid_request")
      else Established(true, "sess-" + Dec(1 + Sum(before, IsEstablishment)), "")
    case Release(id) =>
      if exists ip :: LiveFor(before, id, ip) then Released(true, "") else Released(false, "session_not_found")
  }

  lemma AnswersByHistory(log: seq<Op>, k: nat)
    requires Legal(log) && k < |log| && !log[k].call.Classify?
    ensures log[k].resp == AnswerByHistory(log[..k], log[k].call)
  {
    LegalUpTo(log, k);
    CountersByHistory(log[..k]);
    if log[k].call.Release? {
      LiveInTable(log[..k], log[k].call.sessionId);
    }
  }
}
