/** When ue_to_session_ is the inverse of sessions_, and when it is not. */
module IndexExactness {
  import opened SessionTable
  import opened SessionHistory

  /** Every live session can be found by its address. */
  ghost predicate Exact(u: Upf) {
    forall id :: id in u.sessions ==> u.sessions[id].ueIp in u.index && u.index[u.sessions[id].ueIp] == id
  }

  /** From an exact state, establishing keeps exactness if and only if the address is free; release
      and classification always keep it. */
  lemma ExactStep(u: Upf, c: Call)
    requires TablesOk(u) && Exact(u)
    ensures Exact(Apply(u, c).0) <==>
      (c.Establish? && c.req.supi != "" && c.req.ueIp != "" ==> c.req.ueIp !in u.index)
  {
    FreshId(u);
    var u' := Apply(u, c).0;
    if c.Establish? && c.req.supi != "" && c.req.ueIp != "" {
      var id := SessionId(u.nextId);
      if c.req.ueIp in u.index {
        var older := u.index[c.req.ueIp];
        assert older != id;
        assert older in u'.sessions && u'.index[u'.sessions[older].ueIp] == id;
      }
    }
  }

  /** An establish call found its address taken. */
  ghost predicate Collides(log: seq<Op>, k: nat) {
    k < |log| && log[k].call.Establish? && log[k].resp.Established? && log[k].resp.success &&
    log[k].call.req.ueIp in Replay(log[..k]).index
  }

  ghost predicate ExactAtEveryPoint(log: seq<Op>) {
    forall n :: 0 <= n <= |log| ==> Exact(Replay(log[..n]))
  }

  ghost predicate NoCollision(log: seq<Op>) {
    forall k :: 0 <= k < |log| ==> !Collides(log, k)
  }

  lemma ExactExtends(pre: seq<Op>, op: Op)
    ensures ExactAtEveryPoint(pre + [op]) <==> ExactAtEveryPoint(pre) && Exact(Replay(pre + [op]))
  {
    var log := pre + [op];
    assert log[..|log|] == log;
    assert forall n :: 0 <= n <= |pre| ==> log[..n] == pre[..n];
    if ExactAtEveryPoint(log) {
      assert Exact(Replay(log[..|log|]));
      forall n | 0 <= n <= |pre|
        ensures Exact(Replay(pre[..n]))
      {
        assert Exact(Replay(log[..n]));
      }
    }
  }

  lemma NoCollisionExtends(pre: seq<Op>, op: Op)
    ensures NoCollision(pre + [op]) <==> NoCollision(pre) && !Collides(pre + [op], |pre|)
  {
    var log := pre + [op];
    forall k | 0 <= k < |pre|
      ensures Collides(log, k) <==> Collides(pre, k)
    {
      assert log[..k] == pre[..k];
    }
  }

  lemma ExactNow(log: seq<Op>)
    requires ExactAtEveryPoint(log)
    ensures Exact(Replay(log))
  {
    assert log[..|log|] == log;
  }

  /** Over whole runs: the index is the exact inverse of the table in every state passed through if
      and only if no establish call finds its address already indexed. */
  lemma {:induction false} ExactThroughout(log: seq<Op>)
    requires Legal(log)
    ensures ExactAtEveryPoint(log) <==> NoCollision(log)
  {
    if log != [] {
      var pre, op := log[..|log| - 1], log[|log| - 1];
      assert log == pre + [op];
      LegalPrefix(log);
      ExactThroughout(pre);
      ExactExtends(pre, op);
      NoCollisionExtends(pre, op);
      if ExactAtEveryPoint(pre) {
        ExactNow(pre);
        ReplayKeepsTables(pre);
        ExactStep(Replay(pre), op.call);
        assert log[..|pre|] == pre;
        assert op.resp == Apply(Replay(pre), op.call).1;
      }
    }
  }

  /** In an exact state the indexed lookup agrees with a search of the whole table. */
  lemma LookupAgreesWithSearch(u: Upf, ip: string)
    requires TablesOk(u) && Exact(u)
    ensures Lookup(u, ip) == NoSession <==> forall id :: id in u.sessions ==> u.sessions[id].ueIp != ip
    ensures forall id :: id in u.sessions && u.sessions[id].ueIp == ip ==>
      Lookup(u, ip) == Session(u.sessions[id].qosProfile, true)
    ensures forall i, j :: i in u.sessions && j in u.sessions && u.sessions[i].ueIp == u.sessions[j].ueIp ==> i == j
  {
    if ip in u.index {
      assert u.index[ip] in u.sessions;
    }
  }

  lemma FirstIds()
    ensures SessionId(1) == "sess-1" && SessionId(2) == "sess-2" && SessionId(1) != SessionId(2)
  {
    if SessionId(1) == SessionId(2) {
      SessionIdInjective(1, 2);
    }
  }

  /** One more call, answered as the single-threaded UPF answers it. */
  lemma Extend(pre: seq<Op>, c: Call) returns (log: seq<Op>)
    requires Legal(pre)
    ensures Legal(log) && Replay(log) == Apply(Replay(pre), c).0
  {
    var op := Op(0, c, Apply(Replay(pre), c).1);
    LegalExtends(pre, op);
    log := pre + [op];
  }

  /** Two sessions for one address, then the older released: the newer one is live and unindexed,
      and its packets find no session. */
  lemma SharedAddressLosesSession(ip: string, qos: nat, p: Packet) returns (log: seq<Op>)
    requires ip != "" && p.srcIp == ip
    ensures Legal(log) && LiveFor(log, "sess-2", ip) && !Exact(Replay(log))
    ensures Decide(Lookup(Replay(log), ip), p) == Decided(DROPPED)
  {
    FirstIds();
    var c1 := Establish(EstablishRequest("a", "internet", ip, qos));
    var c2 := Establish(EstablishRequest("b", "internet", ip, qos));
    var c3 := Release("sess-1");
    var l1 := Extend([], c1);
    var l2 := Extend(l1, c2);
    log := Extend(l2, c3);
    assert "sess-2" in Replay(log).sessions && ip !in Replay(log).index;
    TablesByHistory(log);
  }

}
