/** The whole path of a packet: the AMF registers UEs over an unreliable network, the running UPF serves
    its session calls and any number of ClassifyPacket calls at once. */
module EndToEnd {
  import opened SessionTable
  import opened PooledUpf
  import opened UpfTheorems
  import R = Registration
  import opened Service

  /** The session calls of a history, without the classifications between them. */
  function SessionCalls(log: seq<Op>): seq<Call> {
    if log == [] then []
    else
      var c := log[|log| - 1].call;
      SessionCalls(log[..|log| - 1]) + (if c.Classify? then [] else [c])
  }

  /** The state those calls alone lead to. */
  function AfterCalls(calls: seq<Call>): Upf {
    if calls == [] then INIT_UPF else Apply(AfterCalls(calls[..|calls| - 1]), calls[|calls| - 1]).0
  }

  /** Classifications leave the tables alone. */
  lemma {:induction false} CallsDecideTables(log: seq<Op>)
    ensures SameTables(Replay(log), AfterCalls(SessionCalls(log)))
  {
    if log != [] {
      var pre, c := log[..|log| - 1], log[|log| - 1].call;
      CallsDecideTables(pre);
      TablesDecide(Replay(pre), AfterCalls(SessionCalls(pre)), c);
      if c.Classify? {
        assert SessionCalls(log) == SessionCalls(pre);
      } else {
        assert SessionCalls(log)[..|SessionCalls(log)| - 1] == SessionCalls(pre);
      }
    }
  }

  /** The UPF after a history with the AMF's session calls decides as the UPF after its requests. */
  lemma SameLookups(log: seq<Op>, rs: seq<R.Request>, ip: string)
    requires SessionCalls(log) == SessionCalls(UpfLog(rs))
    ensures Lookup(Replay(log), ip) == Lookup(R.Run(rs).upf, ip)
  {
    CallsDecideTables(log);
    CallsDecideTables(UpfLog(rs));
    UpfFollowsLog(rs);
  }

  lemma DecidedByRequests(log: seq<Op>, rs: seq<R.Request>, c: nat, p: Packet)
    requires SessionCalls(log) == SessionCalls(UpfLog(rs))
    requires p.srcIp == R.UeIp(c) && !BlockedDestination(p.dstIp)
    ensures Decide(Lookup(Replay(log), p.srcIp), p) ==
      Decided(if Undisturbed(rs, c) then Verdict(FORWARD, "172.16.0.1", 9) else DROPPED)
  {
    SameLookups(log, rs, p.srcIp);
    ServedExactly(rs, c, p);
  }

  /** End to end. In any interleaving of the running UPF, pooled or not, let entry k of the log be a
      classification before which the session calls that took effect are those the AMF's requests rs
      brought about, whatever messages were lost. A packet from the address of NGAP number c to an
      unblocked destination is then answered FORWARD with QoS class 9 if number c is undisturbed after
      rs, and is dropped otherwise; and that answer is the one its caller receives. */
  lemma PacketsUnderTheAmf(n: nat, acts: seq<Act>, s: Sys, k: nat, rs: seq<R.Request>, c: nat)
    requires Reaches(n, acts, s) && k < |s.log| && s.log[k].call.Classify?
    requires SessionCalls(s.log[..k]) == SessionCalls(UpfLog(rs))
    requires s.log[k].call.packet.srcIp == R.UeIp(c) && !BlockedDestination(s.log[k].call.packet.dstIp)
    ensures var verdict := if Undisturbed(rs, c) then Verdict(FORWARD, "172.16.0.1", 9) else DROPPED;
      && s.log[k].resp == Classified(Decided(verdict))
      && (forall h: nat :: EffectAt(s, h, k) ==> s.handlers[h].resp == Some(Classified(Decided(verdict))))
  {
    RepliesAreInlineReplies(n, acts, s, k);
    DecidedByRequests(s.log[..k], rs, c, s.log[k].call.packet);
  }
}
