/** The destination filter of classify tests two textual prefixes. Here the tests are compared with
    the address blocks they stand for. */
module AddressBlocks {
  import opened Decimal
  import opened SessionTable
  import opened Registration

  datatype Quad = Quad(a: nat, b: nat, c: nat, d: nat)

  predicate IsQuad(q: Quad) { q.a < 256 && q.b < 256 && q.c < 256 && q.d < 256 }

  function Text(q: Quad): string {
    Dec(q.a) + "." + Dec(q.b) + "." + Dec(q.c) + "." + Dec(q.d)
  }

  /** The 32-bit address. */
  function Address(q: Quad): nat { ((q.a * 256 + q.b) * 256 + q.c) * 256 + q.d }

  /** Membership in base/len, by the leading len bits. */
  predicate InBlock(q: Quad, base: Quad, hostSize: nat)
    requires hostSize > 0
  {
    Address(q) / hostSize == Address(base) / hostSize
  }

  predicate In10(q: Quad) { InBlock(q, Quad(10, 0, 0, 0), 0x100_0000) }

  predicate In192(q: Quad) { InBlock(q, Quad(192, 168, 0, 0), 0x1_0000) }

  predicate In172(q: Quad) { InBlock(q, Quad(172, 16, 0, 0), 0x10_0000) }

  /** Block membership, octet by octet. */
  lemma BlocksByOctet(q: Quad)
    requires IsQuad(q)
    ensures In10(q) <==> q.a == 10
    ensures In192(q) <==> q.a == 192 && q.b == 168
    ensures In172(q) <==> q.a == 172 && q.b / 16 == 1
  {
    assert Address(q) == q.a * 0x100_0000 + (q.b * 0x1_0000 + q.c * 0x100 + q.d);
    assert Address(q) == (q.a * 0x100 + q.b) * 0x1_0000 + (q.c * 0x100 + q.d);
    assert Address(q) == (q.a * 0x10 + q.b / 16) * 0x10_0000 + ((q.b % 16) * 0x1_0000 + q.c * 0x100 + q.d);
  }

  lemma FirstDot(s: string, rest: string)
    requires AllDigits(s)
    ensures forall k :: 0 <= k < |s| ==> IsDigit((s + "." + rest)[k])
    ensures (s + "." + rest)[|s|] == '.'
  {
  }

  /** Digits up to the first dot determine the leading number. */
  lemma LeadingNumber(s: string, t: string, rest: string, rest': string)
    requires AllDigits(s) && AllDigits(t)
    requires s + "." + rest == t + "." + rest'
    ensures s == t && rest == rest'
  {
    var x := s + "." + rest;
    FirstDot(s, rest);
    FirstDot(t, rest');
    assert x[|s|] == '.' && x[|t|] == '.';
    assert |s| == |t|;
    assert s == x[..|s|] && t == x[..|t|];
    assert rest == x[|s| + 1..] && rest' == x[|t| + 1..];
  }

  /** A text that begins with the rendering of m and a dot has leading number m. */
  lemma BeginsWith(n: nat, m: nat, rest: string)
    ensures (|Dec(m)| + 1 <= |Dec(n) + "." + rest| &&
             (Dec(n) + "." + rest)[..|Dec(m)| + 1] == Dec(m) + ".") <==> n == m
  {
    var x := Dec(n) + "." + rest;
    var k := |Dec(m)| + 1;
    if k <= |x| && x[..k] == Dec(m) + "." {
      assert x == Dec(m) + "." + x[k..];
      LeadingNumber(Dec(n), Dec(m), rest, x[k..]);
      DecInjective(n, m);
    }
    if n == m {
      assert x[..k] == Dec(m) + ".";
    }
  }

  lemma Renderings()
    ensures Dec(10) == "10" && Dec(16) == "16" && Dec(0) == "0" && Dec(1) == "1"
    ensures Dec(192) == "192" && Dec(168) == "168" && Dec(172) == "172"
  {
    assert Dec(19) == "19" && Dec(16) == "16" && Dec(17) == "17";
  }

  /** The filter on any text at all, a dotted quad or not: it looks at how the text begins. */
  lemma BlockedByBeginning(dst: string)
    ensures BlockedDestination(dst) <==> "10." <= dst || "192.168." <= dst
  {
  }

  lemma TenPrefix(q: Quad)
    ensures Prefix(Text(q), 3) == "10." <==> q.a == 10
  {
    var rest := Dec(q.b) + "." + Dec(q.c) + "." + Dec(q.d);
    assert Text(q) == Dec(q.a) + "." + rest;
    Renderings();
    BeginsWith(q.a, 10, rest);
  }

  /** The eight-character prefix is the two leading numbers with their dots. */
  lemma PrefixSplits(text: string, rest: string)
    requires |text| >= 4 && text[4..] == rest
    ensures Prefix(text, 8) == "192.168." <==> text[..4] == "192." && Prefix(rest, 4) == "168."
  {
    assert text == text[..4] + rest;
    if |text| >= 8 {
      assert text[..8] == text[..4] + rest[..4];
      assert "192.168." == "192." + "168.";
    }
  }

  lemma OneNineTwoPrefix(q: Quad)
    ensures Prefix(Text(q), 8) == "192.168." <==> q.a == 192 && q.b == 168
  {
    var tail := Dec(q.c) + "." + Dec(q.d);
    var rest := Dec(q.b) + "." + tail;
    var text := Text(q);
    assert text == Dec(q.a) + "." + rest;
    Renderings();
    BeginsWith(q.a, 192, rest);
    BeginsWith(q.b, 168, tail);
    PrefixSplits(text, text[4..]);
    if q.a == 192 {
      assert text[4..] == rest;
    }
  }

  /** Over all canonical dotted quads, the filter blocks exactly 10.0.0.0/8 and 192.168.0.0/16. */
  lemma FilterIsTwoBlocks(q: Quad)
    requires IsQuad(q)
    ensures BlockedDestination(Text(q)) <==> In10(q) || In192(q)
  {
    TenPrefix(q);
    OneNineTwoPrefix(q);
    BlocksByOctet(q);
  }

  /** The filter is described as blocking the private destinations of RFC 1918; section 3 there has a
      third block, 172.16.0.0/12. The filter agrees with the description on a destination exactly
      when it is outside that block, and the next hop itself lies in it. */
  lemma FilterMissesThirdBlock(q: Quad)
    requires IsQuad(q)
    ensures (BlockedDestination(Text(q)) <==> In10(q) || In172(q) || In192(q)) <==> !In172(q)
    ensures In172(Quad(172, 16, 0, 1)) && Text(Quad(172, 16, 0, 1)) == NEXT_HOP &&
      !BlockedDestination(NEXT_HOP)
  {
    FilterIsTwoBlocks(q);
    BlocksByOctet(q);
    var hop := Quad(172, 16, 0, 1);
    BlocksByOctet(hop);
    FilterIsTwoBlocks(hop);
    Renderings();
    assert Text(hop) == "172" + "." + "16" + "." + "0" + "." + "1";
    assert Text(hop) == "172.16.0.1";
  }

  /** No packet addressed to an address the AMF gives out is forwarded: UEs cannot reach each other
      through this UPF, whatever its tables hold. */
  lemma NoForwardingToUes(u: Upf, p: Packet, k: nat)
    requires p.dstIp == UeIp(k)
    ensures BlockedDestination(p.dstIp)
    ensures !Forwards(Decide(Lookup(u, p.srcIp), p))
    ensures exists q :: IsQuad(q) && Text(q) == UeIp(k) && In10(q) && 1 <= q.d <= 254
  {
    var q := Quad(10, 0, 0, Octet(k));
    Renderings();
    assert Text(q) == "10" + "." + "0" + "." + "0" + "." + Dec(Octet(k));
    assert "10" + "." + "0" + "." + "0" + "." == "10.0.0.";
    assert Text(q) == UeIp(k);
    FilterIsTwoBlocks(q);
    BlocksByOctet(q);
  }
}
