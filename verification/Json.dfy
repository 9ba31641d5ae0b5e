/** The REST AMF's JSON printer and field extractor (transport-bench/rest_amf_server.cpp). */
module Json {
  import opened Decimal

  function MakeJsonResponse(accepted: bool, ngapId: string, cause: string, ts: int): string {
    "{" + "\"accepted\":" + (if accepted then "true" else "false") + ","
    + "\"amf_ue_ngap_id\":\"" + ngapId + "\","
    + "\"cause\":\"" + cause + "\","
    + "\"timestamp_us\":" + DecInt(ts) + "}"
  }

  predicate MatchAt(text: string, pat: string, k: nat) {
    k + |pat| <= |text| && text[k..k + |pat|] == pat
  }

  datatype Position = Npos | At(k: nat)

  /** std::string::find: the first match at or after `from`. */
  function Find(text: string, pat: string, from: nat): (r: Position)
    ensures r.At? ==> from <= r.k && MatchAt(text, pat, r.k)
    ensures r.At? ==> forall k :: from <= k < r.k ==> !MatchAt(text, pat, k)
    ensures r.Npos? ==> forall k :: from <= k ==> !MatchAt(text, pat, k)
    decreases |text| - from
  {
    if from > |text| then Npos
    else if MatchAt(text, pat, from) then At(from)
    else Find(text, pat, from + 1)
  }

  function SearchFor(key: string): string { "\"" + key + "\":\"" }

  /** From pos to the next quote, or to the end if there is none. */
  function ValueFrom(json: string, pos: nat): string
    requires pos <= |json|
  {
    match Find(json, "\"", pos)
    case Npos => json[pos..]
    case At(end) => json[pos..end]
  }

  /** The value after the first occurrence of pat. */
  function ValueAfter(json: string, pat: string): string {
    match Find(json, pat, 0)
    case Npos => ""
    case At(k) => ValueFrom(json, k + |pat|)
  }

  function ExtractField(json: string, key: string): string { ValueAfter(json, SearchFor(key)) }

  // ---- Reading back what was printed ---------------------------------------------------------

  predicate QuoteFree(s: string) { '\"' !in s }

  /** s up to its first quote. */
  function UpToQuote(s: string): string {
    if s == "" || s[0] == '\"' then "" else [s[0]] + UpToQuote(s[1..])
  }

  lemma {:induction false} UpToQuoteIs(s: string, n: nat)
    requires n <= |s| && (forall i :: 0 <= i < n ==> s[i] != '\"') && (n == |s| || s[n] == '\"')
    ensures UpToQuote(s) == s[..n]
  {
    if n > 0 {
      UpToQuoteIs(s[1..], n - 1);
      assert s[..n] == [s[0]] + s[1..][..n - 1];
    }
  }

  lemma {:induction false} UpToQuoteWithin(s: string, rest: string)
    ensures UpToQuote(s + "\"" + rest) == UpToQuote(s)
    ensures UpToQuote(s) == s <==> QuoteFree(s)
  {
    var t := s + "\"" + rest;
    if s == "" {
      assert t[0] == '\"';
    } else {
      assert t[0] == s[0] && t[1..] == s[1..] + "\"" + rest;
      UpToQuoteWithin(s[1..], rest);
      assert s == [s[0]] + s[1..];
    }
  }

  lemma QuoteMatches(text: string, k: nat)
    ensures MatchAt(text, "\"", k) <==> k < |text| && text[k] == '\"'
  {
  }

  lemma QuoteRuns(json: string, pos: nat, end: nat)
    requires pos <= end <= |json| && (forall k :: pos <= k < end ==> json[k] != '\"')
    requires end == |json| || json[end] == '\"'
    ensures UpToQuote(json[pos..]) == json[pos..end]
  {
    UpToQuoteIs(json[pos..], end - pos);
    assert json[pos..end] == json[pos..][..end - pos];
  }

  lemma ValueAt(json: string, pos: nat)
    requires pos <= |json|
    ensures UpToQuote(json[pos..]) == ValueFrom(json, pos)
  {
    var r := Find(json, "\"", pos);
    var end := if r.At? then r.k else |json|;
    forall k | pos <= k < end
      ensures json[k] != '\"'
    {
      QuoteMatches(json, k);
    }
    QuoteMatches(json, end);
    QuoteRuns(json, pos, end);
    assert json[pos..] == json[pos..|json|];
  }

  /** The first place where the pattern occurs. */
  ghost predicate FirstAt(text: string, pat: string, k: nat) {
    MatchAt(text, pat, k) && forall j: nat :: j < k ==> !MatchAt(text, pat, j)
  }

  lemma FindsFirst(pre: string, pat: string, tail: string)
    requires forall k :: 0 <= k < |pre| ==> !MatchAt(pre + pat + tail, pat, k)
    ensures Find(pre + pat + tail, pat, 0) == At(|pre|)
  {
    assert (pre + pat + tail)[|pre|..|pre| + |pat|] == pat;
    assert MatchAt(pre + pat + tail, pat, |pre|);
  }

  lemma FoundFirst(text: string, pat: string, k: nat)
    requires FirstAt(text, pat, k)
    ensures Find(text, pat, 0) == At(k) && k + |pat| <= |text|
  {
  }

  lemma ReadAfter(json: string, pat: string, k: nat)
    requires FirstAt(json, pat, k)
    ensures k + |pat| <= |json| && ValueAfter(json, pat) == UpToQuote(json[k + |pat|..])
  {
    FoundFirst(json, pat, k);
    ValueAt(json, k + |pat|);
  }

  lemma ReadNext(pre: string, pat: string, tail: string)
    requires forall k :: 0 <= k < |pre| ==> !MatchAt(pre + pat + tail, pat, k)
    ensures ValueAfter(pre + pat + tail, pat) == UpToQuote(tail)
  {
    FindsFirst(pre, pat, tail);
    assert (pre + pat + tail)[|pre| + |pat|..] == tail;
    ValueAt(pre + pat + tail, |pre| + |pat|);
  }

  /** If the key's first occurrence is right after `pre`, the value read is what follows it, up to
      the next quote. */
  lemma ExtractAfter(pre: string, key: string, tail: string)
    requires forall k :: 0 <= k < |pre| ==> !MatchAt(pre + SearchFor(key) + tail, SearchFor(key), k)
    ensures ExtractField(pre + SearchFor(key) + tail, key) == UpToQuote(tail)
  {
    ReadNext(pre, SearchFor(key), tail);
  }

  /** Reading a field, in full: the value is what follows the key's first occurrence, up to the next
      quote; a key that does not occur reads as the empty string. */
  lemma ExtractExactly(json: string, key: string)
    ensures forall k: nat :: FirstAt(json, SearchFor(key), k) ==>
      k + |SearchFor(key)| <= |json| && ExtractField(json, key) == UpToQuote(json[k + |SearchFor(key)|..])
    ensures (forall k: nat :: !MatchAt(json, SearchFor(key), k)) ==> ExtractField(json, key) == ""
  {
    forall k: nat | FirstAt(json, SearchFor(key), k)
      ensures k + |SearchFor(key)| <= |json| && ExtractField(json, key) == UpToQuote(json[k + |SearchFor(key)|..])
    {
      ReadAfter(json, SearchFor(key), k);
    }
  }

  const NGAP_KEY := "amf_ue_ngap_id"
  const CAUSE_KEY := "cause"

  function Head(accepted: bool): string {
    if accepted then "{\"accepted\":true," else "{\"accepted\":false,"
  }

  function AfterCauseKey(cause: string, ts: int): string {
    cause + "\"" + ",\"timestamp_us\":" + DecInt(ts) + "}"
  }

  function AfterNgap(cause: string, ts: int): string {
    "," + SearchFor(CAUSE_KEY) + AfterCauseKey(cause, ts)
  }

  lemma Regroup(h: string, k1: string, n: string, q: string, c: string, k2: string, e: string)
    ensures h + k1 + n + (q + c) + k2 + e == h + k1 + (n + q + (c + k2 + e))
    ensures h + k1 + n + (q + c) + k2 + e == (h + k1 + n + q + c) + k2 + e
  {
  }

  lemma TailPieces(x: string, cause: string, t: string)
    ensures x + cause + "\"," + "\"timestamp_us\":" + t + "}" ==
      x + (cause + "\"" + ",\"timestamp_us\":" + t + "}")
  {
    assert "\"," + "\"timestamp_us\":" == "\"" + ",\"timestamp_us\":";
  }

  lemma PrintedPieces(accepted: bool, ngapId: string, cause: string, ts: int)
    ensures MakeJsonResponse(accepted, ngapId, cause, ts) ==
      Head(accepted) + "\"amf_ue_ngap_id\":\"" + ngapId + ("\"" + ",") + "\"cause\":\"" + AfterCauseKey(cause, ts)
  {
    var flag := if accepted then "true" else "false";
    assert "{" + "\"accepted\":" + flag + "," == Head(accepted);
    assert "\"" + "," == "\",";
    var x := Head(accepted) + "\"amf_ue_ngap_id\":\"" + ngapId + "\"," + "\"cause\":\"";
    var t := DecInt(ts);
    TailPieces(x, cause, t);
  }

  /** The printed text, cut before each of the two fields. */
  lemma PrintedShape(accepted: bool, ngapId: string, cause: string, ts: int)
    ensures MakeJsonResponse(accepted, ngapId, cause, ts) ==
      Head(accepted) + SearchFor(NGAP_KEY) + (ngapId + "\"" + AfterNgap(cause, ts))
    ensures MakeJsonResponse(accepted, ngapId, cause, ts) ==
      (Head(accepted) + SearchFor(NGAP_KEY) + ngapId + "\"" + ",") + SearchFor(CAUSE_KEY) + AfterCauseKey(cause, ts)
  {
    var k1, k2, e := SearchFor(NGAP_KEY), SearchFor(CAUSE_KEY), AfterCauseKey(cause, ts);
    assert k1 == "\"amf_ue_ngap_id\":\"" && k2 == "\"cause\":\"";
    PrintedPieces(accepted, ngapId, cause, ts);
    Regroup(Head(accepted), k1, ngapId, "\"", ",", k2, e);
  }

  lemma Merge(h: string, n: string, p: string, q: string, c: string, r: string, s: string, d: string, e: string,
              pq: string, rs: string)
    requires p + q == pq && r + s == rs
    ensures h + n + p + q + c + r + s + d + e == h + n + pq + c + rs + d + e
  {
  }

  function Opening(accepted: bool): string {
    if accepted then "{\"accepted\":true,\"amf_ue_ngap_id\":\"" else "{\"accepted\":false,\"amf_ue_ngap_id\":\""
  }

  lemma AcceptedOpening()
    ensures "{" + "\"accepted\":" + "true" + "," + "\"amf_ue_ngap_id\":\"" == Opening(true)
  {
  }

  lemma RefusedOpening()
    ensures "{" + "\"accepted\":" + "false" + "," + "\"amf_ue_ngap_id\":\"" == Opening(false)
  {
  }

  lemma OpeningText(accepted: bool)
    ensures "{" + "\"accepted\":" + (if accepted then "true" else "false") + "," + "\"amf_ue_ngap_id\":\"" ==
      Opening(accepted)
  {
    AcceptedOpening();
    RefusedOpening();
  }

  lemma Separators()
    ensures "\"," + "\"cause\":\"" == "\",\"cause\":\""
    ensures "\"," + "\"timestamp_us\":" == "\",\"timestamp_us\":"
  {
  }

  /** A reply as it goes over the wire: the four fields between fixed texts. */
  lemma PrintedText(accepted: bool, ngapId: string, cause: string, ts: int)
    ensures MakeJsonResponse(accepted, ngapId, cause, ts) ==
      Opening(accepted) + ngapId + "\",\"cause\":\"" + cause + "\",\"timestamp_us\":" + DecInt(ts) + "}"
  {
    OpeningText(accepted);
    Separators();
    Merge(Opening(accepted), ngapId, "\",", "\"cause\":\"", cause, "\",", "\"timestamp_us\":", DecInt(ts), "}",
          "\",\"cause\":\"", "\",\"timestamp_us\":");
  }

  /** In the head, no quote is followed by the first letters of the NGAP key. */
  lemma HeadHasNoKey(accepted: bool, pat: string, rest: string, k: nat)
    requires |pat| >= 3 && pat[0] == '\"' && (pat[1] != 'a' || pat[2] != 'c') && pat[1] != ':'
    requires k < |Head(accepted)|
    ensures !MatchAt(Head(accepted) + rest, pat, k)
  {
    var text := Head(accepted) + rest;
    assert text[k] == Head(accepted)[k];
    if k + |pat| <= |text| {
      assert text[k..k + |pat|][0] == text[k];
      assert text[k..k + |pat|][1] == text[k + 1];
      assert text[k..k + |pat|][2] == text[k + 2];
      if text[k] == '\"' {
        assert k == 1 || k == 10;
        assert text[2] == Head(accepted)[2] && text[3] == Head(accepted)[3] && text[11] == Head(accepted)[11];
      }
    }
  }

  lemma NgapKeyIsFirst(accepted: bool, tail: string)
    ensures var pre := Head(accepted);
      forall k :: 0 <= k < |pre| ==> !MatchAt(pre + SearchFor(NGAP_KEY) + tail, SearchFor(NGAP_KEY), k)
  {
    var pre, pat := Head(accepted), SearchFor(NGAP_KEY);
    assert pat[0] == '\"' && pat[1] == 'a' && pat[2] == 'm';
    assert pre + pat + tail == pre + (pat + tail);
    forall k | 0 <= k < |pre|
      ensures !MatchAt(pre + (pat + tail), pat, k)
    {
      HeadHasNoKey(accepted, pat, pat + tail, k);
    }
  }

  /** The NGAP id read back is the one printed, up to its first quote; so the round trip holds
      exactly for quote-free ids, whatever the cause and the other fields. */
  lemma NgapRoundTrip(accepted: bool, ngapId: string, cause: string, ts: int)
    ensures var read := ExtractField(MakeJsonResponse(accepted, ngapId, cause, ts), NGAP_KEY);
      read == UpToQuote(ngapId) && (read == ngapId <==> QuoteFree(ngapId))
  {
    PrintedShape(accepted, ngapId, cause, ts);
    var tail := ngapId + "\"" + AfterNgap(cause, ts);
    NgapKeyIsFirst(accepted, tail);
    ExtractAfter(Head(accepted), NGAP_KEY, tail);
    UpToQuoteWithin(ngapId, AfterNgap(cause, ts));
  }

  /** The text between the head and the cause key: the NGAP field and its comma. */
  function NgapField(ngapId: string): string {
    SearchFor(NGAP_KEY) + ngapId + "\"" + ","
  }

  /** The characters of the NGAP field, whatever follows it. */
  lemma FieldChars(ngapId: string, rest: string)
    ensures var text := NgapField(ngapId) + rest;
      && |NgapField(ngapId)| == 20 + |ngapId|
      && (forall i :: 0 <= i < 18 ==> text[i] == "\"amf_ue_ngap_id\":\""[i])
      && (forall i :: 18 <= i < 18 + |ngapId| ==> text[i] == ngapId[i - 18])
      && text[18 + |ngapId|] == '\"' && text[19 + |ngapId|] == ','
  {
    assert SearchFor(NGAP_KEY) == "\"amf_ue_ngap_id\":\"";
    assert |"\"amf_ue_ngap_id\":\""| == 18;
  }

  /** The only quotes in the NGAP field are the key's three and the closing one. */
  lemma QuotesOfField(ngapId: string, rest: string, k: nat)
    requires QuoteFree(ngapId) && k < |NgapField(ngapId)| && (NgapField(ngapId) + rest)[k] == '\"'
    ensures k == 0 || k == 15 || k == 17 || k == 18 + |ngapId|
  {
    FieldChars(ngapId, rest);
    assert forall i :: 18 <= i < 18 + |ngapId| ==> (NgapField(ngapId) + rest)[i] in ngapId;
  }

  /** A match of the cause key shows its letters, and no others. */
  lemma MatchChars(text: string, k: nat)
    requires k + 9 <= |text|
    ensures MatchAt(text, "\"cause\":\"", k) ==>
      && text[k] == '\"' && text[k + 1] == 'c' && text[k + 2] == 'a' && text[k + 3] == 'u'
      && text[k + 4] == 's' && text[k + 5] == 'e' && text[k + 6] == '\"' && text[k + 7] == ':'
  {
    var m := text[k..k + 9];
    assert m[0] == text[k] && m[1] == text[k + 1] && m[2] == text[k + 2] && m[3] == text[k + 3];
    assert m[4] == text[k + 4] && m[5] == text[k + 5] && m[6] == text[k + 6] && m[7] == text[k + 7];
  }

  /** With a quote-free NGAP id, the cause key does not occur inside the NGAP field. */
  lemma NgapFieldHasNoCause(ngapId: string, rest: string, k: nat)
    requires QuoteFree(ngapId) && k < |NgapField(ngapId)|
    ensures !MatchAt(NgapField(ngapId) + rest, "\"cause\":\"", k)
  {
    var text, n := NgapField(ngapId) + rest, |ngapId|;
    FieldChars(ngapId, rest);
    if k + 9 <= |text| {
      MatchChars(text, k);
      if text[k] == '\"' {
        QuotesOfField(ngapId, rest, k);
        assert k == 17 && n > 5 ==> text[23] in ngapId;
      }
    }
  }

  lemma MatchShifts(head: string, rest: string, pat: string, k: nat)
    ensures MatchAt(head + rest, pat, |head| + k) <==> MatchAt(rest, pat, k)
  {
    if k + |pat| <= |rest| {
      assert (head + rest)[|head| + k..|head| + k + |pat|] == rest[k..k + |pat|];
    }
  }

  lemma NoEarlierCause(accepted: bool, ngapId: string, rest: string, k: nat)
    requires QuoteFree(ngapId)
    requires k < |Head(accepted) + SearchFor(NGAP_KEY) + ngapId + "\"" + ","|
    ensures !MatchAt(Head(accepted) + SearchFor(NGAP_KEY) + ngapId + "\"" + "," + rest, SearchFor(CAUSE_KEY), k)
  {
    var head, pat := Head(accepted), SearchFor(CAUSE_KEY);
    assert pat == "\"cause\":\"";
    var after := NgapField(ngapId) + rest;
    assert head + SearchFor(NGAP_KEY) + ngapId + "\"" + "," + rest == head + after;
    if k < |head| {
      HeadHasNoKey(accepted, pat, after, k);
    } else {
      NgapFieldHasNoCause(ngapId, rest, k - |head|);
      MatchShifts(head, after, pat, k - |head|);
    }
  }

  function BeforeCause(accepted: bool, ngapId: string): string {
    Head(accepted) + SearchFor(NGAP_KEY) + ngapId + "\"" + ","
  }

  lemma CauseKeyIsFirst(accepted: bool, ngapId: string, tail: string)
    requires QuoteFree(ngapId)
    ensures var pre := BeforeCause(accepted, ngapId);
      forall k :: 0 <= k < |pre| ==> !MatchAt(pre + SearchFor(CAUSE_KEY) + tail, SearchFor(CAUSE_KEY), k)
  {
    var pre, pat := BeforeCause(accepted, ngapId), SearchFor(CAUSE_KEY);
    assert pre + pat + tail == pre + (pat + tail);
    forall k | 0 <= k < |pre|
      ensures !MatchAt(pre + (pat + tail), pat, k)
    {
      NoEarlierCause(accepted, ngapId, pat + tail, k);
    }
  }

  lemma CauseIsRead(accepted: bool, ngapId: string, cause: string, ts: int)
    requires QuoteFree(ngapId)
    ensures ExtractField(MakeJsonResponse(accepted, ngapId, cause, ts), CAUSE_KEY)
      == UpToQuote(AfterCauseKey(cause, ts))
  {
    PrintedShape(accepted, ngapId, cause, ts);
    var pre, tail := BeforeCause(accepted, ngapId), AfterCauseKey(cause, ts);
    CauseKeyIsFirst(accepted, ngapId, tail);
    ExtractAfter(pre, CAUSE_KEY, tail);
  }

  lemma Reassociate(a: string, b: string, c: string, d: string, e: string)
    ensures a + b + c + d + e == a + b + (c + d + e)
  {
  }

  lemma CauseEnds(cause: string, ts: int)
    ensures UpToQuote(AfterCauseKey(cause, ts)) == UpToQuote(cause)
    ensures UpToQuote(cause) == cause <==> QuoteFree(cause)
  {
    var rest := ",\"timestamp_us\":" + DecInt(ts) + "}";
    Reassociate(cause, "\"", ",\"timestamp_us\":", DecInt(ts), "}");
    UpToQuoteWithin(cause, rest);
  }

  /** With a quote-free NGAP id, the cause read back is the one printed, up to its first quote; so
      the round trip holds exactly for quote-free causes. */
  lemma CauseRoundTrip(accepted: bool, ngapId: string, cause: string, ts: int)
    requires QuoteFree(ngapId)
    ensures var read := ExtractField(MakeJsonResponse(accepted, ngapId, cause, ts), CAUSE_KEY);
      read == UpToQuote(cause) && (read == cause <==> QuoteFree(cause))
  {
    CauseIsRead(accepted, ngapId, cause, ts);
    CauseEnds(cause, ts);
  }

  lemma Cancel(a: string, b: string, x: string, y: string)
    requires a + x == a + y || x + b == y + b
    ensures x == y
  {
    if a + x == a + y {
      assert x == (a + x)[|a|..] && y == (a + y)[|a|..];
    } else {
      assert |x + b| == |y + b|;
      assert x == (x + b)[..|x|] && y == (y + b)[..|y|];
    }
  }

  /** The flag shows in the text. */
  lemma FlagShows(accepted: bool, rest: string)
    ensures (Head(accepted) + rest)[12] == if accepted then 't' else 'f'
  {
  }

  /** The text before the timestamp. */
  function UpToTimestamp(accepted: bool, ngapId: string, cause: string): string {
    BeforeCause(accepted, ngapId) + SearchFor(CAUSE_KEY) + cause + "\"" + ",\"timestamp_us\":"
  }

  lemma Shift(p: string, a: string, b: string, c: string, d: string, e: string)
    ensures p + (a + b + c + d + e) == (p + a + b + c) + (d + e)
  {
  }

  lemma TimestampLast(accepted: bool, ngapId: string, cause: string, ts: int)
    ensures MakeJsonResponse(accepted, ngapId, cause, ts) == UpToTimestamp(accepted, ngapId, cause) + (DecInt(ts) + "}")
  {
    PrintedShape(accepted, ngapId, cause, ts);
    Shift(BeforeCause(accepted, ngapId) + SearchFor(CAUSE_KEY), cause, "\"", ",\"timestamp_us\":", DecInt(ts), "}");
  }

  lemma Assoc(a: string, b: string, c: string)
    ensures a + b + c == a + (b + c)
  {
  }

  lemma FlagSame(a1: bool, a2: bool, n: string, c: string, t1: int, t2: int)
    requires MakeJsonResponse(a1, n, c, t1) == MakeJsonResponse(a2, n, c, t2)
    ensures a1 == a2
  {
    PrintedShape(a1, n, c, t1);
    PrintedShape(a2, n, c, t2);
    Assoc(Head(a1), SearchFor(NGAP_KEY), n + "\"" + AfterNgap(c, t1));
    Assoc(Head(a2), SearchFor(NGAP_KEY), n + "\"" + AfterNgap(c, t2));
    FlagShows(a1, SearchFor(NGAP_KEY) + (n + "\"" + AfterNgap(c, t1)));
    FlagShows(a2, SearchFor(NGAP_KEY) + (n + "\"" + AfterNgap(c, t2)));
  }

  /** The printer loses nothing: two replies with quote-free fields that print alike are the same in
      all four fields. */
  lemma PrintedApart(a1: bool, n1: string, c1: string, t1: int, a2: bool, n2: string, c2: string, t2: int)
    requires QuoteFree(n1) && QuoteFree(c1) && QuoteFree(n2) && QuoteFree(c2)
    requires MakeJsonResponse(a1, n1, c1, t1) == MakeJsonResponse(a2, n2, c2, t2)
    ensures a1 == a2 && n1 == n2 && c1 == c2 && t1 == t2
  {
    NgapRoundTrip(a1, n1, c1, t1);
    NgapRoundTrip(a2, n2, c2, t2);
    CauseRoundTrip(a1, n1, c1, t1);
    CauseRoundTrip(a2, n2, c2, t2);
    FlagSame(a1, a2, n1, c1, t1, t2);
    TimestampLast(a1, n1, c1, t1);
    TimestampLast(a2, n2, c2, t2);
    Cancel(UpToTimestamp(a1, n1, c1), "", DecInt(t1) + "}", DecInt(t2) + "}");
    Cancel("", "}", DecInt(t1), DecInt(t2));
    DecIntInjective(t1, t2);
  }

}
