/** The load generator (ue-sim/main.cpp): how run_concurrent divides the UEs among its threads, and
    the order statistics of compute_stats. */
module Benchmark {
  import opened Sums
  import opened Decimal

  // ---- run_concurrent ------------------------------------------------------------------------

  /** `done[t]` is how many UEs thread t has registered; `latencies` is the shared vector and `ues`,
      as history, the UE each latency belongs to. */
  datatype Bench = Bench(per: nat, done: seq<nat>, latencies: seq<int>, ues: seq<nat>)

  /** Thread t registers its next UE and pushes the latency under the lock. */
  datatype Push = Push(t: nat, latency: int)

  function Start(numUes: nat, numThreads: nat): Bench
    requires numThreads > 0
  {
    Bench(numUes / numThreads, seq(numThreads, _ => 0), [], [])
  }

  predicate CanPush(b: Bench, p: Push) {
    p.t < |b.done| && b.done[p.t] < b.per
  }

  function DoPush(b: Bench, p: Push): Bench
    requires CanPush(b, p)
  {
    b.(done := b.done[p.t := b.done[p.t] + 1],
       latencies := b.latencies + [p.latency],
       ues := b.ues + [p.t * b.per + b.done[p.t]])
  }

  predicate CanRun(b: Bench, ps: seq<Push>)
    decreases |ps|
  {
    ps == [] || (CanPush(b, ps[0]) && CanRun(DoPush(b, ps[0]), ps[1..]))
  }

  function RunFrom(b: Bench, ps: seq<Push>): Bench
    requires CanRun(b, ps)
    decreases |ps|
  {
    if ps == [] then b else RunFrom(DoPush(b, ps[0]), ps[1..])
  }

  function Supi(i: nat): string { "imsi-99901000000" + Dec(10000 + i) }

  /** The SUPI of the sequential benchmark's i-th UE. */
  function SequentialSupi(i: nat): string { "imsi-00101000000" + Dec(10000 + i) }

  /** No UE of one benchmark is a UE of the other, so neither benchmark's registrations are refused
      on account of the other's. */
  lemma BenchmarksApart(i: nat, j: nat)
    ensures Supi(i) != SequentialSupi(j)
  {
    assert Supi(i)[5] == '9' && SequentialSupi(j)[5] == '0';
  }

  /** The text is the prefix and the decimal text of the number. */
  ghost predicate IsSupi(text: string, prefix: string, number: nat) {
    prefix <= text && IsDecimal(text[|prefix|..]) && Undec(text[|prefix|..]) == number
  }

  lemma SupisRead(i: nat)
    ensures IsSupi(Supi(i), "imsi-99901000000", 10000 + i)
    ensures IsSupi(SequentialSupi(i), "imsi-00101000000", 10000 + i)
  {
    assert Supi(i)[16..] == Dec(10000 + i) == SequentialSupi(i)[16..];
    DecExactly(Dec(10000 + i), 10000 + i);
  }

  function Self(n: nat): nat { n }

  ghost predicate DoneBy(b: Bench, t: nat, i: nat) {
    t < |b.done| && t * b.per <= i < t * b.per + b.done[t]
  }

  /** The UEs pushed so far are those each thread has passed in its own range, each once. */
  ghost predicate BenchOk(b: Bench) {
    && |b.ues| == |b.latencies| == Sum(b.done, Self)
    && (forall t :: 0 <= t < |b.done| ==> b.done[t] <= b.per)
    && (forall i :: i in b.ues <==> exists t: nat :: DoneBy(b, t, i))
    && Distinct(b.ues)
  }

  lemma MulMono(a: nat, b: nat, c: nat)
    ensures a <= b ==> a * c <= b * c
  {
  }

  /** A UE index is in one thread's range only. */
  lemma OneRange(per: nat, s: nat, t: nat, i: nat)
    requires s * per <= i < s * per + per && t * per <= i < t * per + per
    ensures s == t
  {
    MulMono(s + 1, t, per);
    MulMono(t + 1, s, per);
  }

  lemma PushKeeps(b: Bench, p: Push)
    requires BenchOk(b) && CanPush(b, p)
    ensures BenchOk(DoPush(b, p))
  {
    var b' := DoPush(b, p);
    var i := p.t * b.per + b.done[p.t];
    SumUpdate(b.done, p.t, b.done[p.t] + 1, Self);
    if i in b.ues {
      var t: nat :| DoneBy(b, t, i);
      OneRange(b.per, t, p.t, i);
    }
    forall k
      ensures k in b'.ues <==> exists t: nat :: DoneBy(b', t, k)
    {
      if k in b.ues {
        var t: nat :| DoneBy(b, t, k);
        assert DoneBy(b', t, k);
      }
      if k == i {
        assert DoneBy(b', p.t, k);
      }
      if t: nat :| DoneBy(b', t, k) {
        assert k == i || DoneBy(b, t, k);
      }
    }
  }

  lemma {:induction false} RunKeepsBench(b: Bench, ps: seq<Push>)
    requires BenchOk(b) && CanRun(b, ps)
    ensures BenchOk(RunFrom(b, ps))
    ensures RunFrom(b, ps).per == b.per && |RunFrom(b, ps).done| == |b.done|
    decreases |ps|
  {
    if ps != [] {
      PushKeeps(b, ps[0]);
      RunKeepsBench(DoPush(b, ps[0]), ps[1..]);
    }
  }

  function Latencies(ps: seq<Push>): seq<int> { seq(|ps|, i requires 0 <= i < |ps| => ps[i].latency) }

  /** The vector holds the latencies in the order in which they were pushed. */
  lemma {:induction false} LatenciesKept(b: Bench, ps: seq<Push>)
    requires CanRun(b, ps)
    ensures RunFrom(b, ps).latencies == b.latencies + Latencies(ps)
    decreases |ps|
  {
    if ps != [] {
      assert Latencies(ps) == [ps[0].latency] + Latencies(ps[1..]);
      LatenciesKept(DoPush(b, ps[0]), ps[1..]);
    }
  }

  lemma {:induction false} SumAllEqual(s: seq<nat>, v: nat)
    requires forall i :: 0 <= i < |s| ==> s[i] == v
    ensures Sum(s, Self) == |s| * v
  {
    if s != [] {
      SumAllEqual(s[1..], v);
    }
  }

  lemma RangeOf(i: nat, per: nat, n: nat) returns (t: nat)
    requires i < n * per
    ensures t < n && t * per <= i < t * per + per
  {
    t := i / per;
    assert i == t * per + i % per;
    MulMono(n, t, per);
  }

  /** Full ranges, side by side, cover everything below their total length. */
  lemma WholeRanges(b: Bench, i: nat)
    requires forall t :: 0 <= t < |b.done| ==> b.done[t] == b.per
    ensures (exists t: nat :: DoneBy(b, t, i)) <==> i < |b.done| * b.per
  {
    if t: nat :| DoneBy(b, t, i) {
      MulMono(t + 1, |b.done|, b.per);
    }
    if i < |b.done| * b.per {
      var t := RangeOf(i, b.per, |b.done|);
      assert DoneBy(b, t, i);
    }
  }

  /** When every thread has finished its range. */
  lemma AllDone(b: Bench)
    requires BenchOk(b) && forall t :: 0 <= t < |b.done| ==> b.done[t] == b.per
    ensures |b.latencies| == |b.done| * b.per
    ensures forall i: nat :: i in b.ues <==> i < |b.latencies|
  {
    SumAllEqual(b.done, b.per);
    forall i: nat
      ensures i in b.ues <==> i < |b.latencies|
    {
      WholeRanges(b, i);
    }
  }

  lemma ShareOfUes(n: nat, m: nat)
    requires m > 0
    ensures 0 <= n - m * (n / m) < m
  {
  }

  lemma StartOk(numUes: nat, numThreads: nat)
    requires numThreads > 0
    ensures BenchOk(Start(numUes, numThreads))
  {
    SumAllEqual(Start(numUes, numThreads).done, 0);
  }

  lemma SupiInjective(i: nat, j: nat)
    ensures Supi(i) == Supi(j) <==> i == j
  {
    if Supi(i) == Supi(j) {
      assert Dec(10000 + i) == Supi(i)[16..] == Dec(10000 + j);
      DecInjective(10000 + i, 10000 + j);
    }
  }

  /** In every interleaving, once no thread can push: exactly numThreads * (numUes / numThreads)
      latencies were collected, one for each UE index below that number, from distinct SUPIs, and
      fewer than numThreads UEs were left out. */
  lemma BenchmarkCollects(numUes: nat, numThreads: nat, ps: seq<Push>, b: Bench)
    requires numThreads > 0 && CanRun(Start(numUes, numThreads), ps)
    requires b == RunFrom(Start(numUes, numThreads), ps)
    requires forall p :: !CanPush(b, p)
    ensures |b.latencies| == numThreads * (numUes / numThreads)
    ensures 0 <= numUes - |b.latencies| < numThreads
    ensures Distinct(b.ues) && |b.ues| == |b.latencies|
    ensures forall i: nat :: i in b.ues <==> i < |b.latencies|
    ensures forall i, j :: 0 <= i < j < |b.ues| ==> Supi(b.ues[i]) != Supi(b.ues[j])
    ensures b.latencies == Latencies(ps)
  {
    LatenciesKept(Start(numUes, numThreads), ps);
    StartOk(numUes, numThreads);
    RunKeepsBench(Start(numUes, numThreads), ps);
    forall t | 0 <= t < |b.done|
      ensures b.done[t] == b.per
    {
      assert !CanPush(b, Push(t, 0));
    }
    AllDone(b);
    ShareOfUes(numUes, numThreads);
    forall i, j | 0 <= i < j < |b.ues|
      ensures Supi(b.ues[i]) != Supi(b.ues[j])
    {
      SupiInjective(b.ues[i], b.ues[j]);
    }
  }

  // ---- compute_stats -------------------------------------------------------------------------

  ghost predicate IsSorted(s: seq<int>) {
    forall i, j :: 0 <= i < j < |s| ==> s[i] <= s[j]
  }

  function Insert(x: int, s: seq<int>): (r: seq<int>)
    ensures |r| == |s| + 1
  {
    if s == [] || x <= s[0] then [x] + s else [s[0]] + Insert(x, s[1..])
  }

  /** What std::sort leaves: SortSorts and SortPermutes say it is the sorted rearrangement. */
  function Sort(s: seq<int>): (r: seq<int>)
    ensures |r| == |s|
  {
    if s == [] then [] else Insert(s[0], Sort(s[1..]))
  }

  lemma {:induction false} InsertSorts(x: int, s: seq<int>)
    requires IsSorted(s)
    ensures IsSorted(Insert(x, s))
    ensures Insert(x, s)[0] == if s == [] || x <= s[0] then x else s[0]
  {
    if s != [] && x > s[0] {
      InsertSorts(x, s[1..]);
    }
  }

  lemma {:induction false} SortSorts(s: seq<int>)
    ensures IsSorted(Sort(s))
  {
    if s != [] {
      SortSorts(s[1..]);
      InsertSorts(s[0], Sort(s[1..]));
    }
  }

  lemma {:induction false} InsertPermutes(x: int, s: seq<int>)
    ensures multiset(Insert(x, s)) == multiset{x} + multiset(s)
  {
    if s != [] && x > s[0] {
      InsertPermutes(x, s[1..]);
      assert s == [s[0]] + s[1..];
    }
  }

  lemma {:induction false} SortPermutes(s: seq<int>)
    ensures multiset(Sort(s)) == multiset(s)
  {
    if s != [] {
      SortPermutes(s[1..]);
      InsertPermutes(s[0], Sort(s[1..]));
      assert s == [s[0]] + s[1..];
    }
  }

  datatype Stats = Stats(min: int, p50: int, p95: int, p99: int, max: int)

  method SortInPlace(a: array<int>)
    modifies a
    ensures a[..] == Sort(old(a[..]))
  {
    var sorted := Sort(a[..]);
    forall i | 0 <= i < a.Length {
      a[i] := sorted[i];
    }
    assert a[..] == sorted;
  }

  /** The index of the p-th percentile among n samples. */
  function Rank(n: nat, p: nat): (k: nat)
    requires n > 0 && p < 100
    ensures k < n && 100 * k <= n * p < 100 * k + 100
  {
    MulMono(p, 99, n);
    n * p / 100
  }

  function Percentile(s: seq<int>, p: nat): int
    requires s != [] && p < 100
  {
    Sort(s)[Rank(|s|, p)]
  }

  lemma InOrder(r: seq<int>, i: nat, j: nat)
    requires IsSorted(r) && i <= j < |r|
    ensures r[i] <= r[j]
  {
  }

  lemma WithinEnds(r: seq<int>, v: int)
    requires IsSorted(r) && v in r
    ensures r[0] <= v <= r[|r| - 1]
  {
    var i :| 0 <= i < |r| && r[i] == v;
    InOrder(r, 0, i);
    InOrder(r, i, |r| - 1);
  }

  lemma SortHasSamples(s: seq<int>, v: int)
    ensures v in Sort(s) <==> v in s
  {
    SortPermutes(s);
    assert v in Sort(s) <==> v in multiset(Sort(s));
    assert v in s <==> v in multiset(s);
  }

  lemma SortBounds(s: seq<int>, v: int)
    requires v in s
    ensures Sort(s)[0] <= v <= Sort(s)[|s| - 1]
  {
    SortSorts(s);
    SortHasSamples(s, v);
    WithinEnds(Sort(s), v);
  }

  lemma RankMono(n: nat, p: nat, q: nat)
    requires n > 0 && p <= q < 100
    ensures Rank(n, p) <= Rank(n, q)
  {
    MulMono(p, q, n);
  }

  lemma PercentileMono(s: seq<int>, p: nat, q: nat)
    requires s != [] && p <= q < 100
    ensures Sort(s)[0] <= Percentile(s, p) <= Percentile(s, q) <= Sort(s)[|s| - 1]
  {
    SortSorts(s);
    RankMono(|s|, p, q);
    InOrder(Sort(s), 0, Rank(|s|, p));
    InOrder(Sort(s), Rank(|s|, p), Rank(|s|, q));
    InOrder(Sort(s), Rank(|s|, q), |s| - 1);
  }

  lemma SortedIsSample(s: seq<int>, i: nat)
    requires i < |s|
    ensures Sort(s)[i] in s
  {
    SortHasSamples(s, Sort(s)[i]);
  }

  lemma StatsOrdered(s: seq<int>)
    requires s != []
    ensures Sort(s)[0] <= Percentile(s, 50) <= Percentile(s, 95) <= Percentile(s, 99) <= Sort(s)[|s| - 1]
    ensures forall v :: v in s ==> Sort(s)[0] <= v <= Sort(s)[|s| - 1]
  {
    PercentileMono(s, 50, 95);
    PercentileMono(s, 95, 99);
    forall v | v in s
      ensures Sort(s)[0] <= v <= Sort(s)[|s| - 1]
    {
      SortBounds(s, v);
    }
  }

  /** The percentile fields; the vector is left sorted. */
  method ComputeStats(latencies: array<int>) returns (s: Stats)
    requires latencies.Length > 0
    modifies latencies
    ensures latencies[..] == Sort(old(latencies[..]))
    ensures s.min <= s.p50 <= s.p95 <= s.p99 <= s.max
    ensures s.min in old(latencies[..]) && s.max in old(latencies[..])
    ensures forall v :: v in old(latencies[..]) ==> s.min <= v <= s.max
    ensures var was := old(latencies[..]);
      s.p50 == Percentile(was, 50) && s.p95 == Percentile(was, 95) && s.p99 == Percentile(was, 99)
  {
    StatsOrdered(latencies[..]);
    SortedIsSample(latencies[..], 0);
    SortedIsSample(latencies[..], latencies.Length - 1);
    SortInPlace(latencies);
    var n := latencies.Length;
    s := Stats(latencies[0], latencies[Rank(n, 50)], latencies[Rank(n, 95)], latencies[Rank(n, 99)],
               latencies[n - 1]);
  }

  function AtMost(v: int): int -> nat { x => if x <= v then 1 else 0 }

  function Below(v: int): int -> nat { x => if x < v then 1 else 0 }

  lemma {:induction false} CountFrom(s: seq<int>, k: nat, f: int -> nat)
    requires k <= |s| && forall i :: 0 <= i < k ==> f(s[i]) == 1
    ensures Sum(s, f) >= k
  {
    if k > 0 {
      CountFrom(s[1..], k - 1, f);
    }
  }

  lemma {:induction false} CountUpTo(s: seq<int>, k: nat, f: int -> nat)
    requires k <= |s| && forall i :: 0 <= i < |s| ==> f(s[i]) <= 1 && (i >= k ==> f(s[i]) == 0)
    ensures Sum(s, f) <= k
  {
    if s != [] {
      CountUpTo(s[1..], if k == 0 then 0 else k - 1, f);
    }
  }

  lemma {:induction false} SumInsert(x: int, s: seq<int>, f: int -> nat)
    ensures Sum(Insert(x, s), f) == f(x) + Sum(s, f)
  {
    if s == [] || x <= s[0] {
      assert ([x] + s)[1..] == s;
    } else {
      SumInsert(x, s[1..], f);
      assert Insert(x, s)[1..] == Insert(x, s[1..]);
    }
  }

  /** Counting does not depend on the order. */
  lemma {:induction false} SumPermutes(s: seq<int>, f: int -> nat)
    ensures Sum(Sort(s), f) == Sum(s, f)
  {
    if s != [] {
      SumPermutes(s[1..], f);
      SumInsert(s[0], Sort(s[1..]), f);
    }
  }

  /** At least k + 1 samples are at most the k-th smallest, and at most k are below it. */
  lemma RankCounts(s: seq<int>, k: nat)
    requires k < |s|
    ensures Sum(s, AtMost(Sort(s)[k])) >= k + 1 && Sum(s, Below(Sort(s)[k])) <= k
  {
    var v := Sort(s)[k];
    SortSorts(s);
    CountFrom(Sort(s), k + 1, AtMost(v));
    CountUpTo(Sort(s), k, Below(v));
    SumPermutes(s, AtMost(v));
    SumPermutes(s, Below(v));
  }

  /** What the p-th percentile means for the samples as collected: more than p percent of them are at
      most this value, and no more than p percent are below it. */
  lemma PercentileRank(s: seq<int>, p: nat)
    requires s != [] && p < 100
    ensures 100 * Sum(s, AtMost(Percentile(s, p))) > |s| * p
    ensures 100 * Sum(s, Below(Percentile(s, p))) <= |s| * p
  {
    RankCounts(s, Rank(|s|, p));
  }
}
