/** Log2 latency histograms of lore-fuse, against the samples they were recorded from. Counters are
    unbounded here. */
module Histogram {
  import opened Collections
  import opened Sums

  const BUCKETS: nat := 32
  const U64_MAX: nat := 0xFFFF_FFFF_FFFF_FFFF

  function Pow2(n: nat): nat {
    if n == 0 then 1 else 2 * Pow2(n - 1)
  }

  /** `64 - leading_zeros() - 1`. */
  function Log2(n: nat): nat
    requires n > 0
  {
    if n == 1 then 0 else 1 + Log2(n / 2)
  }

  lemma {:induction false} Log2Bounds(n: nat)
    requires n > 0
    ensures Pow2(Log2(n)) <= n < Pow2(Log2(n) + 1)
  {
    if n > 1 { Log2Bounds(n / 2); }
  }

  lemma {:induction false} Pow2Monotone(a: nat, b: nat)
    requires a <= b
    ensures 0 < Pow2(a) <= Pow2(b)
    ensures a < b ==> 2 * Pow2(a) <= Pow2(b)
    decreases b
  {
    if a < b { Pow2Monotone(a, b - 1); } else if b > 0 { Pow2Monotone(a - 1, b - 1); }
  }

  lemma {:induction false} Pow2Orders(a: nat, b: nat)
    ensures Pow2(a) <= Pow2(b) <==> a <= b
  {
    if a <= b { Pow2Monotone(a, b); } else { Pow2Monotone(b, a); }
  }

  /** Bucket `i` covers `[2^i, 2^(i+1))`; bucket 0 covers 0 as well and the last has no upper end. */
  function BucketFor(ns: nat): (b: nat)
    ensures b < BUCKETS
  {
    var log := if ns == 0 then 0 else Log2(ns);
    if log < BUCKETS - 1 then log else BUCKETS - 1
  }

  function BucketCeiling(bucket: nat): nat {
    Pow2(if bucket + 1 < 63 then bucket + 1 else 63)
  }

  lemma {:induction false} BucketAtLeast(ns: nat, k: nat)
    requires 1 <= k < BUCKETS
    ensures BucketFor(ns) >= k <==> ns >= Pow2(k)
  {
    Pow2Monotone(0, k);
    if ns > 0 {
      Log2Bounds(ns);
      if Log2(ns) >= k { Pow2Monotone(k, Log2(ns)); } else { Pow2Monotone(Log2(ns) + 1, k); }
    }
  }

  lemma BucketMonotone(a: nat, b: nat)
    requires a <= b
    ensures BucketFor(a) <= BucketFor(b)
  {
    if BucketFor(a) >= 1 {
      BucketAtLeast(a, BucketFor(a));
      BucketAtLeast(b, BucketFor(a));
    }
  }

  // ---------------------------------------------------------------------------
  // Histograms of samples
  // ---------------------------------------------------------------------------

  function CountIf(samples: seq<nat>, p: nat -> bool): nat {
    if samples == [] then 0 else (if p(samples[0]) then 1 else 0) + CountIf(samples[1..], p)
  }

  function InBucket(b: nat): nat -> bool {
    (ns: nat) => BucketFor(ns) == b
  }

  function UpTo(b: nat): nat -> bool {
    (ns: nat) => BucketFor(ns) <= b
  }

  function FromNs(ns: nat): nat -> bool {
    (sample: nat) => sample >= ns
  }

  /** The histogram of `samples`. */
  function HistogramOf(samples: seq<nat>): (h: seq<nat>)
    ensures |h| == BUCKETS && forall b :: 0 <= b < BUCKETS ==> h[b] == CountIf(samples, InBucket(b))
  {
    seq(BUCKETS, b requires 0 <= b < BUCKETS => CountIf(samples, InBucket(b)))
  }

  lemma {:induction false} CountIfAppend(a: seq<nat>, b: seq<nat>, p: nat -> bool)
    ensures CountIf(a + b, p) == CountIf(a, p) + CountIf(b, p)
  {
    if a == [] {
      assert a + b == b;
    } else {
      CountIfAppend(a[1..], b, p);
      assert (a + b)[1..] == a[1..] + b;
    }
  }

  lemma CountWithout(s: seq<nat>, j: nat, p: nat -> bool)
    requires j < |s|
    ensures CountIf(s, p) == CountIf(Without(s, j), p) + if p(s[j]) then 1 else 0
  {
    assert s == s[..j] + s[j..] && s[j..][1..] == s[j + 1..];
    CountIfAppend(s[..j], s[j..], p);
    CountIfAppend(s[..j], s[j + 1..], p);
  }

  lemma MultisetWithout(s: seq<nat>, j: nat)
    requires j < |s|
    ensures multiset(Without(s, j)) == multiset(s) - multiset{s[j]}
  {
    assert s == s[..j] + [s[j]] + s[j + 1..];
  }

  /** Two orders of the same samples. */
  lemma {:induction false} CountIfPermuted(a: seq<nat>, b: seq<nat>, p: nat -> bool)
    requires multiset(a) == multiset(b)
    ensures CountIf(a, p) == CountIf(b, p)
  {
    if a != [] {
      assert a[0] in multiset(b);
      var j :| 0 <= j < |b| && b[j] == a[0];
      assert Without(a, 0) == a[1..];
      MultisetWithout(a, 0);
      MultisetWithout(b, j);
      CountWithout(b, j, p);
      CountIfPermuted(a[1..], Without(b, j), p);
    } else {
      assert |multiset(b)| == 0;
    }
  }

  function Bumped(h: seq<nat>, b: nat): seq<nat>
    requires b < |h|
  {
    h[b := h[b] + 1]
  }

  lemma HistogramAppend(samples: seq<nat>, ns: nat)
    ensures HistogramOf(samples + [ns]) == Bumped(HistogramOf(samples), BucketFor(ns))
  {
    forall b | 0 <= b < BUCKETS
      ensures HistogramOf(samples + [ns])[b] == Bumped(HistogramOf(samples), BucketFor(ns))[b]
    {
      CountIfAppend(samples, [ns], InBucket(b));
      assert CountIf([ns], InBucket(b)) == if InBucket(b)(ns) then 1 else 0;
    }
  }

  /** Buckets up to `b` hold the samples of those buckets. */
  lemma {:induction false} Cumulates(samples: seq<nat>, b: nat)
    requires b < BUCKETS
    ensures Sum(HistogramOf(samples)[..b + 1]) == CountIf(samples, UpTo(b))
    decreases b
  {
    var h := HistogramOf(samples);
    assert h[..b + 1] == h[..b] + [h[b]];
    SumAppend(h[..b], h[b]);
    if b == 0 {
      SameCount(samples, InBucket(0), UpTo(0));
    } else {
      Cumulates(samples, b - 1);
      CountSplit(samples, b);
    }
  }

  lemma {:induction false} SameCount(samples: seq<nat>, p: nat -> bool, q: nat -> bool)
    requires forall ns :: p(ns) == q(ns)
    ensures CountIf(samples, p) == CountIf(samples, q)
  {
    if samples != [] { SameCount(samples[1..], p, q); }
  }

  lemma {:induction false} CountSplit(samples: seq<nat>, b: nat)
    requires b > 0
    ensures CountIf(samples, UpTo(b)) == CountIf(samples, UpTo(b - 1)) + CountIf(samples, InBucket(b))
  {
    if samples != [] { CountSplit(samples[1..], b); }
  }

  lemma {:induction false} CountAll(samples: seq<nat>, p: nat -> bool)
    requires forall i :: 0 <= i < |samples| ==> p(samples[i])
    ensures CountIf(samples, p) == |samples|
  {
    if samples != [] { CountAll(samples[1..], p); }
  }

  lemma CountIsSize(samples: seq<nat>)
    ensures Sum(HistogramOf(samples)) == |samples|
  {
    Cumulates(samples, BUCKETS - 1);
    assert HistogramOf(samples)[..BUCKETS] == HistogramOf(samples);
    CountAll(samples, UpTo(BUCKETS - 1));
  }

  // ---------------------------------------------------------------------------
  // Recording
  // ---------------------------------------------------------------------------

  ghost predicate Largest(samples: seq<nat>, max: nat) {
    && (forall s :: s in samples ==> s <= max)
    && (if samples == [] then max == 0 else max in samples)
  }

  lemma LargestAppend(samples: seq<nat>, max: nat, ns: nat)
    requires Largest(samples, max)
    ensures Largest(samples + [ns], if ns > max then ns else max)
  {
  }

  datatype OpcodeSnapshot = OpcodeSnapshot(count: nat, p50Ns: nat, p99Ns: nat, maxNs: nat, maxAllocations: nat)

  class OpcodeMetrics {
    var count: nat
    var totalNs: nat
    var maxNs: nat
    const buckets: array<nat>
    var maxAllocations: nat
    /** Every sample recorded. */
    ghost var samples: seq<nat>

    ghost predicate Valid()
      reads this, buckets
    {
      && buckets.Length == BUCKETS && buckets[..] == HistogramOf(samples)
      && count == |samples| && totalNs == Sum(samples)
      && Largest(samples, maxNs)
    }

    constructor ()
      ensures Valid() && samples == [] && fresh(buckets)
    {
      count, totalNs, maxNs, maxAllocations := 0, 0, 0, 0;
      buckets := new nat[BUCKETS](_ => 0);
      samples := [];
      new;
      assert buckets[..] == HistogramOf([]);
    }

    method Record(nanos: nat, allocations: nat)
      requires Valid()
      modifies this, buckets
      ensures Valid() && samples == old(samples) + [if nanos < U64_MAX then nanos else U64_MAX]
      ensures maxAllocations == if allocations > old(maxAllocations) then allocations else old(maxAllocations)
    {
      var ns := if nanos < U64_MAX then nanos else U64_MAX;
      HistogramAppend(samples, ns);
      SumAppend(samples, ns);
      LargestAppend(samples, maxNs, ns);
      ghost var before := buckets[..];
      count := count + 1;
      totalNs := totalNs + ns;
      if ns > maxNs { maxNs := ns; }
      buckets[BucketFor(ns)] := buckets[BucketFor(ns)] + 1;
      if allocations > maxAllocations { maxAllocations := allocations; }
      samples := samples + [ns];
      assert buckets[..] == Bumped(before, BucketFor(ns));
    }

    method Snapshot() returns (s: OpcodeSnapshot)
      requires Valid()
      ensures s.count == |samples| && Largest(samples, s.maxNs) && s.maxAllocations == maxAllocations
      ensures s.p50Ns == Percentile(HistogramOf(samples), |samples|, 50)
      ensures s.p99Ns == Percentile(HistogramOf(samples), |samples|, 99)
    {
      var h := buckets[..];
      var p50 := PercentileNs(h, count, 50);
      var p99 := PercentileNs(h, count, 99);
      s := OpcodeSnapshot(count, p50, p99, maxNs, maxAllocations);
    }
  }

  // ---------------------------------------------------------------------------
  // Percentiles
  // ---------------------------------------------------------------------------

  /** The rank of a percentile, from 1. */
  function TargetRank(count: nat, percentile: nat): nat {
    var rank := (count * percentile + 99) / 100;
    if rank >= 1 then rank else 1
  }

  /** Enough samples for a percentile: that share of them, and at least one. */
  predicate Enough(cumulative: nat, count: nat, percentile: nat) {
    cumulative >= 1 && 100 * cumulative >= count * percentile
  }

  /** The nearest rank of a percentile: the least number of samples that is enough. */
  ghost predicate NearestRank(k: nat, count: nat, percentile: nat) {
    k <= count && Enough(k, count, percentile) && forall l: nat :: l < k ==> !Enough(l, count, percentile)
  }

  lemma EnoughReaches(cumulative: nat, count: nat, percentile: nat)
    ensures Enough(cumulative, count, percentile) <==> cumulative >= TargetRank(count, percentile)
  {
  }

  lemma TargetIsNearestRank(count: nat, percentile: nat, k: nat)
    requires count > 0 && percentile <= 100
    ensures NearestRank(k, count, percentile) <==> k == TargetRank(count, percentile)
  {
    assert count * percentile <= count * 100;
    var rank := TargetRank(count, percentile);
    forall l: nat ensures Enough(l, count, percentile) <==> l >= rank { EnoughReaches(l, count, percentile); }
    assert Enough(count, count, percentile) && Enough(rank, count, percentile);
  }

  function Cumulative(h: seq<nat>, b: nat): nat
    requires b < |h|
  {
    Sum(h[..b + 1])
  }

  /** The first bucket at which the cumulative count reaches `target`, or the last one. */
  function ReachingBucket(h: seq<nat>, target: nat, from: nat): nat
    requires from < |h|
    decreases |h| - from
  {
    if Cumulative(h, from) >= target || from + 1 == |h| then from else ReachingBucket(h, target, from + 1)
  }

  function Percentile(h: seq<nat>, count: nat, percentile: nat): nat
    requires |h| == BUCKETS
  {
    if count == 0 then 0 else BucketCeiling(ReachingBucket(h, TargetRank(count, percentile), 0))
  }

  /** The upper edge of the first bucket up to which there are enough samples, or of the last one. */
  ghost predicate EdgeOf(h: seq<nat>, count: nat, percentile: nat, b: nat, p: nat)
    requires |h| == BUCKETS
  {
    && b < BUCKETS && p == Pow2(b + 1)
    && (forall c :: 0 <= c < b ==> !Enough(Cumulative(h, c), count, percentile))
    && (b < BUCKETS - 1 ==> Enough(Cumulative(h, b), count, percentile))
  }

  /** `percentile_ns`. */
  method PercentileNs(h: seq<nat>, count: nat, percentile: nat) returns (p: nat)
    requires |h| == BUCKETS
    ensures p == Percentile(h, count, percentile)
    ensures if count == 0 then p == 0 else exists b :: EdgeOf(h, count, percentile, b, p)
  {
    if count == 0 { return 0; }
    var target := TargetRank(count, percentile);
    var cumulative := 0;
    for bucket := 0 to BUCKETS
      invariant cumulative == Sum(h[..bucket])
      invariant forall c :: 0 <= c < bucket ==> Cumulative(h, c) < target
      invariant bucket < BUCKETS ==> ReachingBucket(h, target, 0) == ReachingBucket(h, target, bucket)
      invariant bucket == BUCKETS ==> ReachingBucket(h, target, 0) == BUCKETS - 1
    {
      assert h[..bucket + 1] == h[..bucket] + [h[bucket]];
      SumAppend(h[..bucket], h[bucket]);
      cumulative := cumulative + h[bucket];
      if cumulative >= target {
        NotEnoughBefore(h, count, percentile, bucket);
        EnoughReaches(cumulative, count, percentile);
        p := BucketCeiling(bucket);
        assert EdgeOf(h, count, percentile, bucket, p);
        return;
      }
    }
    NotEnoughBefore(h, count, percentile, BUCKETS - 1);
    p := BucketCeiling(BUCKETS - 1);
    assert EdgeOf(h, count, percentile, BUCKETS - 1, p);
  }

  lemma NotEnoughBefore(h: seq<nat>, count: nat, percentile: nat, b: nat)
    requires b <= |h| && forall c :: 0 <= c < b ==> Cumulative(h, c) < TargetRank(count, percentile)
    ensures forall c :: 0 <= c < b ==> !Enough(Cumulative(h, c), count, percentile)
  {
    forall c | 0 <= c < b ensures !Enough(Cumulative(h, c), count, percentile) {
      EnoughReaches(Cumulative(h, c), count, percentile);
    }
  }

  lemma {:induction false} ReachesAt(h: seq<nat>, target: nat, from: nat, at: nat)
    requires from <= at < |h| && Cumulative(h, at) >= target
    requires forall b :: from <= b < at ==> Cumulative(h, b) < target
    ensures ReachingBucket(h, target, from) == at
    decreases at - from
  {
    if from < at { ReachesAt(h, target, from + 1, at); }
  }

  ghost predicate Sorted(s: seq<nat>) {
    forall i, j :: 0 <= i <= j < |s| ==> s[i] <= s[j]
  }

  /** In sorted samples those up to a bucket come first. */
  lemma {:induction false} PrefixCount(sorted: seq<nat>, b: nat)
    requires Sorted(sorted)
    ensures CountIf(sorted, UpTo(b)) <= |sorted|
    ensures forall i :: 0 <= i < |sorted| ==> (BucketFor(sorted[i]) <= b <==> i < CountIf(sorted, UpTo(b)))
  {
    if sorted != [] {
      PrefixCount(sorted[1..], b);
      forall i | 0 <= i < |sorted| ensures BucketFor(sorted[i]) <= b <==> i < CountIf(sorted, UpTo(b)) {
        BucketMonotone(sorted[0], sorted[i]);
        if i > 0 {
          assert sorted[1..][i - 1] == sorted[i];
          if BucketFor(sorted[0]) > b && |sorted| > 1 {
            BucketMonotone(sorted[0], sorted[1]);
            assert !(BucketFor(sorted[1..][0]) <= b);
          }
        } else if BucketFor(sorted[0]) > b && |sorted| > 1 {
          BucketMonotone(sorted[0], sorted[1]);
          assert !(BucketFor(sorted[1..][0]) <= b);
        }
      }
    }
  }

  /** The estimate is the upper edge of the bucket of the true nearest-rank sample. */
  lemma PercentileFindsTheBucket(samples: seq<nat>, sorted: seq<nat>, percentile: nat, k: nat)
    requires Sorted(sorted) && multiset(sorted) == multiset(samples) && percentile <= 100
    requires NearestRank(k, |samples|, percentile)
    ensures |sorted| == |samples|
    ensures Percentile(HistogramOf(samples), |samples|, percentile) == BucketCeiling(BucketFor(sorted[k - 1]))
  {
    assert |multiset(sorted)| == |multiset(samples)|;
    TargetIsNearestRank(|samples|, percentile, k);
    var at := BucketFor(sorted[k - 1]);
    var h := HistogramOf(samples);
    forall b | 0 <= b <= at ensures Cumulative(h, b) >= k <==> b == at {
      Cumulates(samples, b);
      CountIfPermuted(samples, sorted, UpTo(b));
      PrefixCount(sorted, b);
    }
    ReachesAt(h, k, 0, at);
  }

  /** It is never more than twice the true sample, and above it exactly for samples below 2^32. */
  lemma PercentileEstimate(samples: seq<nat>, sorted: seq<nat>, percentile: nat, k: nat)
    requires Sorted(sorted) && multiset(sorted) == multiset(samples) && percentile <= 100
    requires NearestRank(k, |samples|, percentile)
    ensures |sorted| == |samples|
    ensures var s, p := sorted[k - 1], Percentile(HistogramOf(samples), |samples|, percentile);
            && p <= 2 * (if s > 1 then s else 1)
            && (s < p <==> s < Pow2(32))
  {
    PercentileFindsTheBucket(samples, sorted, percentile, k);
    CeilingBounds(sorted[k - 1]);
  }

  lemma CeilingBounds(s: nat)
    ensures BucketCeiling(BucketFor(s)) <= 2 * (if s > 1 then s else 1)
    ensures s < BucketCeiling(BucketFor(s)) <==> s < Pow2(32)
  {
    var b := BucketFor(s);
    Pow2Monotone(b + 1, 32);
    if b > 0 { BucketAtLeast(s, b); }
    if s > 0 { Log2Bounds(s); }
    if b < BUCKETS - 1 {
      BucketAtLeast(s, b + 1);
      Pow2Monotone(0, 31);
    }
  }

  // ---------------------------------------------------------------------------
  // Windows and thresholds
  // ---------------------------------------------------------------------------

  function Since(later: seq<nat>, earlier: seq<nat>): (h: seq<nat>)
    requires |later| == |earlier| == BUCKETS
    ensures |h| == BUCKETS && forall b :: 0 <= b < BUCKETS ==>
        h[b] == if later[b] >= earlier[b] then later[b] - earlier[b] else 0
  {
    seq(BUCKETS, b requires 0 <= b < BUCKETS => if later[b] >= earlier[b] then later[b] - earlier[b] else 0)
  }

  function Plus(a: seq<nat>, c: seq<nat>): (h: seq<nat>)
    requires |a| == |c| == BUCKETS
    ensures |h| == BUCKETS && forall b :: 0 <= b < BUCKETS ==> h[b] == a[b] + c[b]
  {
    seq(BUCKETS, b requires 0 <= b < BUCKETS => a[b] + c[b])
  }

  /** A later histogram less an earlier one is that of the samples between; two histograms together
      are that of all their samples. */
  lemma WindowIsTheSamplesBetween(before: seq<nat>, between: seq<nat>)
    ensures Since(HistogramOf(before + between), HistogramOf(before)) == HistogramOf(between)
    ensures Plus(HistogramOf(before), HistogramOf(between)) == HistogramOf(before + between)
  {
    forall b | 0 <= b < BUCKETS
      ensures HistogramOf(before + between)[b] == HistogramOf(before)[b] + HistogramOf(between)[b]
    {
      CountIfAppend(before, between, InBucket(b));
    }
  }

  /** `at_least_ns`, over the buckets from `i` on. */
  function AtLeastFrom(h: seq<nat>, i: nat, ns: nat): nat
    requires i <= |h|
    decreases |h| - i
  {
    if i == |h| then 0
    else (if i > 0 && Pow2(i) >= ns then h[i] else 0) + AtLeastFrom(h, i + 1, ns)
  }

  function AtLeastNs(h: seq<nat>, ns: nat): nat {
    AtLeastFrom(h, 0, ns)
  }

  lemma {:induction false} AtLeastAdds(h: seq<nat>, b: nat, i: nat, ns: nat)
    requires b < |h| && i <= |h|
    ensures AtLeastFrom(Bumped(h, b), i, ns) == AtLeastFrom(h, i, ns) + if i <= b && b > 0 && Pow2(b) >= ns then 1
        else 0
    decreases |h| - i
  {
    if i < |h| { AtLeastAdds(h, b, i + 1, ns); }
  }

  lemma {:induction false} AtLeastNothing(i: nat, ns: nat)
    requires i <= BUCKETS
    ensures AtLeastFrom(HistogramOf([]), i, ns) == 0
    decreases BUCKETS - i
  {
    if i < BUCKETS { AtLeastNothing(i + 1, ns); }
  }

  /** The samples of the buckets that start at `ns` or above. */
  lemma {:induction false} AtLeastCounts(samples: seq<nat>, ns: nat)
    ensures AtLeastNs(HistogramOf(samples), ns) ==
            CountIf(samples, (s: nat) => BucketFor(s) > 0 && Pow2(BucketFor(s)) >= ns)
  {
    var p := (s: nat) => BucketFor(s) > 0 && Pow2(BucketFor(s)) >= ns;
    if samples == [] {
      AtLeastNothing(0, ns);
    } else {
      var n := |samples| - 1;
      assert samples == samples[..n] + [samples[n]];
      AtLeastCounts(samples[..n], ns);
      HistogramAppend(samples[..n], samples[n]);
      AtLeastAdds(HistogramOf(samples[..n]), BucketFor(samples[n]), 0, ns);
      CountIfAppend(samples[..n], [samples[n]], p);
      assert CountIf([samples[n]], p) == if p(samples[n]) then 1 else 0;
    }
  }

  /** The thresholds at which a bucket starts, the first and everything past the last apart. */
  ghost predicate Threshold(ns: nat) {
    exists k :: 1 <= k < BUCKETS && Pow2(k) == ns
  }

  lemma ThresholdBucket(ns: nat, s: nat)
    requires Threshold(ns)
    ensures BucketFor(s) > 0 && Pow2(BucketFor(s)) >= ns <==> s >= ns
  {
    var k :| 1 <= k < BUCKETS && Pow2(k) == ns;
    BucketAtLeast(s, k);
    Pow2Orders(k, BucketFor(s));
  }

  /** `at_least_ns` counts the samples of `ns` or more in every histogram exactly when `ns` is a power
      of two from 2 to 2^31: for any other threshold a single sample of `ns` itself is missed, powers
      of two such as 1 and 2^32 included. */
  lemma AtLeastIsExactOnlyAtThresholds(ns: nat)
    ensures (forall samples :: AtLeastNs(HistogramOf(samples), ns) == CountIf(samples, FromNs(ns))) <==> Threshold(ns)
  {
    if Threshold(ns) {
      forall samples ensures AtLeastNs(HistogramOf(samples), ns) == CountIf(samples, FromNs(ns)) {
        AtLeastCounts(samples, ns);
        forall s: nat ensures BucketFor(s) > 0 && Pow2(BucketFor(s)) >= ns <==> s >= ns { ThresholdBucket(ns, s); }
        SameCount(samples, (s: nat) => BucketFor(s) > 0 && Pow2(BucketFor(s)) >= ns, FromNs(ns));
      }
    } else {
      SampleMissed(ns);
    }
  }

  /** Powers of two that are no thresholds: 1, and 2^32 as every one above. */
  lemma PowersThatAreNoThresholds(k: nat)
    requires k == 0 || k >= BUCKETS
    ensures !Threshold(Pow2(k)) && AtLeastNs(HistogramOf([Pow2(k)]), Pow2(k)) == 0
  {
    forall j | 1 <= j < BUCKETS ensures Pow2(j) != Pow2(k) {
      Pow2Orders(j, k);
      Pow2Orders(k, j);
    }
    SampleMissed(Pow2(k));
  }

  lemma SampleMissed(ns: nat)
    requires !Threshold(ns)
    ensures AtLeastNs(HistogramOf([ns]), ns) == 0 && CountIf([ns], FromNs(ns)) == 1
  {
    AtLeastCounts([ns], ns);
    var p := (s: nat) => BucketFor(s) > 0 && Pow2(BucketFor(s)) >= ns;
    assert CountIf([ns], FromNs(ns)) == 1 by { assert FromNs(ns)(ns); assert [ns][1..] == []; }
    assert !p(ns) by {
      if BucketFor(ns) > 0 {
        BucketAtLeast(ns, BucketFor(ns));
        assert Pow2(BucketFor(ns)) != ns;
      }
    }
    assert CountIf([ns], p) == 0 by { assert [ns][1..] == []; }
  }

  lemma OneAndPow32AreNoThresholds()
    ensures Pow2(0) == 1 && !Threshold(1) && !Threshold(Pow2(32))
  {
    PowersThatAreNoThresholds(0);
    PowersThatAreNoThresholds(32);
  }
}
