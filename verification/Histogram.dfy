/** The latency histogram: bucket counters in place of the samples, and percentiles read off the counters. */
module Histogram {

  const SUB_MICRO := 1000
  const PER_DECADE := 90
  const TOTAL_BUCKETS := SUB_MICRO + 3 * PER_DECADE + 1

  // ----- the buckets

  function BucketIndex(ns: nat): (i: nat)
    ensures i < TOTAL_BUCKETS
  {
    if ns < 1000 then ns
    else if ns < 10000 then SUB_MICRO + ns / 100 - 10
    else if ns < 100000 then SUB_MICRO + PER_DECADE + ns / 1000 - 10
    else if ns < 1000000 then SUB_MICRO + 2 * PER_DECADE + ns / 10000 - 10
    else TOTAL_BUCKETS - 1
  }

  function BucketLower(i: nat): nat {
    if i < SUB_MICRO then i
    else if i - SUB_MICRO < PER_DECADE then (i - SUB_MICRO + 10) * 100
    else if i - SUB_MICRO - PER_DECADE < PER_DECADE then (i - SUB_MICRO - PER_DECADE + 10) * 1000
    else if i - SUB_MICRO - 2 * PER_DECADE < PER_DECADE then (i - SUB_MICRO - 2 * PER_DECADE + 10) * 10000
    else 1000000
  }

  /** A bucket holds exactly the values from its lower edge up to the next bucket's; the last has no upper end. */
  lemma BucketHolds(ns: nat, i: nat)
    requires i < TOTAL_BUCKETS
    ensures BucketIndex(ns) == i <==> BucketLower(i) <= ns && (i == TOTAL_BUCKETS - 1 || ns < BucketLower(i + 1))
  {
  }

  /** The edge that stands for a value: the value itself, or cut to 100 ns, 1 us or 10 us, decade by decade, or 1 ms. */
  lemma BucketEdge(s: nat)
    ensures s < 1000 ==> BucketLower(BucketIndex(s)) == s
    ensures 1000 <= s < 10000 ==> BucketLower(BucketIndex(s)) == s - s % 100
    ensures 10000 <= s < 100000 ==> BucketLower(BucketIndex(s)) == s - s % 1000
    ensures 100000 <= s < 1000000 ==> BucketLower(BucketIndex(s)) == s - s % 10000
    ensures s >= 1000000 ==> BucketLower(BucketIndex(s)) == 1000000
    ensures BucketIndex(s) < 1271
  {
  }

  lemma BucketMonotone(a: nat, b: nat)
    requires a <= b
    ensures BucketIndex(a) <= BucketIndex(b)
  {
  }

  /** How far a lower edge is below the values it stands for. */
  predicate Approximates(r: nat, s: nat) {
    && r <= s
    && (s < 1000 ==> r == s)
    && (1000 <= s < 1000000 ==> 10 * (s - r) < r)
    && (s >= 1000000 ==> r == 1000000)
  }

  lemma LowerApproximates(s: nat)
    ensures Approximates(BucketLower(BucketIndex(s)), s)
  {
  }

  // ----- what the counters count

  function CountIn(xs: seq<nat>, i: nat): (n: nat) {
    if xs == [] then 0
    else CountIn(xs[..|xs| - 1], i) + (if BucketIndex(xs[|xs| - 1]) == i then 1 else 0)
  }

  /** The samples in the buckets before i. */
  function CountBefore(xs: seq<nat>, i: nat): (n: nat)
    ensures n <= |xs|
  {
    if xs == [] then 0
    else CountBefore(xs[..|xs| - 1], i) + (if BucketIndex(xs[|xs| - 1]) < i then 1 else 0)
  }

  lemma {:induction false} CountNext(xs: seq<nat>, i: nat)
    ensures CountBefore(xs, i + 1) == CountBefore(xs, i) + CountIn(xs, i)
  {
    if xs != [] {
      CountNext(xs[..|xs| - 1], i);
    }
  }

  lemma {:induction false} CountEnds(xs: seq<nat>)
    ensures CountBefore(xs, 0) == 0 && CountBefore(xs, TOTAL_BUCKETS) == |xs|
  {
    if xs != [] {
      CountEnds(xs[..|xs| - 1]);
    }
  }

  // ----- the order statistic

  function Insert(x: nat, xs: seq<nat>): (r: seq<nat>)
    ensures multiset(r) == multiset(xs) + multiset{x}
  {
    if xs == [] then [x]
    else if xs[|xs| - 1] <= x then xs + [x]
    else
      assert xs == xs[..|xs| - 1] + [xs[|xs| - 1]];
      Insert(x, xs[..|xs| - 1]) + [xs[|xs| - 1]]
  }

  /** The samples in ascending order. */
  function Ordered(xs: seq<nat>): (r: seq<nat>)
    ensures multiset(r) == multiset(xs)
    ensures |r| == |xs|
  {
    if xs == [] then []
    else
      var r := Insert(xs[|xs| - 1], Ordered(xs[..|xs| - 1]));
      assert xs == xs[..|xs| - 1] + [xs[|xs| - 1]];
      assert |multiset(r)| == |multiset(xs)|;
      r
  }

  predicate Ascending(xs: seq<nat>) {
    forall i, j :: 0 <= i < j < |xs| ==> xs[i] <= xs[j]
  }

  lemma {:induction false} InsertAscends(x: nat, xs: seq<nat>)
    requires Ascending(xs)
    ensures Ascending(Insert(x, xs)) && |Insert(x, xs)| == |xs| + 1
    ensures xs != [] ==> Insert(x, xs)[|xs|] == if xs[|xs| - 1] <= x then x else xs[|xs| - 1]
  {
    if xs != [] {
      var n := |xs| - 1;
      if xs[n] <= x {
        AscendingSnoc(xs, x);
      } else {
        InsertAscends(x, xs[..n]);
        AscendingSnoc(Insert(x, xs[..n]), xs[n]);
      }
    }
  }

  lemma AscendingSnoc(xs: seq<nat>, x: nat)
    requires Ascending(xs) && (xs != [] ==> xs[|xs| - 1] <= x)
    ensures Ascending(xs + [x])
  {
    forall i, j | 0 <= i < j < |xs + [x]|
      ensures (xs + [x])[i] <= (xs + [x])[j]
    {
      assert i < |xs| - 1 ==> xs[i] <= xs[|xs| - 1];
    }
  }

  lemma {:induction false} OrderedAscends(xs: seq<nat>)
    ensures Ascending(Ordered(xs))
  {
    if xs != [] {
      OrderedAscends(xs[..|xs| - 1]);
      InsertAscends(xs[|xs| - 1], Ordered(xs[..|xs| - 1]));
    }
  }

  lemma {:induction false} InsertCounts(x: nat, xs: seq<nat>, i: nat)
    ensures CountBefore(Insert(x, xs), i) == CountBefore(xs, i) + (if BucketIndex(x) < i then 1 else 0)
  {
    var r := Insert(x, xs);
    assert r[..|r| - 1] == (if xs == [] then [] else if xs[|xs| - 1] <= x then xs else Insert(x, xs[..|xs| - 1]));
    if xs != [] && xs[|xs| - 1] > x {
      InsertCounts(x, xs[..|xs| - 1], i);
    }
  }

  lemma {:induction false} OrderedCounts(xs: seq<nat>, i: nat)
    ensures CountBefore(Ordered(xs), i) == CountBefore(xs, i)
  {
    if xs != [] {
      OrderedCounts(xs[..|xs| - 1], i);
      InsertCounts(xs[|xs| - 1], Ordered(xs[..|xs| - 1]), i);
    }
  }

  /** In ascending order, the samples of the first buckets come first. */
  lemma {:induction false} CountsArePrefixes(xs: seq<nat>, i: nat, t: nat)
    requires Ascending(xs) && t < |xs|
    ensures t < CountBefore(xs, i) <==> BucketIndex(xs[t]) < i
  {
    var n := |xs| - 1;
    BucketMonotone(xs[t], xs[n]);
    if t < n {
      CountsArePrefixes(xs[..n], i, t);
      if BucketIndex(xs[n]) < i {
        CountsArePrefixes(xs[..n], i, n - 1);
        BucketMonotone(xs[n - 1], xs[n]);
      }
    } else if BucketIndex(xs[n]) < i && n > 0 {
      BucketMonotone(xs[n - 1], xs[n]);
      CountsArePrefixes(xs[..n], i, n - 1);
    }
  }

  /** Bucket i is the one that takes the running count past rank t exactly when the t-th smallest sample is in it. */
  lemma CrossingBucket(samples: seq<nat>, i: nat, t: nat)
    requires t < |samples|
    ensures CountBefore(samples, i) <= t < CountBefore(samples, i + 1) <==> BucketIndex(Ordered(samples)[t]) == i
  {
    OrderedAscends(samples);
    OrderedCounts(samples, i);
    OrderedCounts(samples, i + 1);
    CountsArePrefixes(Ordered(samples), i, t);
    CountsArePrefixes(Ordered(samples), i + 1, t);
  }

  function MaxOf(xs: seq<nat>): nat {
    if xs == [] then 0
    else var m := MaxOf(xs[..|xs| - 1]); if xs[|xs| - 1] > m then xs[|xs| - 1] else m
  }

  lemma {:induction false} MaxIsLast(xs: seq<nat>)
    requires xs != []
    ensures MaxOf(xs) == Ordered(xs)[|xs| - 1]
  {
    var n := |xs| - 1;
    if n > 0 {
      MaxIsLast(xs[..n]);
      OrderedAscends(xs[..n]);
      InsertAscends(xs[n], Ordered(xs[..n]));
    } else {
      assert Ordered(xs) == Insert(xs[0], []);
    }
  }

  function SumOf(xs: seq<nat>): nat {
    if xs == [] then 0 else SumOf(xs[..|xs| - 1]) + xs[|xs| - 1]
  }

  // ----- the snapshot

  datatype Snapshot = Snapshot(counts: seq<nat>, total: nat, sum: nat, max: nat)

  /** The snapshot of a histogram that has recorded these samples. */
  ghost predicate Summarizes(s: Snapshot, samples: seq<nat>) {
    && |s.counts| == TOTAL_BUCKETS && (forall i :: 0 <= i < TOTAL_BUCKETS ==> s.counts[i] == CountIn(samples, i))
    && s.total == |samples| && s.sum == SumOf(samples) && s.max == MaxOf(samples)
  }

  /**
   The value at rank `target`. Of no samples it is 0. Below the number of samples it is the lower edge of the bucket
   of the sample of that rank; from there on it is the largest sample.
   */
  method Percentile(s: Snapshot, target: nat, ghost samples: seq<nat>) returns (r: nat)
    requires Summarizes(s, samples)
    ensures samples == [] ==> r == 0
    ensures target < |samples| ==> r == BucketLower(BucketIndex(Ordered(samples)[target]))
    ensures target < |samples| ==> Approximates(r, Ordered(samples)[target])
    ensures target >= |samples| > 0 ==> r == Ordered(samples)[|samples| - 1]
  {
    if s.total == 0 {
      return 0;
    }
    if target < |samples| {
      LowerApproximates(Ordered(samples)[target]);
    }
    MaxIsLast(samples);
    CountEnds(samples);
    var cumulative := 0;
    for i := 0 to TOTAL_BUCKETS
      invariant cumulative == CountBefore(samples, i) && cumulative <= target
    {
      CountNext(samples, i);
      cumulative := cumulative + s.counts[i];
      if cumulative > target {
        CrossingBucket(samples, i, target);
        return BucketLower(i);
      }
    }
    return s.max;
  }

  // ----- the histogram

  class LatencyHistogram {
    const buckets: array<nat>
    var total: nat
    var sum: nat
    var max: nat

    /** The histogram has recorded these samples, in this order, since it was made or reset. */
    ghost predicate Recorded(samples: seq<nat>)
      reads this, buckets
    {
      buckets.Length == TOTAL_BUCKETS && Summarizes(Snapshot(buckets[..], total, sum, max), samples)
    }

    constructor ()
      ensures Recorded([]) && fresh(buckets)
    {
      buckets := new nat[TOTAL_BUCKETS](_ => 0);
      total, sum, max := 0, 0, 0;
    }

    /** Count one sample; the compare-and-swap on the maximum may fail `spurious` times before it succeeds. */
    method Record(ns: nat, spurious: nat, ghost samples: seq<nat>)
      requires Recorded(samples)
      modifies this, buckets
      ensures Recorded(samples + [ns])
    {
      var i := BucketIndex(ns);
      buckets[i] := buckets[i] + 1;
      total := total + 1;
      sum := sum + ns;
      RaiseMax(ns, spurious);
      assert (samples + [ns])[..|samples|] == samples;
    }

    /** Raise the maximum to ns if it is less, retrying after each failed compare-and-swap. */
    method RaiseMax(ns: nat, spurious: nat)
      modifies `max
      ensures max == if ns > old(max) then ns else old(max)
    {
      var curMax, failures, done := max, spurious, false;
      while ns > curMax && !done
        invariant curMax == old(max) && max == (if done then ns else old(max)) && (done ==> ns > old(max))
        decreases !done, failures
      {
        if failures > 0 {
          curMax, failures := max, failures - 1;
        } else {
          max, done := ns, true;
        }
      }
    }

    method TakeSnapshot(ghost samples: seq<nat>) returns (s: Snapshot)
      requires Recorded(samples)
      ensures Summarizes(s, samples)
    {
      var counts: seq<nat> := [];
      for i := 0 to TOTAL_BUCKETS
        invariant counts == buckets[..i]
      {
        counts := counts + [buckets[i]];
      }
      s := Snapshot(counts, total, sum, max);
    }

    method Reset()
      requires buckets.Length == TOTAL_BUCKETS
      modifies this, buckets
      ensures Recorded([])
    {
      for i := 0 to TOTAL_BUCKETS
        invariant forall j :: 0 <= j < i ==> buckets[j] == 0
      {
        buckets[i] := 0;
      }
      total, sum, max := 0, 0, 0;
    }
  }

  /** Any samples, recorded one after the other: every rank reads as the sorted samples say, to the bucket's width. */
  method PercentileOfRun(samples: seq<nat>, target: nat) returns (r: nat)
    ensures target < |samples| ==> r == BucketLower(BucketIndex(Ordered(samples)[target]))
    ensures target < |samples| ==> Approximates(r, Ordered(samples)[target])
    ensures target >= |samples| > 0 ==> r == Ordered(samples)[|samples| - 1]
    ensures samples == [] ==> r == 0
  {
    var h := new LatencyHistogram();
    assert samples[..0] == [];
    for n := 0 to |samples|
      invariant fresh(h) && fresh(h.buckets) && h.Recorded(samples[..n])
    {
      h.Record(samples[n], 0, samples[..n]);
      assert samples[..n] + [samples[n]] == samples[..n + 1];
    }
    assert samples[..|samples|] == samples;
    var s := h.TakeSnapshot(samples);
    r := Percentile(s, target, samples);
  }
}
