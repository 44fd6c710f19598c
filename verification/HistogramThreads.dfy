/**
 Recording from any number of threads: each step is one atomic access of one thread, and a compare-and-swap may fail
 without reason. Once every call has returned, the counters summarize all samples, so that percentiles are exact to
 the bucket's width after concurrent recording too.
 */
module HistogramThreads {
  import opened Histogram

  /** Where a thread is; the name says which access comes next. */
  datatype Pc =
    | Idle
    | AddBucket(ns: nat)
    | AddTotal(ns: nat)
    | AddSum(ns: nat)
    | LoadMax(ns: nat)
    | Raise(ns: nat, curMax: nat)
  {
    /** The thread has counted its sample and not yet left. */
    predicate Counted() {
      AddTotal? || AddSum? || LoadMax? || Raise?
    }
  }

  /** `samples` records the samples in the order in which their buckets were counted. */
  datatype Shared = Shared(buckets: seq<nat>, total: nat, sum: nat, max: nat, threads: seq<Pc>, samples: seq<nat>) {
    function Goto(t: nat, pc: Pc): Shared
      requires t < |threads|
    {
      this.(threads := threads[t := pc])
    }
  }

  datatype Action = Begin(ns: nat) | Go(casFails: bool)

  ghost predicate Access(h: Shared, t: nat, fails: bool, h': Shared)
    requires |h.buckets| == TOTAL_BUCKETS && t < |h.threads|
  {
    match h.threads[t]
    case Idle => false
    case AddBucket(ns) =>
      var i := BucketIndex(ns);
      h' == h.Goto(t, AddTotal(ns)).(buckets := h.buckets[i := h.buckets[i] + 1], samples := h.samples + [ns])
    case AddTotal(ns) => h' == h.Goto(t, AddSum(ns)).(total := h.total + 1)
    case AddSum(ns) => h' == h.Goto(t, LoadMax(ns)).(sum := h.sum + ns)
    case LoadMax(ns) => h' == h.Goto(t, Raise(ns, h.max))
    case Raise(ns, curMax) =>
      if ns <= curMax then h' == h.Goto(t, Idle)
      else if fails || h.max != curMax then h' == h.Goto(t, Raise(ns, h.max))
      else h' == h.Goto(t, Idle).(max := ns)
  }

  ghost predicate Step(h: Shared, t: nat, a: Action, h': Shared) {
    && |h.buckets| == TOTAL_BUCKETS && t < |h.threads|
    && match a
       case Begin(ns) => h.threads[t].Idle? && h' == h.Goto(t, AddBucket(ns))
       case Go(fails) => Access(h, t, fails, h')
  }

  ghost predicate Init(h: Shared) {
    && |h.buckets| == TOTAL_BUCKETS && (forall i :: 0 <= i < TOTAL_BUCKETS ==> h.buckets[i] == 0)
    && h.total == h.sum == h.max == 0 && h.samples == []
    && (forall t :: 0 <= t < |h.threads| ==> h.threads[t].Idle?)
  }

  // ----- what the threads still owe to the total and to the sum

  function Due(pc: Pc, toSum: bool): nat {
    if toSum then (if pc.AddTotal? || pc.AddSum? then pc.ns else 0) else if pc.AddTotal? then 1 else 0
  }

  function Debt(threads: seq<Pc>, toSum: bool): nat {
    if threads == [] then 0
    else Debt(threads[..|threads| - 1], toSum) + Due(threads[|threads| - 1], toSum)
  }

  lemma {:induction false} DebtUpdate(threads: seq<Pc>, t: nat, pc: Pc, toSum: bool)
    requires t < |threads|
    ensures Debt(threads[t := pc], toSum) == Debt(threads, toSum) - Due(threads[t], toSum) + Due(pc, toSum)
  {
    var n := |threads| - 1;
    if t < n {
      DebtUpdate(threads[..n], t, pc, toSum);
      assert threads[t := pc][..n] == threads[..n][t := pc];
    } else {
      assert threads[t := pc][..n] == threads[..n];
    }
  }

  lemma {:induction false} NoDebt(threads: seq<Pc>, toSum: bool)
    requires forall t :: 0 <= t < |threads| ==> threads[t].Idle?
    ensures Debt(threads, toSum) == 0
  {
    if threads != [] {
      NoDebt(threads[..|threads| - 1], toSum);
    }
  }

  // ----- the invariant

  ghost predicate Exact(buckets: seq<nat>, samples: seq<nat>) {
    |buckets| == TOTAL_BUCKETS && forall i :: 0 <= i < TOTAL_BUCKETS ==> buckets[i] == CountIn(samples, i)
  }

  ghost predicate Owed(h: Shared) {
    h.total + Debt(h.threads, false) == |h.samples| && h.sum + Debt(h.threads, true) == SumOf(h.samples)
  }

  ghost predicate Counts(h: Shared) {
    Exact(h.buckets, h.samples) && Owed(h)
  }

  /** Thread t will still raise the maximum to x or more, or see that it is. */
  ghost predicate Bears(threads: seq<Pc>, t: nat, x: nat)
    requires t < |threads|
  {
    threads[t].Counted() && threads[t].ns >= x
  }

  ghost predicate Covered(h: Shared, x: nat) {
    x <= h.max || exists t :: 0 <= t < |h.threads| && Bears(h.threads, t, x)
  }

  ghost predicate ThreadOk(h: Shared, pc: Pc) {
    (pc.Counted() ==> pc.ns in h.samples) && (pc.Raise? ==> pc.curMax <= h.max)
  }

  ghost predicate Maximum(h: Shared) {
    && (h.max == 0 || h.max in h.samples)
    && (forall x {:trigger Covered(h, x)} :: x in h.samples ==> Covered(h, x))
    && (forall t {:trigger h.threads[t]} :: 0 <= t < |h.threads| ==> ThreadOk(h, h.threads[t]))
  }

  lemma CountSnoc(xs: seq<nat>, x: nat, i: nat)
    ensures CountIn(xs + [x], i) == CountIn(xs, i) + (if BucketIndex(x) == i then 1 else 0)
    ensures SumOf(xs + [x]) == SumOf(xs) + x
  {
    assert (xs + [x])[..|xs|] == xs;
  }

  /** Counting a sample in its bucket keeps every bucket exact. */
  lemma BucketCounts(buckets: seq<nat>, samples: seq<nat>, ns: nat)
    requires Exact(buckets, samples)
    ensures Exact(buckets[BucketIndex(ns) := buckets[BucketIndex(ns)] + 1], samples + [ns])
  {
    forall i | 0 <= i < TOTAL_BUCKETS
      ensures CountIn(samples + [ns], i) == CountIn(samples, i) + (if BucketIndex(ns) == i then 1 else 0)
    {
      CountSnoc(samples, ns, i);
    }
  }

  lemma OwedKept(h: Shared, t: nat, a: Action, h': Shared)
    requires Owed(h) && Step(h, t, a, h')
    ensures Owed(h')
  {
    var pc' := h'.threads[t];
    DebtUpdate(h.threads, t, pc', false);
    DebtUpdate(h.threads, t, pc', true);
    if a.Go? && h.threads[t].AddBucket? {
      CountSnoc(h.samples, h.threads[t].ns, 0);
    }
  }

  lemma CountsKept(h: Shared, t: nat, a: Action, h': Shared)
    requires Counts(h) && Step(h, t, a, h')
    ensures Counts(h')
  {
    OwedKept(h, t, a, h');
    if a.Go? && h.threads[t].AddBucket? {
      BucketCounts(h.buckets, h.samples, h.threads[t].ns);
    }
  }

  /** A sample stays covered: by the maximum, by another thread, or by thread t where it now is. */
  lemma CoverKept(h: Shared, t: nat, a: Action, h': Shared, x: nat)
    requires Maximum(h) && Step(h, t, a, h') && Covered(h, x)
    ensures Covered(h', x)
  {
    assert ThreadOk(h, h.threads[t]);
    if x > h'.max {
      var u :| 0 <= u < |h.threads| && Bears(h.threads, u, x);
      assert Bears(h'.threads, u, x);
    }
  }

  lemma MaximumKept(h: Shared, t: nat, a: Action, h': Shared)
    requires Maximum(h) && Step(h, t, a, h')
    ensures Maximum(h')
  {
    var pc := h.threads[t];
    assert ThreadOk(h, pc);
    forall x | x in h'.samples
      ensures Covered(h', x)
    {
      if x in h.samples {
        CoverKept(h, t, a, h', x);
      } else {
        assert Bears(h'.threads, t, x);
      }
    }
    forall u | 0 <= u < |h'.threads|
      ensures ThreadOk(h', h'.threads[u])
    {
      assert ThreadOk(h, h.threads[u]);
    }
  }

  // ----- a call left alone

  /** The most accesses that a thread left alone still needs; a maximum that has moved on costs a second try. */
  function Rank(h: Shared, pc: Pc): nat {
    match pc
    case Idle => 0
    case AddBucket(_) => 5
    case AddTotal(_) => 4
    case AddSum(_) => 3
    case LoadMax(_) => 2
    case Raise(ns, curMax) => if ns <= curMax || curMax == h.max then 1 else 2
  }

  /**
   A call ends only when the maximum it read is no less than its sample, or when it has raised the maximum to its
   sample; until then it keeps its sample. It can always go on, and without spurious failures comes nearer to its end.
   */
  lemma CallGoesOn(h: Shared, t: nat, fails: bool) returns (h': Shared)
    requires |h.buckets| == TOTAL_BUCKETS && t < |h.threads| && !h.threads[t].Idle?
    ensures Step(h, t, Go(fails), h') && forall h2 :: Step(h, t, Go(fails), h2) ==> h2 == h'
    ensures var pc, pc' := h.threads[t], h'.threads[t];
            && (pc'.Idle? <==> pc.Raise? && (pc.ns <= pc.curMax || (!fails && h.max == pc.curMax)))
            && (pc'.Idle? && pc.ns > pc.curMax ==> h'.max == pc.ns)
            && (!pc'.Idle? ==> pc'.ns == pc.ns)
            && (!fails ==> Rank(h', pc') < Rank(h, pc) <= 5)
  {
    match h.threads[t]
    case AddBucket(ns) =>
      var i := BucketIndex(ns);
      h' := h.Goto(t, AddTotal(ns)).(buckets := h.buckets[i := h.buckets[i] + 1], samples := h.samples + [ns]);
    case AddTotal(ns) => h' := h.Goto(t, AddSum(ns)).(total := h.total + 1);
    case AddSum(ns) => h' := h.Goto(t, LoadMax(ns)).(sum := h.sum + ns);
    case LoadMax(ns) => h' := h.Goto(t, Raise(ns, h.max));
    case Raise(ns, curMax) =>
      h' := if ns <= curMax then h.Goto(t, Idle)
            else if fails || h.max != curMax then h.Goto(t, Raise(ns, h.max))
            else h.Goto(t, Idle).(max := ns);
  }

  /** An idle thread that records and is left alone counts its sample once in every total and raises the maximum. */
  lemma RecordCall(h: Shared, t: nat, ns: nat)
    returns (h1: Shared, h2: Shared, h3: Shared, h4: Shared, h5: Shared, h6: Shared)
    requires |h.buckets| == TOTAL_BUCKETS && t < |h.threads| && h.threads[t].Idle?
    ensures Step(h, t, Begin(ns), h1) && Step(h1, t, Go(false), h2) && Step(h2, t, Go(false), h3)
    ensures Step(h3, t, Go(false), h4) && Step(h4, t, Go(false), h5) && Step(h5, t, Go(false), h6)
    ensures h6.threads == h.threads && h6.samples == h.samples + [ns]
    ensures h6.buckets == h.buckets[BucketIndex(ns) := h.buckets[BucketIndex(ns)] + 1]
    ensures h6.total == h.total + 1 && h6.sum == h.sum + ns && h6.max == if ns > h.max then ns else h.max
  {
    h1 := h.Goto(t, AddBucket(ns));
    h2 := CallGoesOn(h1, t, false);
    h3 := CallGoesOn(h2, t, false);
    h4 := CallGoesOn(h3, t, false);
    h5 := CallGoesOn(h4, t, false);
    h6 := CallGoesOn(h5, t, false);
  }

  // ----- every run

  ghost predicate Next(h: Shared, h': Shared) {
    exists t, a :: Step(h, t, a, h')
  }

  ghost predicate Linked(run: seq<Shared>, i: nat)
    requires i + 1 < |run|
  {
    Next(run[i], run[i + 1])
  }

  /** Any interleaving of any threads' accesses, from a new histogram. */
  ghost predicate Execution(run: seq<Shared>) {
    && run != [] && Init(run[0])
    && forall i {:trigger Linked(run, i)} :: 0 <= i < |run| - 1 ==> Linked(run, i)
  }

  lemma InitOk(h: Shared)
    requires Init(h)
    ensures Counts(h) && Maximum(h)
  {
    NoDebt(h.threads, false);
    NoDebt(h.threads, true);
  }

  lemma {:induction false} ExecutionOk(run: seq<Shared>, n: nat)
    requires Execution(run) && n < |run|
    ensures Counts(run[n]) && Maximum(run[n])
    decreases n
  {
    if n == 0 {
      InitOk(run[0]);
    } else {
      ExecutionOk(run, n - 1);
      assert Linked(run, n - 1);
      var t, a :| Step(run[n - 1], t, a, run[n]);
      CountsKept(run[n - 1], t, a, run[n]);
      MaximumKept(run[n - 1], t, a, run[n]);
    }
  }

  lemma {:induction false} MaxOfIs(xs: seq<nat>, m: nat)
    requires (forall x :: x in xs ==> x <= m) && (m == 0 || m in xs)
    ensures MaxOf(xs) == m
  {
    if xs != [] {
      MaxOfBounds(xs, m);
    }
  }

  lemma {:induction false} MaxOfBounds(xs: seq<nat>, m: nat)
    requires forall x :: x in xs ==> x <= m
    ensures MaxOf(xs) <= m && forall x :: x in xs ==> x <= MaxOf(xs)
  {
    if xs != [] {
      var init := xs[..|xs| - 1];
      assert forall x :: x in init ==> x in xs;
      MaxOfBounds(init, m);
      assert xs == init + [xs[|xs| - 1]] && xs[|xs| - 1] in xs;
    }
  }

  /** Whenever no call is under way, the counters are those of all samples recorded, whatever the interleaving. */
  lemma QuiescentSummary(run: seq<Shared>, n: nat)
    requires Execution(run) && n < |run|
    requires forall t :: 0 <= t < |run[n].threads| ==> run[n].threads[t].Idle?
    ensures var h := run[n]; Summarizes(Snapshot(h.buckets, h.total, h.sum, h.max), h.samples)
  {
    ExecutionOk(run, n);
    var h := run[n];
    NoDebt(h.threads, false);
    NoDebt(h.threads, true);
    forall x | x in h.samples
      ensures x <= h.max
    {
      assert Covered(h, x);
    }
    MaxOfIs(h.samples, h.max);
  }

  /** While calls are under way: every bucket counter is exact, and total, sum and maximum only lag behind. */
  lemma LaggingSummary(run: seq<Shared>, n: nat)
    requires Execution(run) && n < |run|
    ensures var h := run[n];
            && Exact(h.buckets, h.samples)
            && h.total <= |h.samples| && h.sum <= SumOf(h.samples) && (h.max == 0 || h.max in h.samples)
  {
    ExecutionOk(run, n);
  }
}
