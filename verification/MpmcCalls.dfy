/** What a call on the multi-producer multi-consumer queue comes to: how it ends, and that it ends when left alone. */
module MpmcCalls {
  import opened Ring
  import opened MpmcQueue

  ghost predicate InPush<T>(pc: Pc<T>) {
    pc.PushLoad? || pc.PushSeq? || pc.PushCas? || pc.PushWrite? || pc.PushPublish?
  }

  ghost predicate InPop<T>(pc: Pc<T>) {
    pc.PopLoad? || pc.PopSeq? || pc.PopCas? || pc.PopRead? || pc.PopRelease?
  }

  /** The cell of the tail is not free for it: the ticket one round back is not released. */
  ghost predicate Full<T>(s: Queue<T>) {
    s.enq >= s.cap && s.enq - s.cap !in s.popped
  }

  // ----- one access

  /**
   A push ends in two ways only: it publishes its item, or it gives up at a sequence load with its position at the
   tail and no free cell there. Until then the thread stays in the push with the same item. A failed compare-and-swap
   changes nothing but the thread's position, which becomes the tail.
   */
  lemma PushGoesOn<T>(s: Queue<T>, t: nat, fails: bool, s': Queue<T>)
    requires Inv(s) && Step(s, t, Go(fails), s') && InPush(s.threads[t])
    ensures var pc, pc' := s.threads[t], s'.threads[t];
            && (pc'.Idle? <==> pc.PushPublish? || (pc.PushSeq? && pc.pos == s.enq && Full(s)))
            && (!pc'.Idle? ==> InPush(pc') && pc'.item == pc.item)
            && (pc.PushPublish? ==> pc.pos in s'.published && s'.seqs[Cell(s.cap, pc.pos)] == pc.pos + 1)
            && (pc.PushCas? && (fails || pc.pos != s.enq) ==> s' == s.Goto(t, PushSeq(pc.item, s.enq)))
            && (pc.PushCas? && !fails && pc.pos == s.enq ==> pc' == PushWrite(pc.item, s.enq) && s'.enq == s.enq + 1)
  {
    assert ThreadOk(s, s.threads[t]);
    if s.threads[t].PushSeq? {
      PushVerdict(s, t, fails, s');
    }
  }

  /** The same of a pop: it releases its ticket, or gives up with its position at the head and nothing published. */
  lemma PopGoesOn<T>(s: Queue<T>, t: nat, fails: bool, s': Queue<T>)
    requires Inv(s) && Step(s, t, Go(fails), s') && InPop(s.threads[t])
    ensures var pc, pc' := s.threads[t], s'.threads[t];
            && (pc'.Idle? <==> pc.PopRelease? || (pc.PopSeq? && pc.pos == s.deq && s.deq !in s.published))
            && (!pc'.Idle? ==> InPop(pc'))
            && (pc.PopRelease? ==> pc.pos in s'.popped && s'.popped[pc.pos] == pc.value == s.pushed[pc.pos])
            && (pc.PopCas? && (fails || pc.pos != s.deq) ==> s' == s.Goto(t, PopSeq(s.deq)))
            && (pc.PopCas? && !fails && pc.pos == s.deq ==> pc' == PopRead(s.deq) && s'.deq == s.deq + 1)
            && (pc.PopRead? ==> pc' == PopRelease(pc.pos, s.pushed[pc.pos]))
  {
    assert ThreadOk(s, s.threads[t]);
    if s.threads[t].PopSeq? {
      PopVerdict(s, t, fails, s');
    }
  }

  // ----- a call left alone

  /** A thread inside a call can always perform its next access. */
  lemma CanGo<T>(s: Queue<T>, t: nat, fails: bool) returns (s': Queue<T>)
    requires Inv(s) && t < |s.threads| && !s.threads[t].Idle?
    ensures Step(s, t, Go(fails), s')
  {
    match s.threads[t]
    case PushLoad(x) => s' := s.Goto(t, PushSeq(x, s.enq));
    case PushSeq(x, pos) =>
      var seen := s.seqs[Cell(s.cap, pos)];
      s' := s.Goto(t, if seen == pos then PushCas(x, pos) else if seen < pos then Idle else PushLoad(x));
    case PushCas(x, pos) =>
      s' := if fails || s.enq != pos then s.Goto(t, PushSeq(x, s.enq)) else ClaimPush(s, t);
    case PushWrite(_, _) => s' := WriteData(s, t);
    case PushPublish(_, _) => s' := Publish(s, t);
    case PopLoad => s' := s.Goto(t, PopSeq(s.deq));
    case PopSeq(pos) =>
      var seen := s.seqs[Cell(s.cap, pos)];
      s' := s.Goto(t, if seen == pos + 1 then PopCas(pos) else if seen < pos + 1 then Idle else PopLoad);
    case PopCas(pos) =>
      s' := if fails || s.deq != pos then s.Goto(t, PopSeq(s.deq)) else ClaimPop(s, t);
    case PopRead(pos) => s' := s.Goto(t, PopRelease(pos, s.data[Cell(s.cap, pos)]));
    case PopRelease(_, _) => s' := Release(s, t);
  }

  /** The most accesses that a thread left alone still needs; a position behind its counter costs a second round. */
  function Rank<T>(s: Queue<T>, pc: Pc<T>): nat {
    match pc
    case Idle => 0
    case PushPublish(_, _) => 1
    case PushWrite(_, _) => 2
    case PushCas(_, pos) => if pos == s.enq then 3 else 5
    case PushSeq(_, pos) => if pos == s.enq then 4 else 6
    case PushLoad(_) => 5
    case PopRelease(_, _) => 1
    case PopRead(_) => 2
    case PopCas(pos) => if pos == s.deq then 3 else 5
    case PopSeq(pos) => if pos == s.deq then 4 else 6
    case PopLoad => 5
  }

  /** Every own access without spurious failure brings the end of the call nearer. */
  lemma RankFalls<T>(s: Queue<T>, t: nat, s': Queue<T>)
    requires Inv(s) && Step(s, t, Go(false), s')
    ensures Rank(s', s'.threads[t]) < Rank(s, s.threads[t]) <= 6
  {
    assert ThreadOk(s, s.threads[t]);
    if s.threads[t].PushSeq? {
      PushVerdict(s, t, false, s');
    } else if s.threads[t].PopSeq? {
      PopVerdict(s, t, false, s');
    }
  }

  ghost predicate Follows<T>(run: seq<Queue<T>>, t: nat, i: nat)
    requires i + 1 < |run|
  {
    run[i].Sized() && Step(run[i], t, Go(false), run[i + 1])
  }

  /** A run in which only thread t acts, inside one call and without spurious failures. */
  ghost predicate Alone<T>(run: seq<Queue<T>>, t: nat) {
    && run != [] && Inv(run[0])
    && forall i {:trigger Follows(run, t, i)} :: 0 <= i < |run| - 1 ==> Follows(run, t, i)
  }

  lemma {:induction false} AloneFalls<T>(run: seq<Queue<T>>, t: nat, n: nat)
    requires Alone(run, t) && n < |run| && t < |run[0].threads|
    ensures Inv(run[n]) && |run[n].threads| == |run[0].threads|
    ensures Rank(run[n], run[n].threads[t]) + n <= Rank(run[0], run[0].threads[t])
    decreases n
  {
    if n > 0 {
      AloneFalls(run, t, n - 1);
      assert Follows(run, t, n - 1);
      RankFalls(run[n - 1], t, run[n]);
      StepOk(run[n - 1], t, Go(false), run[n]);
      StepExtends(run[n - 1], t, Go(false), run[n]);
    }
  }

  /** A call left alone ends within six accesses, wherever it was and whatever the others had done. */
  lemma EndsAlone<T>(run: seq<Queue<T>>, t: nat)
    requires Alone(run, t) && t < |run[0].threads|
    ensures |run| <= 7
    ensures |run| == 7 ==> t < |run[6].threads| && run[6].threads[t].Idle?
  {
    AloneFalls(run, t, |run| - 1);
    if !run[0].threads[t].Idle? && |run| > 1 {
      assert Follows(run, t, 0);
      RankFalls(run[0], t, run[1]);
    }
  }

  // ----- a whole call, alone

  /** The way of a push, left alone, through a queue that is not full. */
  lemma PushStates<T>(run: seq<Queue<T>>, t: nat)
    requires Alone(run, t) && t < |run[0].threads| && run[0].threads[t].PushLoad?
    ensures var s, x := run[0], run[0].threads[t].item;
            && (|run| > 1 ==> run[1] == s.Goto(t, PushSeq(x, s.enq)))
            && (|run| > 2 && !Full(s) ==> run[2] == s.Goto(t, PushCas(x, s.enq)))
            && (|run| > 3 && !Full(s) ==>
                  run[3] == s.Goto(t, PushWrite(x, s.enq)).(enq := s.enq + 1, pushed := s.pushed + [x]))
            && (|run| > 4 && !Full(s) ==>
                  && run[4].threads == s.threads[t := PushPublish(x, s.enq)] && run[4].pushed == s.pushed + [x]
                  && run[4].enq == s.enq + 1 && run[4].deq == s.deq && run[4].cap == s.cap
                  && run[4].published == s.published && run[4].popped == s.popped)
            && (|run| > 2 && Full(s) ==> run[2] == s.Goto(t, Idle))
  {
    var s, x := run[0], run[0].threads[t].item;
    if |run| > 1 {
      assert Follows(run, t, 0);
      assert run[1] == s.Goto(t, PushSeq(x, s.enq));
    }
    if |run| > 2 {
      assert Follows(run, t, 1);
      AloneFalls(run, t, 1);
      PushVerdict(run[1], t, false, run[2]);
    }
    if |run| > 3 && !Full(s) {
      assert Follows(run, t, 2);
    }
    if |run| > 4 && !Full(s) {
      assert Follows(run, t, 3);
    }
  }

  /** The way of a pop, left alone. */
  lemma PopStates<T>(run: seq<Queue<T>>, t: nat)
    requires Alone(run, t) && t < |run[0].threads| && run[0].threads[t].PopLoad?
    ensures var s := run[0];
            && (|run| > 1 ==> run[1] == s.Goto(t, PopSeq(s.deq)))
            && (|run| > 2 && s.deq !in s.published ==> run[2] == s.Goto(t, Idle))
            && (|run| > 2 && s.deq in s.published ==> run[2] == s.Goto(t, PopCas(s.deq)))
            && (|run| > 3 && s.deq in s.published ==> run[3] == s.Goto(t, PopRead(s.deq)).(deq := s.deq + 1))
            && (|run| > 4 && s.deq in s.published ==>
                  && s.deq < |s.pushed|
                  && run[4] == s.Goto(t, PopRelease(s.deq, s.pushed[s.deq])).(deq := s.deq + 1))
  {
    var s := run[0];
    if |run| > 1 {
      assert Follows(run, t, 0);
      assert run[1] == s.Goto(t, PopSeq(s.deq));
    }
    if |run| > 2 {
      assert Follows(run, t, 1);
      AloneFalls(run, t, 1);
      PopVerdict(run[1], t, false, run[2]);
    }
    if |run| > 3 && s.deq in s.published {
      assert Follows(run, t, 2);
    }
    if |run| > 4 && s.deq in s.published {
      assert Follows(run, t, 3);
      AloneFalls(run, t, 3);
      PopGoesOn(run[3], t, false, run[4]);
    }
  }

  /** Left alone from its start, a push to a queue that is not full claims the next ticket and publishes its item. */
  lemma PushAlone<T>(run: seq<Queue<T>>, t: nat)
    requires Alone(run, t) && |run| == 6 && t < |run[0].threads| && run[0].threads[t].PushLoad? && !Full(run[0])
    ensures var s, s', x := run[0], run[5], run[0].threads[t].item;
            && s'.threads == s.threads[t := Idle] && s'.pushed == s.pushed + [x] && s'.enq == s.enq + 1
            && s'.published == s.published + {s.enq} && s'.deq == s.deq && s'.popped == s.popped
  {
    PushStates(run, t);
    assert Follows(run, t, 4);
  }

  /** Left alone from its start, a push to a full queue is refused after two accesses and changes nothing. */
  lemma PushAloneFull<T>(run: seq<Queue<T>>, t: nat)
    requires Alone(run, t) && |run| == 3 && t < |run[0].threads| && run[0].threads[t].PushLoad? && Full(run[0])
    ensures run[2] == run[0].Goto(t, Idle)
  {
    PushStates(run, t);
  }

  /** Left alone from its start, a pop with the head published claims the head and returns the item pushed under it. */
  lemma PopAlone<T>(run: seq<Queue<T>>, t: nat)
    requires Alone(run, t) && |run| == 6 && t < |run[0].threads| && run[0].threads[t].PopLoad?
    requires run[0].deq in run[0].published
    ensures var s, s' := run[0], run[5];
            && s.deq < |s.pushed|
            && s'.threads == s.threads[t := Idle] && s'.popped == s.popped[s.deq := s.pushed[s.deq]]
            && s'.deq == s.deq + 1 && s'.enq == s.enq && s'.pushed == s.pushed && s'.published == s.published
  {
    PopStates(run, t);
    assert Follows(run, t, 4);
  }

  /** Left alone from its start, a pop with nothing published at the head is refused after two accesses. */
  lemma PopAloneEmpty<T>(run: seq<Queue<T>>, t: nat)
    requires Alone(run, t) && |run| == 3 && t < |run[0].threads| && run[0].threads[t].PopLoad?
    requires run[0].deq !in run[0].published
    ensures run[2] == run[0].Goto(t, Idle)
  {
    PopStates(run, t);
  }

  // ----- a whole call, from an idle thread

  /** A run of a thread left alone goes on as long as its call does. */
  lemma GoOn<T>(run: seq<Queue<T>>, t: nat) returns (longer: seq<Queue<T>>)
    requires Alone(run, t) && t < |run[0].threads|
    requires var s := run[|run| - 1]; t < |s.threads| && !s.threads[t].Idle?
    ensures Alone(longer, t) && |longer| == |run| + 1 && longer[..|run|] == run
  {
    var n := |run| - 1;
    AloneFalls(run, t, n);
    var s' := CanGo(run[n], t, false);
    longer := run + [s'];
    forall i | 0 <= i < |longer| - 1
      ensures Follows(longer, t, i)
    {
      assert i < n ==> Follows(run, t, i);
    }
  }

  /** n more accesses of a thread left alone, if its call needs that many. */
  lemma {:induction false} GoOnFor<T>(run: seq<Queue<T>>, t: nat, n: nat) returns (longer: seq<Queue<T>>)
    requires Alone(run, t) && t < |run[0].threads|
    ensures Alone(longer, t) && |run| <= |longer| <= |run| + n && longer[0] == run[0]
    ensures var s := longer[|longer| - 1]; t < |s.threads| && (|longer| < |run| + n ==> s.threads[t].Idle?)
    decreases n
  {
    AloneFalls(run, t, |run| - 1);
    if n == 0 || run[|run| - 1].threads[t].Idle? {
      longer := run;
    } else {
      var r := GoOn(run, t);
      assert r[0] == r[..|run|][0];
      longer := GoOnFor(r, t, n - 1);
    }
  }

  /** An idle thread that calls push and is left alone: its item is claimed and published, or the queue was full. */
  lemma PushCall<T>(s: Queue<T>, t: nat, x: T) returns (run: seq<Queue<T>>)
    requires Inv(s) && t < |s.threads| && s.threads[t].Idle?
    ensures Alone(run, t) && Step(s, t, BeginPush(x), run[0])
    ensures var s' := run[|run| - 1];
            && s'.threads == s.threads && s'.deq == s.deq && s'.popped == s.popped
            && s'.pushed == (if Full(s) then s.pushed else s.pushed + [x])
            && s'.published == (if Full(s) then s.published else s.published + {s.enq})
  {
    var s1 := s.Goto(t, PushLoad(x));
    StepOk(s, t, BeginPush(x), s1);
    run := GoOnFor([s1], t, if Full(s) then 2 else 5);
    assert Full(s1) == Full(s) && s1.threads[t := Idle] == s.threads;
    AloneKeeps(run, t);
    if Full(s) {
      PushAloneFull(run, t);
    } else {
      PushAlone(run, t);
    }
  }

  /** An idle thread that calls pop and is left alone: it returns the item at the head, or none was published. */
  lemma PopCall<T>(s: Queue<T>, t: nat) returns (run: seq<Queue<T>>)
    requires Inv(s) && t < |s.threads| && s.threads[t].Idle?
    ensures Alone(run, t) && Step(s, t, BeginPop, run[0])
    ensures var s' := run[|run| - 1];
            && s'.threads == s.threads && s'.enq == s.enq && s'.pushed == s.pushed && s'.published == s.published
            && (s.deq in s.published ==> s.deq < |s.pushed| && s'.popped == s.popped[s.deq := s.pushed[s.deq]])
            && (s.deq !in s.published ==> s'.popped == s.popped && s'.deq == s.deq)
  {
    var s1 := s.Goto(t, PopLoad);
    StepOk(s, t, BeginPop, s1);
    run := GoOnFor([s1], t, if s.deq in s.published then 5 else 2);
    assert s1.threads[t := Idle] == s.threads;
    AloneKeeps(run, t);
    if s.deq in s.published {
      PopAlone(run, t);
    } else {
      PopAloneEmpty(run, t);
    }
  }

  /** From its start, a call left alone needs two accesses to be refused and five to succeed, and no fewer. */
  lemma AloneKeeps<T>(run: seq<Queue<T>>, t: nat)
    requires Alone(run, t) && t < |run[0].threads| && |run| <= 6
    requires run[0].threads[t].PushLoad? || run[0].threads[t].PopLoad?
    requires var s := run[|run| - 1]; t < |s.threads|
    requires var refused := if run[0].threads[t].PushLoad? then Full(run[0]) else run[0].deq !in run[0].published;
             var n := if refused then 3 else 6;
             |run| <= n && (|run| < n ==> run[|run| - 1].threads[t].Idle?)
    ensures var refused := if run[0].threads[t].PushLoad? then Full(run[0]) else run[0].deq !in run[0].published;
            |run| == if refused then 3 else 6
  {
    if run[0].threads[t].PushLoad? {
      PushStates(run, t);
    } else {
      PopStates(run, t);
    }
  }
}
