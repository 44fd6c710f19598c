/** What a call on the single-producer single-consumer ring comes to: how it ends, and after how many accesses. */
module SpscCalls {
  import opened Ring
  import opened SpscQueue

  /** The accesses that a push still has ahead of it. */
  function PushRank<T>(p: Producer<T>): nat {
    match p
    case Resting => 0
    case LoadWrite(_) => 4
    case CheckFull(_, _, _) => 3
    case WriteCell(_, _, _) => 2
    case StoreWrite(_, _) => 1
  }

  /** The accesses that a pop still has ahead of it. */
  function PopRank<T>(c: Consumer<T>): nat {
    match c
    case Waiting => 0
    case LoadRead => 4
    case CheckEmpty(_) => 3
    case ReadCell(_) => 2
    case StoreRead(_, _) => 1
  }

  // ----- one access

  /**
   A push ends in two ways only: its full test refuses it, or it stores the write position, and then its item is
   accepted. Until then it keeps its item and is one access nearer to its end. It never touches the consumer's side.
   */
  lemma PushGoesOn<T>(s: Queue<T>, seen: nat, s': Queue<T>)
    requires Inv(s) && Step(s, Produce(seen), s')
    ensures var e := EffectOf(s, Produce(seen), s');
            && !s.producer.Resting?
            && (s'.producer.Resting? <==> e.Full? || e == Accepted(s.producer.item))
            && (s.producer.StoreWrite? <==> e == Accepted(s.producer.item))
            && (e == Accepted(s.producer.item) ==> s'.pushed == s.pushed + [s.producer.item])
            && (!s'.producer.Resting? ==>
                  s'.producer.item == s.producer.item && PushRank(s'.producer) == PushRank(s.producer) - 1)
    ensures s'.consumer == s.consumer && s'.popped == s.popped && s'.readPos == s.readPos
  {
  }

  /** The same of a pop: its empty test refuses it, or it stores the read position and returns the oldest item. */
  lemma PopGoesOn<T>(s: Queue<T>, seen: nat, s': Queue<T>)
    requires Inv(s) && Step(s, Consume(seen), s')
    ensures var e := EffectOf(s, Consume(seen), s');
            && !s.consumer.Waiting?
            && (s'.consumer.Waiting? <==> e.Empty? || e.Taken?)
            && (s.consumer.StoreRead? <==> e.Taken?)
            && (e.Taken? ==> |s.popped| < |s.pushed| && e.item == s.pushed[|s.popped|])
            && (e.Taken? ==> s'.popped == s.popped + [e.item])
            && (!s'.consumer.Waiting? ==> PopRank(s'.consumer) == PopRank(s.consumer) - 1)
    ensures s'.producer == s.producer && s'.pushed == s.pushed && s'.writePos == s.writePos
  {
  }

  /** A call under way can always perform its next access, with a fresh load. */
  lemma CanProduce<T>(s: Queue<T>) returns (s': Queue<T>)
    requires Inv(s) && !s.producer.Resting?
    ensures Step(s, Produce(|s.popped|), s') && Fresh(s, Produce(|s.popped|))
  {
    match s.producer
    case LoadWrite(x) =>
      var wp := s.writePos[|s.writePos| - 1];
      s' := s.(producer := CheckFull(x, wp, Cell(s.cap, wp + 1)));
    case CheckFull(x, wp, next) =>
      var seen := |s.popped|;
      s' := s.(producer := if next == s.readPos[seen] then Resting else WriteCell(x, wp, next), seenRead := seen);
    case WriteCell(x, wp, next) => s' := s.(producer := StoreWrite(x, next), buffer := s.buffer[wp := x]);
    case StoreWrite(x, next) =>
      s' := s.(producer := Resting, writePos := s.writePos + [next], pushed := s.pushed + [x]);
  }

  lemma CanConsume<T>(s: Queue<T>) returns (s': Queue<T>)
    requires Inv(s) && !s.consumer.Waiting?
    ensures Step(s, Consume(|s.pushed|), s') && Fresh(s, Consume(|s.pushed|))
  {
    match s.consumer
    case LoadRead => s' := s.(consumer := CheckEmpty(s.readPos[|s.readPos| - 1]));
    case CheckEmpty(rp) =>
      var seen := |s.pushed|;
      s' := s.(consumer := if rp == s.writePos[seen] then Waiting else ReadCell(rp), seenWrite := seen);
    case ReadCell(rp) => s' := s.(consumer := StoreRead(rp, s.buffer[rp]));
    case StoreRead(rp, v) =>
      s' := s.(consumer := Waiting, readPos := s.readPos + [Cell(s.cap, rp + 1)], popped := s.popped + [v]);
  }

  // ----- a call in a run

  /** From step m to state n one push is under way, with the item of the call that step m began. */
  ghost predicate Underway<T>(run: seq<Queue<T>>, acts: seq<Action<T>>, m: nat, n: nat, x: T) {
    && m < n < |run| && m < |acts| && acts[m] == BeginPush(x)
    && forall i {:trigger run[i]} :: m < i <= n ==> !run[i].producer.Resting? && run[i].producer.item == x
  }

  lemma {:induction false} OpenedBy<T>(run: seq<Queue<T>>, acts: seq<Action<T>>, n: nat) returns (m: nat)
    requires Execution(run, acts) && n < |run| && !run[n].producer.Resting?
    ensures Underway(run, acts, m, n, run[n].producer.item)
    decreases n
  {
    assert n > 0;
    ExecutionOk(run, acts, n - 1);
    assert Linked(run, acts, n - 1);
    if acts[n - 1].BeginPush? {
      m := n - 1;
    } else {
      if acts[n - 1].Produce? {
        PushGoesOn(run[n - 1], acts[n - 1].seen, run[n]);
      }
      m := OpenedBy(run, acts, n - 1);
    }
  }

  /** Every accepted item is the one with which its own call began, and the call ends in that very step. */
  lemma AcceptsItsItem<T>(run: seq<Queue<T>>, acts: seq<Action<T>>, n: nat) returns (m: nat)
    requires Execution(run, acts) && n < |acts| && EffectOf(run[n], acts[n], run[n + 1]).Accepted?
    ensures Underway(run, acts, m, n, EffectOf(run[n], acts[n], run[n + 1]).item)
    ensures run[n + 1].producer.Resting?
    ensures run[n + 1].pushed == run[n].pushed + [EffectOf(run[n], acts[n], run[n + 1]).item]
  {
    assert Linked(run, acts, n);
    ExecutionOk(run, acts, n);
    PushGoesOn(run[n], acts[n].seen, run[n + 1]);
    m := OpenedBy(run, acts, n);
  }

  // ----- a whole call, alone

  /** One access of the producer with a fresh load. */
  ghost predicate Pushes<T>(s: Queue<T>, s': Queue<T>) {
    Step(s, Produce(|s.popped|), s')
  }

  ghost predicate Pops<T>(s: Queue<T>, s': Queue<T>) {
    Step(s, Consume(|s.pushed|), s')
  }

  /** Left alone, a push to a ring with room is accepted after its four accesses. */
  lemma PushAlone<T>(s: Queue<T>, x: T, s1: Queue<T>, s2: Queue<T>, s3: Queue<T>, s4: Queue<T>, s5: Queue<T>)
    requires Inv(s) && Step(s, BeginPush(x), s1) && |s.Contents()| < s.cap - 1
    requires Pushes(s1, s2) && Pushes(s2, s3) && Pushes(s3, s4) && Pushes(s4, s5)
    ensures s5.producer.Resting? && s5.pushed == s.pushed + [x] && s5.popped == s.popped && s5.consumer == s.consumer
    ensures s5.writePos == s.writePos + [Cell(s.cap, |s.pushed| + 1)]
  {
    StepOk(s, BeginPush(x), s1);
    PushGoesOn(s1, |s1.popped|, s2);
    StepOk(s1, Produce(|s1.popped|), s2);
    RefusalExact(s2, Produce(|s2.popped|), s3);
    StepOk(s2, Produce(|s2.popped|), s3);
    StepOk(s3, Produce(|s3.popped|), s4);
  }

  /** Left alone, a push to a full ring is refused after two accesses. */
  lemma PushAloneFull<T>(s: Queue<T>, x: T, s1: Queue<T>, s2: Queue<T>, s3: Queue<T>)
    requires Inv(s) && Step(s, BeginPush(x), s1) && |s.Contents()| == s.cap - 1
    requires Pushes(s1, s2) && Pushes(s2, s3)
    ensures s3.producer.Resting? && s3.pushed == s.pushed && s3.buffer == s.buffer && s3.writePos == s.writePos
  {
    StepOk(s, BeginPush(x), s1);
    StepOk(s1, Produce(|s1.popped|), s2);
    RefusalExact(s2, Produce(|s2.popped|), s3);
  }

  /** Left alone, a pop from a ring that is not empty returns the oldest item after its four accesses. */
  lemma PopAlone<T>(s: Queue<T>, s1: Queue<T>, s2: Queue<T>, s3: Queue<T>, s4: Queue<T>, s5: Queue<T>)
    requires Inv(s) && Step(s, BeginPop, s1) && s.Contents() != []
    requires Pops(s1, s2) && Pops(s2, s3) && Pops(s3, s4) && Pops(s4, s5)
    ensures s5.consumer.Waiting? && s5.popped == s.popped + [s.Contents()[0]] && s5.pushed == s.pushed
    ensures s5.readPos == s.readPos + [Cell(s.cap, |s.popped| + 1)] && s5.producer == s.producer
  {
    StepOk(s, BeginPop, s1);
    StepOk(s1, Consume(|s1.pushed|), s2);
    RefusalExact(s2, Consume(|s2.pushed|), s3);
    StepOk(s2, Consume(|s2.pushed|), s3);
    StepOk(s3, Consume(|s3.pushed|), s4);
    PopEnd(s4, s5);
    assert s4.popped == s.popped && s4.pushed == s.pushed && s4.readPos == s.readPos && s4.cap == s.cap;
  }

  /** The last access of a pop. */
  lemma PopEnd<T>(s: Queue<T>, s': Queue<T>)
    requires Inv(s) && s.consumer.StoreRead? && Pops(s, s')
    ensures s'.consumer.Waiting? && s.Contents() != [] && s'.popped == s.popped + [s.Contents()[0]]
    ensures s'.pushed == s.pushed && s'.producer == s.producer
    ensures s'.readPos == s.readPos + [Cell(s.cap, |s.popped| + 1)]
  {
    CellNext(s.cap, |s.popped|);
    PopGoesOn(s, |s.pushed|, s');
  }

  /** Left alone, a pop from an empty ring is refused after two accesses. */
  lemma PopAloneEmpty<T>(s: Queue<T>, s1: Queue<T>, s2: Queue<T>, s3: Queue<T>)
    requires Inv(s) && Step(s, BeginPop, s1) && s.Contents() == []
    requires Pops(s1, s2) && Pops(s2, s3)
    ensures s3.consumer.Waiting? && s3.popped == s.popped && s3.readPos == s.readPos
  {
    StepOk(s, BeginPop, s1);
    StepOk(s1, Consume(|s1.pushed|), s2);
    RefusalExact(s2, Consume(|s2.pushed|), s3);
  }

  // ----- such calls exist

  /** A resting producer can push, alone, and its item is accepted when there is room. */
  lemma PushCall<T>(s: Queue<T>, x: T)
    returns (s1: Queue<T>, s2: Queue<T>, s3: Queue<T>, s4: Queue<T>, s5: Queue<T>)
    requires Inv(s) && s.producer.Resting? && |s.Contents()| < s.cap - 1
    ensures Step(s, BeginPush(x), s1) && Pushes(s1, s2) && Pushes(s2, s3) && Pushes(s3, s4) && Pushes(s4, s5)
    ensures s5.producer.Resting? && s5.pushed == s.pushed + [x] && s5.popped == s.popped
  {
    s1 := s.(producer := LoadWrite(x));
    StepOk(s, BeginPush(x), s1);
    s2 := CanProduce(s1);
    StepOk(s1, Produce(|s1.popped|), s2);
    s3 := CanProduce(s2);
    RefusalExact(s2, Produce(|s2.popped|), s3);
    StepOk(s2, Produce(|s2.popped|), s3);
    s4 := CanProduce(s3);
    StepOk(s3, Produce(|s3.popped|), s4);
    s5 := CanProduce(s4);
    PushAlone(s, x, s1, s2, s3, s4, s5);
  }

  /** A waiting consumer can pop, alone, and gets the oldest item when there is one. */
  lemma PopCall<T>(s: Queue<T>) returns (s1: Queue<T>, s2: Queue<T>, s3: Queue<T>, s4: Queue<T>, s5: Queue<T>)
    requires Inv(s) && s.consumer.Waiting? && s.Contents() != []
    ensures Step(s, BeginPop, s1) && Pops(s1, s2) && Pops(s2, s3) && Pops(s3, s4) && Pops(s4, s5)
    ensures s5.consumer.Waiting? && s5.popped == s.popped + [s.Contents()[0]] && s5.pushed == s.pushed
  {
    s1 := s.(consumer := LoadRead);
    StepOk(s, BeginPop, s1);
    s2 := CanConsume(s1);
    StepOk(s1, Consume(|s1.pushed|), s2);
    s3 := CanConsume(s2);
    RefusalExact(s2, Consume(|s2.pushed|), s3);
    StepOk(s2, Consume(|s2.pushed|), s3);
    s4 := CanConsume(s3);
    StepOk(s3, Consume(|s3.pushed|), s4);
    s5 := CanConsume(s4);
    PopAlone(s, s1, s2, s3, s4, s5);
  }
}
