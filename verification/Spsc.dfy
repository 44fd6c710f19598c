/**
 The single-producer single-consumer ring as a transition system: each step is one load, payload access or store.
 A load of the peer's position may return any value the peer has stored since the last one seen.
 */
module SpscQueue {
  import opened Ring

  /** Where the producer is; the name says which access comes next. */
  datatype Producer<T> =
    | Resting
    | LoadWrite(item: T)
    | CheckFull(item: T, wp: nat, next: nat)
    | WriteCell(item: T, wp: nat, next: nat)
    | StoreWrite(item: T, next: nat)

  /** Where the consumer is. */
  datatype Consumer<T> =
    | Waiting
    | LoadRead
    | CheckEmpty(rp: nat)
    | ReadCell(rp: nat)
    | StoreRead(rp: nat, value: T)

  /**
   `writePos` and `readPos` hold every value stored so far in the write and read position, the current one last.
   `seenRead` and `seenWrite` are how far into them the peer has looked. `pushed` and `popped` record the items
   of the calls that succeeded.
   */
  datatype Queue<T> = Queue(cap: nat, buffer: seq<T>, writePos: seq<nat>, readPos: seq<nat>,
                            producer: Producer<T>, consumer: Consumer<T>,
                            seenRead: nat, seenWrite: nat, pushed: seq<T>, popped: seq<T>)
  {
    /** The items in the ring, oldest first. */
    ghost function Contents(): seq<T>
      requires |popped| <= |pushed|
    {
      pushed[|popped|..]
    }
  }

  /** `seen` is the index of the stored value that a load of the peer's position returns. */
  datatype Action<T> = BeginPush(item: T) | BeginPop | Produce(seen: nat) | Consume(seen: nat)

  ghost predicate ProducerStep<T>(s: Queue<T>, seen: nat, s': Queue<T>)
    requires s.cap > 0 && |s.buffer| == s.cap && s.writePos != []
  {
    match s.producer
    case Resting => false
    case LoadWrite(x) =>
      var wp := s.writePos[|s.writePos| - 1];
      s' == s.(producer := CheckFull(x, wp, Cell(s.cap, wp + 1)))
    case CheckFull(x, wp, next) =>
      && s.seenRead <= seen < |s.readPos|
      && s' == s.(producer := if next == s.readPos[seen] then Resting else WriteCell(x, wp, next), seenRead := seen)
    case WriteCell(x, wp, next) =>
      wp < s.cap && s' == s.(producer := StoreWrite(x, next), buffer := s.buffer[wp := x])
    case StoreWrite(x, next) =>
      s' == s.(producer := Resting, writePos := s.writePos + [next], pushed := s.pushed + [x])
  }

  ghost predicate ConsumerStep<T>(s: Queue<T>, seen: nat, s': Queue<T>)
    requires s.cap > 0 && |s.buffer| == s.cap && s.readPos != []
  {
    match s.consumer
    case Waiting => false
    case LoadRead => s' == s.(consumer := CheckEmpty(s.readPos[|s.readPos| - 1]))
    case CheckEmpty(rp) =>
      && s.seenWrite <= seen < |s.writePos|
      && s' == s.(consumer := if rp == s.writePos[seen] then Waiting else ReadCell(rp), seenWrite := seen)
    case ReadCell(rp) =>
      rp < s.cap && s' == s.(consumer := StoreRead(rp, s.buffer[rp]))
    case StoreRead(rp, v) =>
      s' == s.(consumer := Waiting, readPos := s.readPos + [Cell(s.cap, rp + 1)], popped := s.popped + [v])
  }

  ghost predicate Step<T>(s: Queue<T>, a: Action<T>, s': Queue<T>) {
    && s.cap > 0 && |s.buffer| == s.cap && s.writePos != [] && s.readPos != []
    && match a
       case BeginPush(x) => s.producer.Resting? && s' == s.(producer := LoadWrite(x))
       case BeginPop => s.consumer.Waiting? && s' == s.(consumer := LoadRead)
       case Produce(seen) => ProducerStep(s, seen, s')
       case Consume(seen) => ConsumerStep(s, seen, s')
  }

  ghost predicate Init<T>(s: Queue<T>) {
    && s.cap > 1 && |s.buffer| == s.cap && s.writePos == s.readPos == [0] && s.pushed == s.popped == []
    && s.producer.Resting? && s.consumer.Waiting? && s.seenRead == s.seenWrite == 0
  }

  // ----- the invariant

  ghost predicate Positions(cap: nat, stored: seq<nat>, n: nat)
    requires cap > 0
  {
    |stored| == n + 1 && forall k {:trigger stored[k]} :: 0 <= k <= n ==> stored[k] == Cell(cap, k)
  }

  ghost predicate Shape<T>(s: Queue<T>) {
    && s.cap > 1 && |s.buffer| == s.cap
    && Positions(s.cap, s.writePos, |s.pushed|) && Positions(s.cap, s.readPos, |s.popped|)
    && s.seenRead <= |s.popped| <= s.seenWrite <= |s.pushed| < s.seenRead + s.cap
  }

  ghost predicate InCell<T>(s: Queue<T>, k: nat)
    requires Shape(s) && k < |s.pushed|
  {
    s.buffer[Cell(s.cap, k)] == s.pushed[k]
  }

  ghost predicate Data<T>(s: Queue<T>)
    requires Shape(s)
  {
    && s.popped == s.pushed[..|s.popped|]
    && forall k {:trigger InCell(s, k)} :: |s.popped| <= k < |s.pushed| ==> InCell(s, k)
  }

  ghost predicate ProducerOk<T>(s: Queue<T>)
    requires Shape(s)
  {
    var n := |s.pushed|;
    match s.producer
    case CheckFull(x, wp, next) => wp == Cell(s.cap, n) && next == Cell(s.cap, n + 1)
    case WriteCell(x, wp, next) => wp == Cell(s.cap, n) && next == Cell(s.cap, n + 1) && n + 1 < s.seenRead + s.cap
    case StoreWrite(x, next) =>
      next == Cell(s.cap, n + 1) && n + 1 < s.seenRead + s.cap && s.buffer[Cell(s.cap, n)] == x
    case _ => true
  }

  ghost predicate ConsumerOk<T>(s: Queue<T>)
    requires Shape(s)
  {
    var n := |s.popped|;
    match s.consumer
    case CheckEmpty(rp) => rp == Cell(s.cap, n)
    case ReadCell(rp) => rp == Cell(s.cap, n) && n < s.seenWrite
    case StoreRead(rp, v) => rp == Cell(s.cap, n) && n < s.seenWrite && v == s.pushed[n]
    case _ => true
  }

  ghost predicate Inv<T>(s: Queue<T>) {
    Shape(s) && Data(s) && ProducerOk(s) && ConsumerOk(s)
  }

  /** The full test is exact for the read position it looked at. */
  lemma FullTest(cap: nat, seen: nat, n: nat)
    requires cap > 1 && seen <= n < seen + cap
    ensures Cell(cap, n + 1) == Cell(cap, seen) <==> n + 1 == seen + cap
  {
    CellFinds(cap, seen, seen, n + 1);
  }

  /** The empty test is exact for the write position it looked at. */
  lemma EmptyTest(cap: nat, n: nat, seen: nat)
    requires cap > 1 && n <= seen < n + cap
    ensures Cell(cap, n) == Cell(cap, seen) <==> n == seen
  {
    CellFinds(cap, n, n, seen);
  }

  /** Items untouched by a write to the cell after the last of them. */
  lemma WriteCellOk<T>(s: Queue<T>, s': Queue<T>)
    requires Inv(s) && s.producer.WriteCell? && ProducerStep(s, 0, s')
    ensures Inv(s')
  {
    forall k | |s'.popped| <= k < |s'.pushed|
      ensures InCell(s', k)
    {
      assert InCell(s, k);
      Apart(s.cap, |s.popped|, k, |s.pushed|);
    }
  }

  lemma StoreWriteOk<T>(s: Queue<T>, s': Queue<T>)
    requires Inv(s) && s.producer.StoreWrite? && ProducerStep(s, 0, s')
    ensures Inv(s')
  {
    forall k | |s'.popped| <= k < |s'.pushed|
      ensures InCell(s', k)
    {
      assert k < |s.pushed| ==> InCell(s, k);
    }
  }

  lemma ReadCellOk<T>(s: Queue<T>, s': Queue<T>)
    requires Inv(s) && s.consumer.ReadCell? && ConsumerStep(s, 0, s')
    ensures Inv(s')
  {
    assert InCell(s, |s.popped|);
    KeepsData(s, s');
  }

  lemma StoreReadOk<T>(s: Queue<T>, s': Queue<T>)
    requires Inv(s) && s.consumer.StoreRead? && ConsumerStep(s, 0, s')
    ensures Inv(s')
  {
    CellNext(s.cap, |s.popped|);
    assert s'.popped == s.pushed[..|s.popped|] + [s.pushed[|s.popped|]];
    KeepsData(s, s');
  }

  lemma KeepsData<T>(s: Queue<T>, s': Queue<T>)
    requires Shape(s) && Data(s) && Shape(s') && s'.popped == s'.pushed[..|s'.popped|]
    requires s.cap == s'.cap && s.buffer == s'.buffer && s.pushed == s'.pushed && |s.popped| <= |s'.popped|
    ensures Data(s')
  {
    forall k | |s'.popped| <= k < |s'.pushed|
      ensures InCell(s', k)
    {
      assert InCell(s, k);
    }
  }

  lemma ProducerStepOk<T>(s: Queue<T>, seen: nat, s': Queue<T>)
    requires Inv(s) && ProducerStep(s, seen, s')
    ensures Inv(s')
  {
    if s.producer.WriteCell? {
      WriteCellOk(s, s');
    } else if s.producer.StoreWrite? {
      StoreWriteOk(s, s');
    } else {
      CellNext(s.cap, |s.pushed|);
      if s.producer.CheckFull? {
        FullTest(s.cap, seen, |s.pushed|);
      }
      KeepsData(s, s');
    }
  }

  lemma ConsumerStepOk<T>(s: Queue<T>, seen: nat, s': Queue<T>)
    requires Inv(s) && ConsumerStep(s, seen, s')
    ensures Inv(s')
  {
    if s.consumer.ReadCell? {
      ReadCellOk(s, s');
    } else if s.consumer.StoreRead? {
      StoreReadOk(s, s');
    } else {
      if s.consumer.CheckEmpty? {
        EmptyTest(s.cap, |s.popped|, seen);
      }
      KeepsData(s, s');
    }
  }

  /** Every access of either thread keeps the invariant, whatever stored position it sees. */
  lemma StepOk<T>(s: Queue<T>, a: Action<T>, s': Queue<T>)
    requires Inv(s) && Step(s, a, s')
    ensures Inv(s')
  {
    match a
    case Produce(seen) => ProducerStepOk(s, seen, s');
    case Consume(seen) => ConsumerStepOk(s, seen, s');
    case _ => KeepsData(s, s');
  }

  // ----- every run

  ghost predicate Linked<T>(run: seq<Queue<T>>, acts: seq<Action<T>>, i: nat)
    requires i + 1 < |run| && i < |acts|
  {
    Step(run[i], acts[i], run[i + 1])
  }

  ghost predicate Execution<T>(run: seq<Queue<T>>, acts: seq<Action<T>>) {
    && |run| == |acts| + 1 && Init(run[0])
    && forall i {:trigger Linked(run, acts, i)} :: 0 <= i < |acts| ==> Linked(run, acts, i)
  }

  lemma {:induction false} ExecutionOk<T>(run: seq<Queue<T>>, acts: seq<Action<T>>, n: nat)
    requires Execution(run, acts) && n < |run|
    ensures Inv(run[n])
    decreases n
  {
    if n > 0 {
      ExecutionOk(run, acts, n - 1);
      assert Linked(run, acts, n - 1);
      StepOk(run[n - 1], acts[n - 1], run[n]);
    }
  }

  /**
   At every moment of every run, however stale the positions seen: what was popped is a prefix of what was pushed,
   at most one less than the capacity is in the ring, and payload accesses never meet in one cell.
   */
  lemma Safety<T>(run: seq<Queue<T>>, acts: seq<Action<T>>, n: nat)
    requires Execution(run, acts) && n < |run|
    ensures run[n].popped <= run[n].pushed
    ensures |run[n].Contents()| <= run[n].cap - 1
    ensures run[n].producer.WriteCell? && run[n].consumer.ReadCell? ==> run[n].producer.wp != run[n].consumer.rp
  {
    ExecutionOk(run, acts, n);
    var s := run[n];
    if s.producer.WriteCell? && s.consumer.ReadCell? {
      Apart(s.cap, |s.popped|, |s.popped|, |s.pushed|);
    }
  }

  // ----- the ring against an atomic bounded queue

  /** What a step means to the caller of `try_push` or `try_pop`. */
  datatype Effect<T> = Accepted(item: T) | Full | Taken(item: T) | Empty | Internal

  function EffectOf<T>(s: Queue<T>, a: Action<T>, s': Queue<T>): Effect<T> {
    if a.Produce? && s.producer.StoreWrite? then Accepted(s.producer.item)
    else if a.Produce? && s.producer.CheckFull? && s'.producer.Resting? then Full
    else if a.Consume? && s.consumer.StoreRead? then Taken(s.consumer.value)
    else if a.Consume? && s.consumer.CheckEmpty? && s'.consumer.Waiting? then Empty
    else Internal
  }

  /** One atomic operation on a FIFO that holds at most `room` items. */
  ghost predicate Atomic<T>(room: nat, q: seq<T>, e: Effect<T>, q': seq<T>) {
    match e
    case Accepted(x) => |q| < room && q' == q + [x]
    case Full => |q| == room && q' == q
    case Taken(x) => q != [] && q' == q[1..] && x == q[0]
    case Empty => q == [] && q' == q
    case Internal => q' == q
  }

  /** The load that this step performs, if it is one of the peer's position, returns the current value. */
  ghost predicate Fresh<T>(s: Queue<T>, a: Action<T>) {
    && (a.Produce? && s.producer.CheckFull? ==> a.seen == |s.popped|)
    && (a.Consume? && s.consumer.CheckEmpty? ==> a.seen == |s.pushed|)
  }

  /** The step is a call's refusal. */
  predicate Refuses<T>(e: Effect<T>) {
    e.Full? || e.Empty?
  }

  /** What a step does to the histories and to the contents. */
  ghost predicate TakesEffect<T>(s: Queue<T>, a: Action<T>, e: Effect<T>, s': Queue<T>)
    requires |s.popped| <= |s.pushed| && |s'.popped| <= |s'.pushed| && s.cap > 0
  {
    && s'.cap == s.cap
    && s'.pushed == (if e.Accepted? then s.pushed + [e.item] else s.pushed)
    && s'.popped == (if e.Taken? then s.popped + [e.item] else s.popped)
    && (Refuses(e) ==> s'.Contents() == s.Contents())
    && (Fresh(s, a) || !Refuses(e) ==> Atomic(s.cap - 1, s.Contents(), e, s'.Contents()))
  }

  lemma ProducerEffect<T>(s: Queue<T>, seen: nat, s': Queue<T>)
    requires Inv(s) && Step(s, Produce(seen), s') && Inv(s')
    ensures TakesEffect(s, Produce(seen), EffectOf(s, Produce(seen), s'), s')
  {
    if s.producer.CheckFull? {
      FullTest(s.cap, seen, |s.pushed|);
    } else if s.producer.StoreWrite? {
      assert s'.Contents() == s.Contents() + [s.producer.item];
    }
  }

  lemma ConsumerEffect<T>(s: Queue<T>, seen: nat, s': Queue<T>)
    requires Inv(s) && Step(s, Consume(seen), s') && Inv(s')
    ensures TakesEffect(s, Consume(seen), EffectOf(s, Consume(seen), s'), s')
  {
    if s.consumer.CheckEmpty? {
      EmptyTest(s.cap, |s.popped|, seen);
    } else if s.consumer.StoreRead? {
      assert s'.Contents() == s.Contents()[1..];
    }
  }

  /**
   A push takes effect atomically at its store of the write position, a pop at its store of the read position. A
   refusal changes nothing, whatever it saw, and is the refusal of an atomic queue when its load is fresh.
   */
  lemma StepIsAtomic<T>(s: Queue<T>, a: Action<T>, s': Queue<T>)
    requires Inv(s) && Step(s, a, s')
    ensures |s'.popped| <= |s'.pushed| && TakesEffect(s, a, EffectOf(s, a, s'), s')
  {
    StepOk(s, a, s');
    match a
    case Produce(seen) => ProducerEffect(s, seen, s');
    case Consume(seen) => ConsumerEffect(s, seen, s');
    case _ =>
  }

  /**
   A push is refused if and only if what the ring holds, with what was taken out since the position it saw, fills it;
   a pop if and only if all the ring holds came in since the position it saw. Passing either test is never wrong.
   */
  lemma RefusalExact<T>(s: Queue<T>, a: Action<T>, s': Queue<T>)
    requires Inv(s) && Step(s, a, s')
    ensures a.Produce? && s.producer.CheckFull? ==>
              && a.seen <= |s.popped|
              && (EffectOf(s, a, s').Full? <==> |s.Contents()| + (|s.popped| - a.seen) == s.cap - 1)
              && (!EffectOf(s, a, s').Full? ==> |s.Contents()| < s.cap - 1)
    ensures a.Consume? && s.consumer.CheckEmpty? ==>
              && a.seen <= |s.pushed|
              && (EffectOf(s, a, s').Empty? <==> |s.Contents()| == |s.pushed| - a.seen)
              && (!EffectOf(s, a, s').Empty? ==> s.Contents() != [])
  {
    if a.Produce? && s.producer.CheckFull? {
      FullTest(s.cap, a.seen, |s.pushed|);
    } else if a.Consume? && s.consumer.CheckEmpty? {
      EmptyTest(s.cap, |s.popped|, a.seen);
    }
  }

  /** With room for one more item, a push that sees a read position one behind is refused. */
  lemma RefusedWithRoom()
    ensures var s := Queue(4, [1, 2, 3, 0], [0, 1, 2, 3], [0, 1], CheckFull(4, 3, 0), Waiting, 0, 1, [1, 2, 3], [1]);
            var s' := s.(producer := Resting);
            Inv(s) && Step(s, Produce(0), s') && EffectOf(s, Produce(0), s').Full? && |s.Contents()| < s.cap - 1
  {
    var s := Queue(4, [1, 2, 3, 0], [0, 1, 2, 3], [0, 1], CheckFull(4, 3, 0), Waiting, 0, 1, [1, 2, 3], [1]);
    assert Cell(4, 4) == 0;
    assert Positions(s.cap, s.writePos, |s.pushed|) && Positions(s.cap, s.readPos, |s.popped|);
  }
}
