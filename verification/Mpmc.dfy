/**
 The bounded multi-producer multi-consumer queue as a transition system: any number of threads, each between two
 atomic accesses. Ticket k is the k-th claimed position; it lives in cell k modulo the capacity.
 */
module MpmcQueue {
  import opened Ring

  /** Where a thread is; the name says which access comes next. */
  datatype Pc<T> =
    | Idle
    | PushLoad(item: T)
    | PushSeq(item: T, pos: nat)
    | PushCas(item: T, pos: nat)
    | PushWrite(item: T, pos: nat)
    | PushPublish(item: T, pos: nat)
    | PopLoad
    | PopSeq(pos: nat)
    | PopCas(pos: nat)
    | PopRead(pos: nat)
    | PopRelease(pos: nat, value: T)
  {
    predicate Writer() {
      PushWrite? || PushPublish?
    }

    predicate Reader() {
      PopRead? || PopRelease?
    }
  }

  /**
   The last three fields only record history: `pushed[k]` is the item claimed under ticket k, `published` the
   tickets whose item was announced, and `popped[k]` the value a consumer took out and returned for ticket k.
   */
  datatype Queue<T> = Queue(cap: nat, enq: nat, deq: nat, seqs: seq<nat>, data: seq<T>, threads: seq<Pc<T>>,
                            pushed: seq<T>, published: set<nat>, popped: map<nat, T>)
  {
    /** A ring of `cap` cells. */
    predicate Sized() {
      cap > 0 && |seqs| == |data| == cap
    }

    function Goto(t: nat, pc: Pc<T>): Queue<T>
      requires t < |threads|
    {
      this.(threads := threads[t := pc])
    }
  }

  // ----- the steps

  /** A producer's compare-and-swap succeeds: the next ticket is its own. */
  ghost function ClaimPush<T>(s: Queue<T>, t: nat): Queue<T>
    requires t < |s.threads| && s.threads[t].PushCas?
  {
    var pc := s.threads[t];
    s.Goto(t, PushWrite(pc.item, pc.pos)).(enq := pc.pos + 1, pushed := s.pushed + [pc.item])
  }

  /** A producer writes its item into the cell of its ticket. */
  ghost function WriteData<T>(s: Queue<T>, t: nat): Queue<T>
    requires s.Sized() && t < |s.threads| && s.threads[t].PushWrite?
  {
    var pc := s.threads[t];
    s.Goto(t, PushPublish(pc.item, pc.pos)).(data := s.data[Cell(s.cap, pc.pos) := pc.item])
  }

  /** A producer announces its ticket. */
  ghost function Publish<T>(s: Queue<T>, t: nat): Queue<T>
    requires s.Sized() && t < |s.threads| && s.threads[t].PushPublish?
  {
    var pos := s.threads[t].pos;
    s.Goto(t, Idle).(seqs := s.seqs[Cell(s.cap, pos) := pos + 1], published := s.published + {pos})
  }

  /** A consumer's compare-and-swap succeeds. */
  ghost function ClaimPop<T>(s: Queue<T>, t: nat): Queue<T>
    requires t < |s.threads| && s.threads[t].PopCas?
  {
    s.Goto(t, PopRead(s.threads[t].pos)).(deq := s.threads[t].pos + 1)
  }

  /** A consumer hands the cell of its ticket to the ticket one round on. */
  ghost function Release<T>(s: Queue<T>, t: nat): Queue<T>
    requires s.Sized() && t < |s.threads| && s.threads[t].PopRelease?
  {
    var pc := s.threads[t];
    s.Goto(t, Idle).(seqs := s.seqs[Cell(s.cap, pc.pos) := pc.pos + s.cap], popped := s.popped[pc.pos := pc.value])
  }

  /** `Begin...` starts a call of an idle thread; `Go` performs the next access, a compare-and-swap possibly failing. */
  datatype Action<T> = BeginPush(item: T) | BeginPop | Go(casFails: bool)

  ghost predicate PushStep<T>(s: Queue<T>, t: nat, fails: bool, s': Queue<T>)
    requires s.Sized() && t < |s.threads|
  {
    match s.threads[t]
    case PushLoad(x) => s' == s.Goto(t, PushSeq(x, s.enq))
    case PushSeq(x, pos) =>
      var seen := s.seqs[Cell(s.cap, pos)];
      s' == s.Goto(t, if seen == pos then PushCas(x, pos) else if seen < pos then Idle else PushLoad(x))
    case PushCas(x, pos) =>
      if fails || s.enq != pos then s' == s.Goto(t, PushSeq(x, s.enq))
      else s' == ClaimPush(s, t)
    case PushWrite(x, pos) => s' == WriteData(s, t)
    case PushPublish(x, pos) => s' == Publish(s, t)
    case _ => false
  }

  ghost predicate PopStep<T>(s: Queue<T>, t: nat, fails: bool, s': Queue<T>)
    requires s.Sized() && t < |s.threads|
  {
    match s.threads[t]
    case PopLoad => s' == s.Goto(t, PopSeq(s.deq))
    case PopSeq(pos) =>
      var seen := s.seqs[Cell(s.cap, pos)];
      s' == s.Goto(t, if seen == pos + 1 then PopCas(pos) else if seen < pos + 1 then Idle else PopLoad)
    case PopCas(pos) =>
      if fails || s.deq != pos then s' == s.Goto(t, PopSeq(s.deq))
      else s' == ClaimPop(s, t)
    case PopRead(pos) => s' == s.Goto(t, PopRelease(pos, s.data[Cell(s.cap, pos)]))
    case PopRelease(pos, v) => s' == Release(s, t)
    case _ => false
  }

  ghost predicate Step<T>(s: Queue<T>, t: nat, a: Action<T>, s': Queue<T>)
    requires s.Sized()
  {
    && t < |s.threads|
    && match a
       case BeginPush(x) => s.threads[t].Idle? && s' == s.Goto(t, PushLoad(x))
       case BeginPop => s.threads[t].Idle? && s' == s.Goto(t, PopLoad)
       case Go(fails) => PushStep(s, t, fails, s') || PopStep(s, t, fails, s')
  }

  ghost predicate Init<T>(s: Queue<T>) {
    && s.cap > 1 && s.enq == s.deq == 0 && |s.seqs| == |s.data| == s.cap
    && (forall i :: 0 <= i < s.cap ==> s.seqs[i] == i)
    && (forall t :: 0 <= t < |s.threads| ==> s.threads[t].Idle?)
    && s.pushed == [] && s.published == {} && s.popped == map[]
  }

  // ----- the invariant

  ghost predicate Counters<T>(s: Queue<T>) {
    && s.cap > 1 && |s.seqs| == |s.data| == s.cap
    && s.deq <= s.enq <= s.deq + s.cap && |s.pushed| == s.enq
    && (forall k :: k in s.popped ==> k < s.deq && s.popped[k] == s.pushed[k])
    && (forall k :: k in s.published ==> k < s.enq)
  }

  /**
   Ticket k is the next one its cell will serve. Either the cell is free for it; or the ticket before it in the
   cell is claimed and not published; or that ticket is published and not released.
   */
  ghost predicate CellOk<T>(s: Queue<T>, k: nat)
    requires Counters(s) && s.enq <= k < s.enq + s.cap
  {
    var c := Cell(s.cap, k);
    || (s.seqs[c] == k && (k < s.cap || k - s.cap in s.popped))
    || (k >= s.cap && s.seqs[c] == k - s.cap >= s.deq && k - s.cap !in s.published)
    || (k >= s.cap && s.seqs[c] == k - s.cap + 1 && s.data[c] == s.pushed[k - s.cap]
        && k - s.cap in s.published && k - s.cap !in s.popped)
  }

  ghost predicate CellsOk<T>(s: Queue<T>)
    requires Counters(s)
  {
    forall k {:trigger CellOk(s, k)} :: s.enq <= k < s.enq + s.cap ==> CellOk(s, k)
  }

  /** Ticket pos is claimed by a producer that has not published it. */
  ghost predicate Owns<T>(s: Queue<T>, pos: nat)
    requires Counters(s)
  {
    s.deq <= pos < s.enq && s.seqs[Cell(s.cap, pos)] == pos
  }

  /** Ticket pos is claimed by a consumer that has not released it. */
  ghost predicate Holds<T>(s: Queue<T>, pos: nat)
    requires Counters(s)
  {
    && pos < s.deq && s.enq <= pos + s.cap && s.seqs[Cell(s.cap, pos)] == pos + 1
    && pos !in s.popped && s.data[Cell(s.cap, pos)] == s.pushed[pos]
  }

  /** What a thread knows at each point. */
  ghost predicate ThreadOk<T>(s: Queue<T>, pc: Pc<T>)
    requires Counters(s)
  {
    match pc
    case PushSeq(x, pos) => pos <= s.enq
    case PushCas(x, pos) => pos <= s.enq && (pos < s.enq || s.seqs[Cell(s.cap, pos)] == pos)
    case PushWrite(x, pos) => Owns(s, pos) && s.pushed[pos] == x
    case PushPublish(x, pos) => Owns(s, pos) && s.pushed[pos] == x && s.data[Cell(s.cap, pos)] == x
    case PopSeq(pos) => pos <= s.deq
    case PopCas(pos) => pos <= s.deq && (pos < s.deq || s.seqs[Cell(s.cap, pos)] == pos + 1)
    case PopRead(pos) => Holds(s, pos)
    case PopRelease(pos, v) => Holds(s, pos) && v == s.pushed[pos]
    case _ => true
  }

  /** No two producers own one ticket and no two consumers hold one. */
  ghost predicate Exclusive<T>(a: Pc<T>, b: Pc<T>) {
    && (a.Writer() && b.Writer() ==> a.pos != b.pos)
    && (a.Reader() && b.Reader() ==> a.pos != b.pos)
  }

  ghost predicate ThreadsOk<T>(s: Queue<T>)
    requires Counters(s)
  {
    && (forall t {:trigger s.threads[t]} :: 0 <= t < |s.threads| ==> ThreadOk(s, s.threads[t]))
    && (forall t, u {:trigger s.threads[t], s.threads[u]} ::
          0 <= t < u < |s.threads| ==> Exclusive(s.threads[t], s.threads[u]))
  }

  /** Some producer owns ticket k. */
  ghost predicate HasWriter<T>(threads: seq<Pc<T>>, k: nat) {
    exists t {:trigger threads[t]} :: 0 <= t < |threads| && threads[t].Writer() && threads[t].pos == k
  }

  /** Some consumer holds ticket k. */
  ghost predicate HasReader<T>(threads: seq<Pc<T>>, k: nat) {
    exists t {:trigger threads[t]} :: 0 <= t < |threads| && threads[t].Reader() && threads[t].pos == k
  }

  /** No ticket is lost: a claimed ticket is in its producer's hands or published, then in its consumer's or popped. */
  ghost predicate Traced<T>(s: Queue<T>, k: nat) {
    && (k in s.published || HasWriter(s.threads, k))
    && (k < s.deq ==> k in s.published && (k in s.popped || HasReader(s.threads, k)))
  }

  ghost predicate Lossless<T>(s: Queue<T>) {
    forall k {:trigger Traced(s, k)} :: 0 <= k < s.enq ==> Traced(s, k)
  }

  ghost predicate Inv<T>(s: Queue<T>) {
    Counters(s) && CellsOk(s) && ThreadsOk(s) && Lossless(s)
  }

  lemma InitOk<T>(s: Queue<T>)
    requires Init(s)
    ensures Inv(s)
  {
    forall k | s.enq <= k < s.enq + s.cap
      ensures CellOk(s, k)
    {
      assert Cell(s.cap, k) == k;
    }
  }

  // ----- one thread moves

  /** Thread t moves to `pc`: ticket k still has its producer or consumer, unless t was it and gives it up. */
  lemma KeepsWorkers<T>(threads: seq<Pc<T>>, t: nat, pc: Pc<T>, k: nat)
    requires t < |threads|
    ensures HasWriter(threads, k) && (threads[t].Writer() && threads[t].pos == k ==> pc.Writer() && pc.pos == k)
            ==> HasWriter(threads[t := pc], k)
    ensures HasReader(threads, k) && (threads[t].Reader() && threads[t].pos == k ==> pc.Reader() && pc.pos == k)
            ==> HasReader(threads[t := pc], k)
    ensures pc.Writer() && pc.pos == k ==> HasWriter(threads[t := pc], k)
    ensures pc.Reader() && pc.pos == k ==> HasReader(threads[t := pc], k)
  {
    var after := threads[t := pc];
    assert after[t] == pc;
    if HasWriter(threads, k) {
      var u :| 0 <= u < |threads| && threads[u].Writer() && threads[u].pos == k;
      assert u != t ==> after[u] == threads[u];
    }
    if HasReader(threads, k) {
      var u :| 0 <= u < |threads| && threads[u].Reader() && threads[u].pos == k;
      assert u != t ==> after[u] == threads[u];
    }
  }

  /** An access that reads: only the thread moves, and it neither claims nor gives up a ticket. */
  lemma LocalOk<T>(s: Queue<T>, t: nat, pc: Pc<T>)
    requires Inv(s) && t < |s.threads| && ThreadOk(s, pc)
    requires pc.Writer() == s.threads[t].Writer() && (pc.Writer() ==> s.threads[t].pos == pc.pos)
    requires pc.Reader() == s.threads[t].Reader() && (pc.Reader() ==> s.threads[t].pos == pc.pos)
    ensures Inv(s.Goto(t, pc))
  {
    var s' := s.Goto(t, pc);
    assert Counters(s');
    forall k | s'.enq <= k < s'.enq + s'.cap
      ensures CellOk(s', k)
    {
      assert CellOk(s, k);
    }
    forall u | 0 <= u < |s'.threads|
      ensures ThreadOk(s', s'.threads[u])
    {
      assert u == t || ThreadOk(s, s.threads[u]);
    }
    forall k | 0 <= k < s'.enq
      ensures Traced(s', k)
    {
      assert Traced(s, k);
      KeepsWorkers(s.threads, t, pc, k);
    }
  }

  // ----- the state of a cell, read off its next ticket

  /** The oldest unconsumed ticket, once its cell announces it, is claimed, published and not consumed. */
  lemma Announced<T>(s: Queue<T>)
    requires Counters(s) && CellsOk(s) && s.seqs[Cell(s.cap, s.deq)] == s.deq + 1
    ensures s.deq < s.enq && s.deq in s.published && s.data[Cell(s.cap, s.deq)] == s.pushed[s.deq]
  {
    assert CellOk(s, s.enq);
    if s.deq < s.enq {
      assert CellOk(s, s.deq + s.cap);
    }
  }

  /** A claimed, unreleased ticket is the one before the next ticket of its cell, and shares its cell with no other. */
  lemma LiveCell<T>(s: Queue<T>, pos: nat, k: nat)
    requires Counters(s) && pos < s.enq <= pos + s.cap && s.enq <= k < s.enq + s.cap
    ensures Cell(s.cap, pos) == Cell(s.cap, pos + s.cap)
    ensures k != pos + s.cap ==> Cell(s.cap, k) != Cell(s.cap, pos)
  {
    if k != pos + s.cap {
      Apart(s.cap, s.enq, k, pos + s.cap);
    }
  }

  /** Two claimed, unreleased tickets have different cells. */
  lemma LiveCells<T>(s: Queue<T>, a: nat, b: nat)
    requires Counters(s) && a < s.enq <= a + s.cap && b < s.enq <= b + s.cap && a != b
    ensures Cell(s.cap, a) != Cell(s.cap, b)
  {
    LiveCell(s, a, b + s.cap);
    assert Cell(s.cap, b + s.cap) == Cell(s.cap, b);
  }

  // ----- a producer claims a ticket

  /** The ticket about to be claimed does not use a held cell. */
  lemma SurvivesClaim<T>(s: Queue<T>, pc: Pc<T>)
    requires Counters(s) && s.seqs[Cell(s.cap, s.enq)] == s.enq && ThreadOk(s, pc)
    ensures pc.Reader() ==> s.enq < pc.pos + s.cap
  {
    if pc.Reader() {
      assert Cell(s.cap, pc.pos + s.cap) == Cell(s.cap, pc.pos);
    }
  }

  lemma ClaimPushCells<T>(s: Queue<T>, t: nat)
    requires Inv(s) && t < |s.threads| && s.threads[t].PushCas? && s.threads[t].pos == s.enq
    ensures Counters(ClaimPush(s, t)) && CellsOk(ClaimPush(s, t))
  {
    var s' := ClaimPush(s, t);
    assert ThreadOk(s, s.threads[t]) && CellOk(s, s.enq);
    assert Counters(s');
    forall k | s'.enq <= k < s'.enq + s'.cap
      ensures CellOk(s', k)
    {
      if k < s.enq + s.cap {
        assert CellOk(s, k);
      } else {
        assert Cell(s.cap, k) == Cell(s.cap, s.enq);
      }
    }
  }

  lemma ClaimPushOk<T>(s: Queue<T>, t: nat)
    requires Inv(s) && t < |s.threads| && s.threads[t].PushCas? && s.threads[t].pos == s.enq
    ensures Inv(ClaimPush(s, t))
  {
    var s' := ClaimPush(s, t);
    ClaimPushCells(s, t);
    assert ThreadOk(s, s.threads[t]);
    forall u | 0 <= u < |s'.threads|
      ensures ThreadOk(s', s'.threads[u])
    {
      if u != t {
        assert ThreadOk(s, s.threads[u]);
        SurvivesClaim(s, s.threads[u]);
      }
    }
    forall k | 0 <= k < s'.enq
      ensures Traced(s', k)
    {
      assert k < s.enq ==> Traced(s, k);
      KeepsWorkers(s.threads, t, s'.threads[t], k);
    }
  }

  // ----- a producer writes the payload

  lemma WriteDataCells<T>(s: Queue<T>, t: nat)
    requires Inv(s) && t < |s.threads| && s.threads[t].PushWrite?
    ensures Counters(WriteData(s, t)) && CellsOk(WriteData(s, t))
  {
    var s', p := WriteData(s, t), s.threads[t].pos;
    assert ThreadOk(s, s.threads[t]);
    assert Counters(s');
    forall k | s'.enq <= k < s'.enq + s'.cap
      ensures CellOk(s', k)
    {
      assert CellOk(s, k);
      LiveCell(s, p, k);
    }
  }

  lemma WriteDataOk<T>(s: Queue<T>, t: nat)
    requires Inv(s) && t < |s.threads| && s.threads[t].PushWrite?
    ensures Inv(WriteData(s, t))
  {
    var s', p := WriteData(s, t), s.threads[t].pos;
    WriteDataCells(s, t);
    assert ThreadOk(s, s.threads[t]);
    forall u | 0 <= u < |s'.threads|
      ensures ThreadOk(s', s'.threads[u])
    {
      assert ThreadOk(s, s.threads[u]);
      if u != t && (s.threads[u].Writer() || s.threads[u].Reader()) {
        LiveCells(s, p, s.threads[u].pos);
      }
    }
    forall k | 0 <= k < s'.enq
      ensures Traced(s', k)
    {
      assert Traced(s, k);
      KeepsWorkers(s.threads, t, s'.threads[t], k);
    }
  }

  // ----- a producer publishes its ticket

  lemma PublishCells<T>(s: Queue<T>, t: nat)
    requires Inv(s) && t < |s.threads| && s.threads[t].PushPublish?
    ensures Counters(Publish(s, t)) && CellsOk(Publish(s, t))
  {
    var s', p := Publish(s, t), s.threads[t].pos;
    assert ThreadOk(s, s.threads[t]);
    assert Counters(s');
    forall k | s'.enq <= k < s'.enq + s'.cap
      ensures CellOk(s', k)
    {
      assert CellOk(s, k);
      LiveCell(s, p, k);
    }
  }

  lemma PublishOk<T>(s: Queue<T>, t: nat)
    requires Inv(s) && t < |s.threads| && s.threads[t].PushPublish?
    ensures Inv(Publish(s, t))
  {
    var s', p := Publish(s, t), s.threads[t].pos;
    PublishCells(s, t);
    assert ThreadOk(s, s.threads[t]);
    forall u | 0 <= u < |s'.threads|
      ensures ThreadOk(s', s'.threads[u])
    {
      assert ThreadOk(s, s.threads[u]);
      if u != t {
        KeepsKnowledge(s, p, s.threads[u]);
      }
    }
    forall k | 0 <= k < s'.enq
      ensures Traced(s', k)
    {
      assert Traced(s, k);
      KeepsWorkers(s.threads, t, Idle, k);
    }
  }

  /** Where another thread relies on a sequence number, it is not the number of ticket p's cell. */
  lemma KeepsKnowledge<T>(s: Queue<T>, p: nat, pc: Pc<T>)
    requires Counters(s) && CellsOk(s) && (Owns(s, p) || Holds(s, p)) && ThreadOk(s, pc)
    requires pc.Writer() ==> !Owns(s, p) || pc.pos != p
    requires pc.Reader() ==> !Holds(s, p) || pc.pos != p
    ensures pc.Writer() || pc.Reader() ==> Cell(s.cap, pc.pos) != Cell(s.cap, p)
    ensures pc.PushCas? && pc.pos == s.enq ==> Cell(s.cap, pc.pos) != Cell(s.cap, p)
    ensures pc.PopCas? && pc.pos == s.deq ==> Cell(s.cap, pc.pos) != Cell(s.cap, p)
  {
    if pc.Writer() || pc.Reader() {
      LiveCells(s, p, pc.pos);
    } else if pc.PushCas? && pc.pos == s.enq {
      LiveCell(s, p, s.enq);
    } else if pc.PopCas? && pc.pos == s.deq {
      Announced(s);
      if p != s.deq {
        LiveCells(s, p, s.deq);
      }
    }
  }

  // ----- a consumer claims a ticket

  lemma ClaimPopCells<T>(s: Queue<T>, t: nat)
    requires Inv(s) && t < |s.threads| && s.threads[t].PopCas? && s.threads[t].pos == s.deq
    ensures Counters(ClaimPop(s, t)) && CellsOk(ClaimPop(s, t))
  {
    var s' := ClaimPop(s, t);
    assert ThreadOk(s, s.threads[t]);
    Announced(s);
    assert Counters(s');
    forall k | s'.enq <= k < s'.enq + s'.cap
      ensures CellOk(s', k)
    {
      assert CellOk(s, k);
      assert k == s.deq + s.cap ==> Cell(s.cap, k) == Cell(s.cap, s.deq);
    }
  }

  lemma ClaimPopOk<T>(s: Queue<T>, t: nat)
    requires Inv(s) && t < |s.threads| && s.threads[t].PopCas? && s.threads[t].pos == s.deq
    ensures Inv(ClaimPop(s, t))
  {
    var s' := ClaimPop(s, t);
    ClaimPopCells(s, t);
    assert ThreadOk(s, s.threads[t]);
    Announced(s);
    forall u | 0 <= u < |s'.threads|
      ensures ThreadOk(s', s'.threads[u])
    {
      assert ThreadOk(s, s.threads[u]);
    }
    forall k | 0 <= k < s'.enq
      ensures Traced(s', k)
    {
      assert Traced(s, k);
      KeepsWorkers(s.threads, t, s'.threads[t], k);
    }
  }

  // ----- a consumer releases its ticket

  lemma ReleaseCells<T>(s: Queue<T>, t: nat)
    requires Inv(s) && t < |s.threads| && s.threads[t].PopRelease?
    ensures Counters(Release(s, t)) && CellsOk(Release(s, t))
  {
    var s', p := Release(s, t), s.threads[t].pos;
    assert ThreadOk(s, s.threads[t]);
    assert Counters(s');
    forall k | s'.enq <= k < s'.enq + s'.cap
      ensures CellOk(s', k)
    {
      assert CellOk(s, k);
      LiveCell(s, p, k);
    }
  }

  lemma ReleaseOk<T>(s: Queue<T>, t: nat)
    requires Inv(s) && t < |s.threads| && s.threads[t].PopRelease?
    ensures Inv(Release(s, t))
  {
    var s', p := Release(s, t), s.threads[t].pos;
    ReleaseCells(s, t);
    assert ThreadOk(s, s.threads[t]);
    forall u | 0 <= u < |s'.threads|
      ensures ThreadOk(s', s'.threads[u])
    {
      assert ThreadOk(s, s.threads[u]);
      if u != t {
        KeepsKnowledge(s, p, s.threads[u]);
      }
    }
    forall k | 0 <= k < s'.enq
      ensures Traced(s', k)
    {
      assert Traced(s, k);
      KeepsWorkers(s.threads, t, Idle, k);
    }
  }

  // ----- every step, every run

  lemma PushStepOk<T>(s: Queue<T>, t: nat, fails: bool, s': Queue<T>)
    requires Inv(s) && t < |s.threads| && PushStep(s, t, fails, s')
    ensures Inv(s')
  {
    assert ThreadOk(s, s.threads[t]);
    match s.threads[t]
    case PushLoad(x) => LocalOk(s, t, PushSeq(x, s.enq));
    case PushSeq(x, pos) => LocalOk(s, t, s'.threads[t]);
    case PushCas(x, pos) =>
      if fails || s.enq != pos {
        LocalOk(s, t, PushSeq(x, s.enq));
      } else {
        ClaimPushOk(s, t);
      }
    case PushWrite(x, pos) => WriteDataOk(s, t);
    case PushPublish(x, pos) => PublishOk(s, t);
  }

  lemma PopStepOk<T>(s: Queue<T>, t: nat, fails: bool, s': Queue<T>)
    requires Inv(s) && t < |s.threads| && PopStep(s, t, fails, s')
    ensures Inv(s')
  {
    assert ThreadOk(s, s.threads[t]);
    match s.threads[t]
    case PopLoad => LocalOk(s, t, PopSeq(s.deq));
    case PopSeq(pos) => LocalOk(s, t, s'.threads[t]);
    case PopCas(pos) =>
      if fails || s.deq != pos {
        LocalOk(s, t, PopSeq(s.deq));
      } else {
        ClaimPopOk(s, t);
      }
    case PopRead(pos) => LocalOk(s, t, s'.threads[t]);
    case PopRelease(pos, v) => ReleaseOk(s, t);
  }

  /** Every access of every thread keeps the invariant. */
  lemma StepOk<T>(s: Queue<T>, t: nat, a: Action<T>, s': Queue<T>)
    requires Inv(s) && Step(s, t, a, s')
    ensures Inv(s')
  {
    match a
    case BeginPush(x) => LocalOk(s, t, PushLoad(x));
    case BeginPop => LocalOk(s, t, PopLoad);
    case Go(fails) =>
      if PushStep(s, t, fails, s') {
        PushStepOk(s, t, fails, s');
      } else {
        PopStepOk(s, t, fails, s');
      }
  }

  ghost predicate Next<T(!new)>(s: Queue<T>, s': Queue<T>) {
    && s.Sized()
    && exists t, a :: Step(s, t, a, s')
  }

  ghost predicate Linked<T(!new)>(run: seq<Queue<T>>, i: nat)
    requires 0 < i < |run|
  {
    Next(run[i - 1], run[i])
  }

  /** A run: any interleaving of any threads' accesses, from the constructed queue. */
  ghost predicate Execution<T(!new)>(run: seq<Queue<T>>) {
    && |run| > 0 && Init(run[0])
    && forall i {:trigger Linked(run, i)} :: 0 < i < |run| ==> Linked(run, i)
  }

  lemma {:induction false} ExecutionOk<T(!new)>(run: seq<Queue<T>>, n: nat)
    requires Execution(run) && n < |run|
    ensures Inv(run[n])
    decreases n
  {
    if n == 0 {
      InitOk(run[0]);
    } else {
      ExecutionOk(run, n - 1);
      assert Linked(run, n);
      var t, a :| Step(run[n - 1], t, a, run[n]);
      StepOk(run[n - 1], t, a, run[n]);
    }
  }

  // ----- what the queue promises

  /** The cell whose payload a thread is about to write or read. */
  ghost predicate Touches<T>(s: Queue<T>, t: nat, c: nat)
    requires s.cap > 0 && t < |s.threads|
  {
    var pc := s.threads[t];
    (pc.Writer() || pc.Reader()) && c == Cell(s.cap, pc.pos)
  }

  /** Between claim and publication, and between claim and release, a cell belongs to one thread. */
  lemma PayloadExclusive<T(!new)>(run: seq<Queue<T>>, n: nat, t: nat, u: nat, c: nat)
    requires Execution(run) && n < |run| && t < u < |run[n].threads|
    ensures run[n].cap > 0
    ensures !(Touches(run[n], t, c) && Touches(run[n], u, c))
  {
    ExecutionOk(run, n);
    var s := run[n];
    if Touches(s, t, c) && Touches(s, u, c) {
      var a, b := s.threads[t], s.threads[u];
      assert ThreadOk(s, a) && ThreadOk(s, b) && Exclusive(a, b);
      LiveCells(s, a.pos, b.pos);
    }
  }

  /**
   At every moment of every run: at most a capacity of claimed tickets is unconsumed; every value popped under
   a ticket is the item pushed under it; and each claimed ticket is somewhere on its way.
   */
  lemma FifoByTicket<T(!new)>(run: seq<Queue<T>>, n: nat, k: nat)
    requires Execution(run) && n < |run|
    ensures run[n].deq <= run[n].enq <= run[n].deq + run[n].cap && |run[n].pushed| == run[n].enq
    ensures k in run[n].popped ==> k < run[n].deq && run[n].popped[k] == run[n].pushed[k]
    ensures k < run[n].enq ==> Traced(run[n], k)
  {
    ExecutionOk(run, n);
  }

  /** With every thread between calls, the popped tickets are exactly the claimed ones and the rest wait published. */
  lemma QuiescentExact<T(!new)>(run: seq<Queue<T>>, n: nat, k: nat)
    requires Execution(run) && n < |run|
    requires forall t :: 0 <= t < |run[n].threads| ==> run[n].threads[t].Idle?
    ensures k in run[n].popped <==> k < run[n].deq
    ensures k in run[n].published <==> k < run[n].enq
  {
    FifoByTicket(run, n, k);
    ExecutionOk(run, n);
  }

  /** Nothing of the history of s is lost in s': claimed tickets keep their item, published and popped ones stay so. */
  ghost predicate Extends<T>(s: Queue<T>, s': Queue<T>) {
    && s.cap == s'.cap && s.enq <= s'.enq && s.deq <= s'.deq
    && s.pushed <= s'.pushed && s.published <= s'.published
    && (forall k :: k in s.popped ==> k in s'.popped && s'.popped[k] == s.popped[k])
  }

  lemma ExtendsOn<T>(s: Queue<T>, s1: Queue<T>, s2: Queue<T>)
    requires Extends(s, s1) && Extends(s1, s2)
    ensures Extends(s, s2)
  {
  }

  /** An access loses nothing of the history, and a pop that completes returns a ticket never returned before. */
  lemma StepExtends<T>(s: Queue<T>, t: nat, a: Action<T>, s': Queue<T>)
    requires Inv(s) && Step(s, t, a, s')
    ensures Extends(s, s')
    ensures s.threads[t].PopRelease? && a.Go? ==> s.threads[t].pos !in s.popped && s.threads[t].pos in s'.popped
    ensures |s'.threads| == |s.threads| && s'.threads == s.threads[t := s'.threads[t]]
  {
    var pc := s.threads[t];
    assert ThreadOk(s, pc);
  }

  lemma LinkExtends<T(!new)>(run: seq<Queue<T>>, n: nat)
    requires Execution(run) && 0 < n < |run|
    ensures Extends(run[n - 1], run[n])
  {
    ExecutionOk(run, n - 1);
    assert Linked(run, n);
    var t, a :| Step(run[n - 1], t, a, run[n]);
    StepExtends(run[n - 1], t, a, run[n]);
  }

  lemma {:induction false} HistoryGrows<T(!new)>(run: seq<Queue<T>>, m: nat, n: nat)
    requires Execution(run) && m <= n < |run|
    ensures Extends(run[m], run[n])
    decreases n - m
  {
    if m < n {
      HistoryGrows(run, m, n - 1);
      LinkExtends(run, n);
      ExtendsOn(run[m], run[n - 1], run[n]);
    }
  }

  /** The first ticket from the tail on that uses the cell of ticket pos. */
  ghost function NextUse(cap: nat, enq: nat, pos: nat): (k: nat)
    requires cap > 0 && pos < enq + cap
    ensures enq <= k < enq + cap && Cell(cap, k) == Cell(cap, pos) && (pos < enq ==> k >= pos + cap)
    ensures pos >= enq ==> k == pos
    decreases enq + cap - pos
  {
    if pos >= enq then pos else NextUse(cap, enq, pos + cap)
  }

  /** A cell's sequence number against a position that was once the tail or the head. */
  lemma SequenceBounds<T>(s: Queue<T>, pos: nat)
    requires Inv(s) && pos <= s.enq
    ensures pos < s.enq ==> s.seqs[Cell(s.cap, pos)] >= pos
    ensures pos < s.deq ==> s.seqs[Cell(s.cap, pos)] >= pos + 1
    ensures s.deq <= pos < s.enq ==> CellOk(s, pos + s.cap) && Cell(s.cap, pos + s.cap) == Cell(s.cap, pos)
    ensures pos == s.enq ==> CellOk(s, pos)
  {
    var k := NextUse(s.cap, s.enq, pos);
    assert CellOk(s, k);
    if s.deq <= pos < s.enq {
      assert CellOk(s, pos + s.cap);
    }
  }

  /**
   What a producer finds at its sequence load. It gives up exactly when its position is the tail and the ticket one
   round back is not released, and goes round again only when another producer has taken its position.
   */
  lemma PushVerdict<T>(s: Queue<T>, t: nat, fails: bool, s': Queue<T>)
    requires Inv(s) && Step(s, t, Go(fails), s') && s.threads[t].PushSeq?
    ensures s'.threads[t].Idle? <==>
              s.threads[t].pos == s.enq && s.enq >= s.cap && s.enq - s.cap !in s.popped
    ensures s'.threads[t].PushLoad? ==> s.threads[t].pos < s.enq
    ensures s.threads[t].pos == s.enq && !s'.threads[t].Idle? ==> s'.threads[t].PushCas?
  {
    assert ThreadOk(s, s.threads[t]);
    SequenceBounds(s, s.threads[t].pos);
  }

  /**
   What a consumer finds at its sequence load. It gives up exactly when its position is the head and the ticket
   there is not published, and goes round again only when another consumer has taken its position.
   */
  lemma PopVerdict<T>(s: Queue<T>, t: nat, fails: bool, s': Queue<T>)
    requires Inv(s) && Step(s, t, Go(fails), s') && s.threads[t].PopSeq?
    ensures s'.threads[t].Idle? <==> s.threads[t].pos == s.deq && s.deq !in s.published
    ensures s'.threads[t].PopLoad? ==> s.threads[t].pos < s.deq
    ensures s.threads[t].pos == s.deq && !s'.threads[t].Idle? ==> s'.threads[t].PopCas?
  {
    assert ThreadOk(s, s.threads[t]);
    SequenceBounds(s, s.threads[t].pos);
  }

  // ----- a retry means that somebody else advanced

  ghost predicate Seeks<T>(pc: Pc<T>, pop: bool, pos: nat) {
    if pop then (pc.PopSeq? || pc.PopCas?) && pc.pos == pos else (pc.PushSeq? || pc.PushCas?) && pc.pos == pos
  }

  ghost function Counter<T>(s: Queue<T>, pop: bool): nat {
    if pop then s.deq else s.enq
  }

  /** In the step from i, thread u claims ticket pos. */
  ghost predicate Claims<T>(run: seq<Queue<T>>, i: nat, u: nat, pop: bool, pos: nat) {
    && i + 1 < |run| && u < |run[i].threads| && |run[i + 1].threads| == |run[i].threads|
    && Seeks(run[i].threads[u], pop, pos) && Counter(run[i], pop) == pos && Counter(run[i + 1], pop) == pos + 1
    && (if pop then run[i + 1].threads[u] == PopRead(pos)
        else run[i + 1].threads[u].PushWrite? && run[i + 1].threads[u].pos == pos)
  }

  /** Thread t read its position at step m and has held on to it since. */
  ghost predicate ReadAt<T>(run: seq<Queue<T>>, m: nat, n: nat, t: nat, pop: bool, pos: nat) {
    && m < n < |run| && Counter(run[m], pop) == pos
    && forall i {:trigger run[i]} :: m < i <= n ==> t < |run[i].threads| && Seeks(run[i].threads[t], pop, pos)
  }

  /** One access, seen from the ticket counters: a position is fetched from its counter, and a claim takes the next. */
  lemma StepSeeks<T>(s: Queue<T>, u: nat, a: Action<T>, s': Queue<T>, t: nat, pop: bool, pos: nat)
    requires s.Sized() && Step(s, u, a, s') && t < |s.threads|
    ensures |s'.threads| == |s.threads| && (t == u || s'.threads[t] == s.threads[t])
    ensures Seeks(s'.threads[t], pop, pos) ==> Seeks(s.threads[t], pop, pos) || Counter(s, pop) == pos
    ensures Counter(s', pop) > Counter(s, pop) ==>
              && Counter(s', pop) == Counter(s, pop) + 1 && Seeks(s.threads[u], pop, Counter(s, pop))
              && (if pop then s'.threads[u] == PopRead(s.deq)
                  else s'.threads[u].PushWrite? && s'.threads[u].pos == s.enq)
  {
  }

  lemma {:induction false} LastRead<T(!new)>(run: seq<Queue<T>>, n: nat, t: nat, pop: bool, pos: nat) returns (m: nat)
    requires Execution(run) && n < |run| && t < |run[n].threads| && Seeks(run[n].threads[t], pop, pos)
    ensures ReadAt(run, m, n, t, pop, pos)
    decreases n
  {
    assert n > 0;
    assert Linked(run, n);
    ExecutionOk(run, n - 1);
    var u, a :| Step(run[n - 1], u, a, run[n]);
    StepSeeks(run[n - 1], u, a, run[n], t, pop, pos);
    if Seeks(run[n - 1].threads[t], pop, pos) {
      m := LastRead(run, n - 1, t, pop, pos);
    } else {
      m := n - 1;
    }
  }

  /** Between two moments, the counter passed pos in a step in which some thread claimed ticket pos. */
  lemma {:induction false} SomebodyClaims<T(!new)>(run: seq<Queue<T>>, m: nat, n: nat, pop: bool, pos: nat)
    returns (j: nat, u: nat)
    requires Execution(run) && m <= n < |run| && Counter(run[m], pop) <= pos < Counter(run[n], pop)
    ensures m <= j < n && Claims(run, j, u, pop, pos)
    decreases n
  {
    assert Linked(run, n);
    ExecutionOk(run, n - 1);
    if pos < Counter(run[n - 1], pop) {
      j, u := SomebodyClaims(run, m, n - 1, pop, pos);
    } else {
      var v, a :| Step(run[n - 1], v, a, run[n]);
      StepSeeks(run[n - 1], v, a, run[n], v, pop, pos);
      j, u := n - 1, v;
    }
  }

  /**
   A thread whose position is no longer the counter, so that its compare-and-swap must fail or its cell has moved
   on, was overtaken: since it last read the counter, another thread claimed that very ticket.
   */
  lemma RetryMeansProgress<T(!new)>(run: seq<Queue<T>>, n: nat, t: nat, pop: bool, pos: nat)
    requires Execution(run) && n < |run| && t < |run[n].threads| && Seeks(run[n].threads[t], pop, pos)
    requires Counter(run[n], pop) != pos
    ensures exists m: nat, j: nat, u: nat ::
              ReadAt(run, m, n, t, pop, pos) && m <= j < n && u != t && Claims(run, j, u, pop, pos)
  {
    ExecutionOk(run, n);
    assert ThreadOk(run[n], run[n].threads[t]);
    var m := LastRead(run, n, t, pop, pos);
    var j, u := SomebodyClaims(run, m, n, pop, pos);
    assert Seeks(run[j + 1].threads[t], pop, pos);
  }

  /** Each ticket is claimed once: two claiming steps of one run for one ticket are the same step of the same thread. */
  lemma ClaimedOnce<T(!new)>(run: seq<Queue<T>>, i: nat, t: nat, j: nat, u: nat, pop: bool, pos: nat)
    requires Execution(run) && Claims(run, i, t, pop, pos) && Claims(run, j, u, pop, pos)
    ensures i == j && t == u
  {
    if i < j {
      HistoryGrows(run, i + 1, j);
    } else if j < i {
      HistoryGrows(run, j + 1, i);
    } else {
      OneClaims(run, i, t, u, pop, pos);
    }
  }

  /** A step is of one thread, so only one thread can claim in it. */
  lemma OneClaims<T(!new)>(run: seq<Queue<T>>, i: nat, t: nat, u: nat, pop: bool, pos: nat)
    requires Execution(run) && Claims(run, i, t, pop, pos) && Claims(run, i, u, pop, pos)
    ensures t == u
  {
    assert Linked(run, i + 1);
    var v, a :| Step(run[i], v, a, run[i + 1]);
    StepSeeks(run[i], v, a, run[i + 1], t, pop, pos);
    StepSeeks(run[i], v, a, run[i + 1], u, pop, pos);
  }

  /** Tickets are claimed in order, by producers and by consumers alike: first in, first out by claim. */
  lemma ClaimsInOrder<T(!new)>(run: seq<Queue<T>>, i: nat, t: nat, a: nat, j: nat, u: nat, b: nat, pop: bool)
    requires Execution(run) && Claims(run, i, t, pop, a) && Claims(run, j, u, pop, b)
    ensures i < j <==> a < b
  {
    if i < j {
      HistoryGrows(run, i + 1, j);
    } else if j < i {
      HistoryGrows(run, j + 1, i);
    }
  }

  /** A consumer claims a ticket only after its producer claimed and published it. */
  lemma PublishedBeforeClaim<T(!new)>(run: seq<Queue<T>>, i: nat, t: nat, pos: nat)
    requires Execution(run) && Claims(run, i, t, true, pos)
    ensures pos < run[i].enq && pos in run[i].published && pos !in run[i].popped
  {
    ExecutionOk(run, i);
    assert ThreadOk(run[i], run[i].threads[t]);
    assert Linked(run, i + 1);
    var v, a :| Step(run[i], v, a, run[i + 1]);
    StepSeeks(run[i], v, a, run[i + 1], t, true, pos);
    Announced(run[i]);
  }
}
