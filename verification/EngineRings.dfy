/**
 The engine over its two rings, access by access: every load, payload access and store of the submitting, the engine
 and the polling thread is a step of its own, and loads of a peer's position may be stale. Every run of this system is
 a run of the pipeline, whose queue operations are atomic.
 */
module EngineRings {
  import opened Types
  import opened EnginePipeline
  import Spsc = SpscQueue

  /** `inq` and `outq` are the inbound and the outbound ring; the rest is the engine thread's, and history. */
  datatype System = System(caps: Caps, inq: Spsc.Queue<Msg>, outq: Spsc.Queue<Routed>, running: bool, pc: Pc,
                           core: Core, generated: seq<Routed>, kept: seq<bool>)

  /**
   `Begin...` starts a call; a `Go` performs the next access, which sees the given stored position if it is a load.
   */
  datatype Act =
    | BeginSubmit(msg: Msg)
    | GoSubmit(seen: nat)
    | BeginPoll
    | GoPoll(seen: nat)
    | StopEngine
    | GoEngine(seen: nat)

  // ----- the engine thread

  /** What its next access does to a ring. */
  function PopAct(q: Spsc.Queue<Msg>, seen: nat): Spsc.Action<Msg> {
    if q.consumer.Waiting? then Spsc.BeginPop else Spsc.Consume(seen)
  }

  function PushAct(q: Spsc.Queue<Routed>, r: Routed, seen: nat): Spsc.Action<Routed> {
    if q.producer.Resting? then Spsc.BeginPush(r) else Spsc.Produce(seen)
  }

  /** The engine thread after an access of a poll. */
  function AfterPop(c: System, q: Spsc.Queue<Msg>, e: Spsc.Effect<Msg>): System {
    var c1 := c.(inq := q);
    match e
    case Taken(m) =>
      c1.(core := Process(c.caps, c.core, m), pc := Emit(ReportsFor(c.caps, c.core, m), c.pc.Drain?))
    case Empty => c1.(pc := if c.pc.Drain? then Exited else Check)
    case _ => c1
  }

  /** The engine thread after an access of a push of its first pending report. */
  function AfterPush(c: System, q: Spsc.Queue<Routed>, e: Spsc.Effect<Routed>): System
    requires c.pc.Emit? && c.pc.pending != []
  {
    var c1 := c.(outq := q);
    if e.Accepted? || e.Full? then
      c1.(pc := Emit(c.pc.pending[1..], c.pc.draining), generated := c.generated + [c.pc.pending[0]],
          kept := c.kept + [e.Accepted?])
    else c1
  }

  ghost predicate EngineAccess(c: System, seen: nat, c': System) {
    match c.pc
    case Check => c' == c.(pc := if c.running then Poll else Drain)
    case Poll => PopAccess(c, seen, c')
    case Drain => PopAccess(c, seen, c')
    case Emit(pending, draining) =>
      if pending == [] then c' == c.(pc := if draining then Drain else Check) else PushAccess(c, seen, c')
    case Exited => c' == c
  }

  ghost predicate PopAccess(c: System, seen: nat, c': System) {
    var a := PopAct(c.inq, seen);
    Spsc.Step(c.inq, a, c'.inq) && c' == AfterPop(c, c'.inq, Spsc.EffectOf(c.inq, a, c'.inq))
  }

  ghost predicate PushAccess(c: System, seen: nat, c': System)
    requires c.pc.Emit? && c.pc.pending != []
  {
    var a := PushAct(c.outq, c.pc.pending[0], seen);
    Spsc.Step(c.outq, a, c'.outq) && c' == AfterPush(c, c'.outq, Spsc.EffectOf(c.outq, a, c'.outq))
  }

  // ----- the system

  ghost predicate Step(c: System, a: Act, c': System) {
    match a
    case BeginSubmit(m) => Spsc.Step(c.inq, Spsc.BeginPush(m), c'.inq) && c' == c.(inq := c'.inq)
    case GoSubmit(seen) => Spsc.Step(c.inq, Spsc.Produce(seen), c'.inq) && c' == c.(inq := c'.inq)
    case BeginPoll => Spsc.Step(c.outq, Spsc.BeginPop, c'.outq) && c' == c.(outq := c'.outq)
    case GoPoll(seen) => Spsc.Step(c.outq, Spsc.Consume(seen), c'.outq) && c' == c.(outq := c'.outq)
    case StopEngine => c' == c.(running := false)
    case GoEngine(seen) => EngineAccess(c, seen, c')
  }

  ghost predicate Start(c: System) {
    && Spsc.Init(c.inq) && Spsc.Init(c.outq) && c.running && c.pc.Check? && c.core.nextId == 1
    && (forall sym :: sym in c.core.books ==> sym < MAX_SYMBOLS && c.core.books[sym] == RefModel.EMPTY_BOOK)
    && c.generated == [] && c.kept == []
  }

  /** Both rings are in order, and the engine thread is inside a call only where its program is. */
  ghost predicate Inv(c: System) {
    && Spsc.Inv(c.inq) && Spsc.Inv(c.outq)
    && (!c.inq.consumer.Waiting? ==> c.pc.Poll? || c.pc.Drain?)
    && (!c.outq.producer.Resting? ==> c.pc.Emit? && c.pc.pending != [] && c.outq.producer.item == c.pc.pending[0])
  }

  // ----- every access is an action of the pipeline, or none

  /** The pipeline that the rings represent. */
  ghost function View(c: System): Pipeline
    requires Inv(c)
  {
    Pipeline(c.caps, c.inq.cap - 1, c.outq.cap - 1, c.inq.Contents(), c.outq.Contents(), c.running, c.pc, c.core,
             c.inq.pushed, c.inq.popped, c.generated, c.kept, c.outq.popped)
  }

  /** Every load of a peer's position in this step returns the current value. */
  ghost predicate Fresh(c: System, a: Act) {
    match a
    case GoSubmit(seen) => Spsc.Fresh(c.inq, Spsc.Produce(seen))
    case GoPoll(seen) => Spsc.Fresh(c.outq, Spsc.Consume(seen))
    case GoEngine(seen) =>
      && (c.pc.Poll? || c.pc.Drain? ==> Spsc.Fresh(c.inq, PopAct(c.inq, seen)))
      && (c.pc.Emit? && c.pc.pending != [] ==> Spsc.Fresh(c.outq, PushAct(c.outq, c.pc.pending[0], seen)))
    case _ => true
  }

  /** The pipeline actions of a step: the one that takes effect in it, or none. */
  ghost function Label(c: System, a: Act, c': System): (l: seq<Action>)
    ensures |l| <= 1
  {
    match a
    case GoSubmit(seen) =>
      var e := Spsc.EffectOf(c.inq, Spsc.Produce(seen), c'.inq);
      if e.Accepted? then [Submit(e.item, false)] else []
    case GoPoll(seen) =>
      if Spsc.EffectOf(c.outq, Spsc.Consume(seen), c'.outq).Taken? then [PollReport(false)] else []
    case StopEngine => [Stop]
    case GoEngine(seen) => EngineLabel(c, seen, c')
    case _ => []
  }

  /** A refusal after a stale load is one that the pipeline need not have seen. */
  ghost function EngineLabel(c: System, seen: nat, c': System): (l: seq<Action>)
    ensures |l| <= 1
  {
    if c.pc.Poll? || c.pc.Drain? then
      var e := Spsc.EffectOf(c.inq, PopAct(c.inq, seen), c'.inq);
      if e.Internal? then [] else [Engine(e.Empty? && !Fresh(c, GoEngine(seen)))]
    else if c.pc.Emit? && c.pc.pending != [] then
      var e := Spsc.EffectOf(c.outq, PushAct(c.outq, c.pc.pending[0], seen), c'.outq);
      if e.Internal? then [] else [Engine(e.Full? && !Fresh(c, GoEngine(seen)))]
    else [Engine(false)]
  }

  lemma AfterOne(s: Pipeline, a: Action)
    ensures After(s, [a]) == Next(s, a)
  {
    assert [a][..0] == [];
  }

  lemma SubmitKeeps(c: System, a: Act, c': System)
    requires Inv(c) && Step(c, a, c') && (a.BeginSubmit? || a.GoSubmit?)
    ensures Inv(c')
  {
    Spsc.StepOk(c.inq, if a.GoSubmit? then Spsc.Produce(a.seen) else Spsc.BeginPush(a.msg), c'.inq);
  }

  lemma SubmitRefines(c: System, a: Act, c': System)
    requires Inv(c) && Inv(c') && Step(c, a, c') && (a.BeginSubmit? || a.GoSubmit?)
    ensures View(c') == After(View(c), Label(c, a, c'))
  {
    var act := if a.GoSubmit? then Spsc.Produce(a.seen) else Spsc.BeginPush(a.msg);
    Spsc.StepIsAtomic(c.inq, act, c'.inq);
    var e := Spsc.EffectOf(c.inq, act, c'.inq);
    if e.Accepted? {
      AfterOne(View(c), Submit(e.item, false));
      AcceptedRefines(c, c'.inq, e.item);
    } else {
      StutterRefines(c, c'.inq);
    }
  }

  /** A submission that is accepted is the pipeline's. */
  lemma AcceptedRefines(c: System, q: Spsc.Queue<Msg>, m: Msg)
    requires Inv(c) && Inv(c.(inq := q)) && q.cap == c.inq.cap
    requires q.pushed == c.inq.pushed + [m] && q.popped == c.inq.popped
    requires Spsc.Atomic(q.cap - 1, c.inq.Contents(), Spsc.Accepted(m), q.Contents())
    ensures View(c.(inq := q)) == SubmitStep(View(c), m, false)
  {
  }

  lemma PollKeeps(c: System, a: Act, c': System)
    requires Inv(c) && Step(c, a, c') && (a.BeginPoll? || a.GoPoll?)
    ensures Inv(c')
  {
    Spsc.StepOk(c.outq, if a.GoPoll? then Spsc.Consume(a.seen) else Spsc.BeginPop, c'.outq);
  }

  lemma PollRefines(c: System, a: Act, c': System)
    requires Inv(c) && Inv(c') && Step(c, a, c') && (a.BeginPoll? || a.GoPoll?)
    ensures View(c') == After(View(c), Label(c, a, c'))
  {
    var act := if a.GoPoll? then Spsc.Consume(a.seen) else Spsc.BeginPop;
    Spsc.StepIsAtomic(c.outq, act, c'.outq);
    if Spsc.EffectOf(c.outq, act, c'.outq).Taken? {
      AfterOne(View(c), PollReport(false));
      assert View(c') == PollStep(View(c), false);
    } else {
      assert View(c') == View(c);
    }
  }

  lemma PopKeeps(c: System, seen: nat, c': System)
    requires Inv(c) && (c.pc.Poll? || c.pc.Drain?) && PopAccess(c, seen, c')
    ensures Inv(c')
  {
    Spsc.StepOk(c.inq, PopAct(c.inq, seen), c'.inq);
  }

  /** A poll that takes a message is the pipeline's. */
  lemma TakenRefines(c: System, q: Spsc.Queue<Msg>, m: Msg, stale: bool)
    requires Inv(c) && (c.pc.Poll? || c.pc.Drain?) && Inv(AfterPop(c, q, Spsc.Taken(m))) && !stale && q.cap == c.inq.cap
    requires q.pushed == c.inq.pushed && q.popped == c.inq.popped + [m]
    requires Spsc.Atomic(q.cap - 1, c.inq.Contents(), Spsc.Taken(m), q.Contents())
    ensures View(AfterPop(c, q, Spsc.Taken(m))) == EngineStep(View(c), stale)
  {
    assert EngineStep(View(c), stale) == TakeMessage(View(c), c.pc.Drain?);
  }

  /** A poll that finds nothing is one of the pipeline, which refuses in vain if there was something. */
  lemma EmptyRefines(c: System, q: Spsc.Queue<Msg>, stale: bool)
    requires Inv(c) && (c.pc.Poll? || c.pc.Drain?) && Inv(AfterPop(c, q, Spsc.Empty)) && q.cap == c.inq.cap
    requires q.pushed == c.inq.pushed && q.popped == c.inq.popped && (stale || c.inq.Contents() == [])
    ensures View(AfterPop(c, q, Spsc.Empty)) == EngineStep(View(c), stale)
  {
  }

  /** The other accesses of a poll are none of the pipeline's. */
  lemma StutterRefines(c: System, q: Spsc.Queue<Msg>)
    requires Inv(c) && Inv(c.(inq := q)) && q.cap == c.inq.cap && q.pushed == c.inq.pushed && q.popped == c.inq.popped
    ensures View(c.(inq := q)) == View(c)
  {
  }

  lemma PopViews(c: System, seen: nat, c': System, e: Spsc.Effect<Msg>, stale: bool)
    requires Inv(c) && Inv(c') && (c.pc.Poll? || c.pc.Drain?) && PopAccess(c, seen, c')
    requires e == Spsc.EffectOf(c.inq, PopAct(c.inq, seen), c'.inq)
    requires stale == (e.Empty? && !Fresh(c, GoEngine(seen)))
    ensures View(c') == if e.Internal? then View(c) else EngineStep(View(c), stale)
  {
    Spsc.StepIsAtomic(c.inq, PopAct(c.inq, seen), c'.inq);
    match e
    case Taken(m) => TakenRefines(c, c'.inq, m, stale);
    case Empty => EmptyRefines(c, c'.inq, stale);
    case _ => StutterRefines(c, c'.inq);
  }

  lemma PopRefines(c: System, seen: nat, c': System)
    requires Inv(c) && Inv(c') && (c.pc.Poll? || c.pc.Drain?) && PopAccess(c, seen, c')
    ensures View(c') == After(View(c), EngineLabel(c, seen, c'))
  {
    var e := Spsc.EffectOf(c.inq, PopAct(c.inq, seen), c'.inq);
    var stale := e.Empty? && !Fresh(c, GoEngine(seen));
    PopViews(c, seen, c', e, stale);
    AfterOne(View(c), Engine(stale));
  }

  lemma PushKeeps(c: System, seen: nat, c': System)
    requires Inv(c) && c.pc.Emit? && c.pc.pending != [] && PushAccess(c, seen, c')
    ensures Inv(c')
  {
    Spsc.StepOk(c.outq, PushAct(c.outq, c.pc.pending[0], seen), c'.outq);
  }

  /** A push that ends is the pipeline's: with room the report is kept, and a refused one is dropped. */
  lemma PushedRefines(c: System, q: Spsc.Queue<Routed>, e: Spsc.Effect<Routed>, stale: bool)
    requires Inv(c) && c.pc.Emit? && c.pc.pending != [] && Inv(AfterPush(c, q, e)) && q.cap == c.outq.cap
    requires e == Spsc.Accepted(c.pc.pending[0]) || e == Spsc.Full
    requires q.popped == c.outq.popped && (e.Full? ==> q.pushed == c.outq.pushed)
    requires (stale && e.Full?) || (!stale && Spsc.Atomic(q.cap - 1, c.outq.Contents(), e, q.Contents()))
    ensures View(AfterPush(c, q, e)) == EngineStep(View(c), stale)
  {
    assert EngineStep(View(c), stale) == EmitStep(View(c), stale);
  }

  lemma PushRefines(c: System, seen: nat, c': System)
    requires Inv(c) && Inv(c') && c.pc.Emit? && c.pc.pending != [] && PushAccess(c, seen, c')
    ensures View(c') == After(View(c), EngineLabel(c, seen, c'))
  {
    var act := PushAct(c.outq, c.pc.pending[0], seen);
    Spsc.StepIsAtomic(c.outq, act, c'.outq);
    var e := Spsc.EffectOf(c.outq, act, c'.outq);
    var stale := e.Full? && !Fresh(c, GoEngine(seen));
    AfterOne(View(c), Engine(stale));
    if !e.Internal? {
      PushedRefines(c, c'.outq, e, stale);
    }
  }

  /**
   Every access of every thread is the pipeline action of its label, which refuses without need only if it was stale.
   */
  lemma StepRefines(c: System, a: Act, c': System)
    requires Inv(c) && Step(c, a, c')
    ensures Inv(c') && View(c') == After(View(c), Label(c, a, c'))
    ensures Fresh(c, a) ==> AllFresh(Label(c, a, c'))
  {
    match a
    case BeginSubmit(_) =>
      SubmitKeeps(c, a, c');
      SubmitRefines(c, a, c');
    case GoSubmit(_) =>
      SubmitKeeps(c, a, c');
      SubmitRefines(c, a, c');
    case BeginPoll =>
      PollKeeps(c, a, c');
      PollRefines(c, a, c');
    case GoPoll(_) =>
      PollKeeps(c, a, c');
      PollRefines(c, a, c');
    case StopEngine => AfterOne(View(c), Stop);
    case GoEngine(seen) =>
      if c.pc.Poll? || c.pc.Drain? {
        PopKeeps(c, seen, c');
        PopRefines(c, seen, c');
      } else if c.pc.Emit? && c.pc.pending != [] {
        PushKeeps(c, seen, c');
        PushRefines(c, seen, c');
      } else {
        AfterOne(View(c), Engine(false));
      }
  }

  ghost predicate AllFresh(acts: seq<Action>) {
    forall i :: 0 <= i < |acts| ==> acts[i].Stop? || !acts[i].stale
  }

  // ----- every run

  ghost predicate Linked(run: seq<System>, acts: seq<Act>, i: nat)
    requires i + 1 < |run| && i < |acts|
  {
    Step(run[i], acts[i], run[i + 1])
  }

  ghost predicate Execution(run: seq<System>, acts: seq<Act>) {
    && |run| == |acts| + 1 && Start(run[0])
    && forall i {:trigger Linked(run, acts, i)} :: 0 <= i < |acts| ==> Linked(run, acts, i)
  }

  ghost predicate FreshTo(run: seq<System>, acts: seq<Act>, n: nat)
    requires n <= |acts| < |run|
  {
    forall i {:trigger Fresh(run[i], acts[i])} :: 0 <= i < n ==> Fresh(run[i], acts[i])
  }

  ghost function Labels(run: seq<System>, acts: seq<Act>, n: nat): seq<Action>
    requires n <= |acts| < |run|
  {
    if n == 0 then [] else Labels(run, acts, n - 1) + Label(run[n - 1], acts[n - 1], run[n])
  }

  lemma StartOk(c: System)
    requires Start(c)
    ensures Inv(c) && Init(View(c))
  {
  }

  /**
   Every run of the rings is a run of the pipeline, so that whatever holds of the pipeline under every interleaving
   holds of the rings; and when no load was stale, no queue operation refused without need.
   */
  lemma {:induction false} RunIsPipelineRun(run: seq<System>, acts: seq<Act>, n: nat)
    requires Execution(run, acts) && n < |run|
    ensures Inv(run[0]) && Init(View(run[0])) && Inv(run[n])
    ensures View(run[n]) == After(View(run[0]), Labels(run, acts, n))
    ensures FreshTo(run, acts, n) ==> AllFresh(Labels(run, acts, n))
    decreases n
  {
    if n == 0 {
      StartOk(run[0]);
    } else {
      RunIsPipelineRun(run, acts, n - 1);
      assert Linked(run, acts, n - 1);
      StepRefines(run[n - 1], acts[n - 1], run[n]);
      AfterSplit(View(run[0]), Labels(run, acts, n - 1), Label(run[n - 1], acts[n - 1], run[n]));
      assert FreshTo(run, acts, n) ==> Fresh(run[n - 1], acts[n - 1]);
    }
  }

  /**
   Over the rings, however stale the loads: what was processed is a prefix of what was accepted, and what was polled
   is an in-order subsequence of what was generated, itself a beginning of the reports of the processed messages.
   */
  lemma RingsKeepOrder(run: seq<System>, acts: seq<Act>, n: nat)
    requires Execution(run, acts) && n < |run|
    ensures run[n].inq.popped <= run[n].inq.pushed
    ensures var c := run[n]; var ks := Positions(c.kept);
            && c.generated <= AllReports(run[0].caps, run[0].core, c.inq.popped)
            && |c.kept| == |c.generated| && Increasing(ks, |c.generated|) && |c.outq.popped| <= |ks|
            && (forall i :: 0 <= i < |c.outq.popped| ==> c.outq.popped[i] == c.generated[ks[i]])
  {
    RunIsPipelineRun(run, acts, n);
    ProcessedIsPrefix(View(run[0]), Labels(run, acts, n));
    PolledInOrder(View(run[0]), Labels(run, acts, n));
  }

  /**
   An engine that exits has processed every accepted message if and only if its last load was of the current position.
   */
  lemma ExitExact(c: System, a: Act, c': System)
    requires Inv(c) && Step(c, a, c') && !c.pc.Exited? && c'.pc.Exited?
    ensures a.GoEngine? && c.pc.Drain? && c.inq.consumer.CheckEmpty?
    ensures c'.inq.popped == c'.inq.pushed <==> a.seen == |c.inq.pushed|
    ensures Fresh(c, a) ==> c'.inq.popped == c'.inq.pushed
  {
    Spsc.RefusalExact(c.inq, PopAct(c.inq, a.seen), c'.inq);
    Spsc.StepIsAtomic(c.inq, PopAct(c.inq, a.seen), c'.inq);
  }

  /**
   A report is dropped if and only if the ring's items, with those polled since the position it saw, fill the ring.
   */
  lemma DropExact(c: System, a: Act, c': System)
    requires Inv(c) && Step(c, a, c') && a.GoEngine?
    requires c.pc.Emit? && c.pc.pending != [] && c.outq.producer.CheckFull?
    ensures (|c'.kept| > |c.kept| && !c'.kept[|c.kept|])
            <==> |c.outq.Contents()| + (|c.outq.popped| - a.seen) == c.outq.cap - 1
    ensures Fresh(c, a) && |c'.kept| > |c.kept| ==> |c.outq.Contents()| == c.outq.cap - 1
  {
    Spsc.RefusalExact(c.outq, PushAct(c.outq, c.pc.pending[0], a.seen), c'.outq);
  }

  lemma StepGrows(c: System, a: Act, c': System)
    requires Inv(c) && Step(c, a, c')
    ensures c.inq.pushed <= c'.inq.pushed && (c.pc.Exited? ==> c'.pc.Exited? && c'.inq.popped == c.inq.popped)
  {
    StepRefines(c, a, c');
    LabelGrows(View(c), Label(c, a, c'), View(c'));
  }

  lemma LabelGrows(s: Pipeline, l: seq<Action>, s': Pipeline)
    requires |l| <= 1 && s' == After(s, l)
    ensures s.accepted <= s'.accepted && (s.pc.Exited? ==> s'.pc.Exited? && s'.processed == s.processed)
  {
    if l != [] {
      assert l == [l[0]];
      AfterOne(s, l[0]);
      NextAccepted(s, l[0]);
    }
  }

  lemma {:induction false} PushedGrows(run: seq<System>, acts: seq<Act>, m: nat, n: nat)
    requires Execution(run, acts) && m <= n < |run|
    ensures run[m].inq.pushed <= run[n].inq.pushed
    decreases n
  {
    if m < n {
      PushedGrows(run, acts, m, n - 1);
      LinkGrows(run, acts, n - 1);
    }
  }

  lemma LinkGrows(run: seq<System>, acts: seq<Act>, n: nat)
    requires Execution(run, acts) && n < |acts|
    ensures Inv(run[n]) && Step(run[n], acts[n], run[n + 1]) && run[n].inq.pushed <= run[n + 1].inq.pushed
    ensures run[n].pc.Exited? ==> run[n + 1].inq.popped == run[n].inq.popped
  {
    RunIsPipelineRun(run, acts, n);
    assert Linked(run, acts, n);
    StepGrows(run[n], acts[n], run[n + 1]);
  }

  /**
   With no message accepted after m and no stale load, an engine alive at m and exited at n has processed everything.
   */
  lemma {:induction false} RingsDrain(run: seq<System>, acts: seq<Act>, m: nat, n: nat)
    requires Execution(run, acts) && m <= n < |run| && !run[m].pc.Exited? && run[n].pc.Exited?
    requires FreshTo(run, acts, n) && run[n].inq.pushed == run[m].inq.pushed
    ensures run[n].inq.popped == run[n].inq.pushed
    decreases n
  {
    PushedGrows(run, acts, m, n - 1);
    LinkGrows(run, acts, n - 1);
    if run[n - 1].pc.Exited? {
      RingsDrain(run, acts, m, n - 1);
    } else {
      assert Fresh(run[n - 1], acts[n - 1]);
      ExitExact(run[n - 1], acts[n - 1], run[n]);
    }
  }
}
