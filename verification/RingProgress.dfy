/** The same over the rings: the engine thread's own accesses, with fresh loads, carry out the turns of the pipeline. */
module RingProgress {
  import opened EngineRings
  import opened EngineProgress
  import Pipe = EnginePipeline
  import Calls = SpscCalls

  /** One access of the engine thread with a fresh load. */
  ghost predicate Access(c: System, c': System) {
    exists seen ::
      Step(c, GoEngine(seen), c') && Fresh(c, GoEngine(seen))
  }

  ghost predicate AccessAt(path: seq<System>, i: nat)
    requires i + 1 < |path|
  {
    Access(path[i], path[i + 1])
  }

  /** Accesses of the engine thread alone, all loads fresh, lead from c to c' through the states of the path. */
  ghost predicate Leads(c: System, path: seq<System>, c': System) {
    && path != [] && path[0] == c && path[|path| - 1] == c'
    && forall i {:trigger AccessAt(path, i)} :: 0 <= i < |path| - 1 ==> AccessAt(path, i)
  }

  /** A path and one that goes on where it ends. */
  lemma LeadsOn(c: System, p: seq<System>, c1: System, q: seq<System>, c2: System)
    requires Leads(c, p, c1) && Leads(c1, q, c2)
    ensures Leads(c, p + q[1..], c2)
  {
    var path, n := p + q[1..], |p| - 1;
    forall i | 0 <= i < |path| - 1
      ensures AccessAt(path, i)
    {
      if i < n {
        assert AccessAt(p, i) && path[i] == p[i] && path[i + 1] == p[i + 1];
      } else {
        assert AccessAt(q, i - n) && path[i] == q[i - n] && path[i + 1] == q[i - n + 1];
      }
    }
  }

  lemma LeadsOnce(c: System, c': System)
    requires Access(c, c')
    ensures Leads(c, [c, c'], c')
  {
    assert AccessAt([c, c'], 0);
  }

  /** The accesses until the engine thread's next turn of the pipeline. */
  ghost function ToTurn(c: System): nat {
    if c.pc.Poll? || c.pc.Drain? then (if c.inq.consumer.Waiting? then 5 else Calls.PopRank(c.inq.consumer))
    else if c.pc.Emit? && c.pc.pending != [] then
      (if c.outq.producer.Resting? then 5 else Calls.PushRank(c.outq.producer))
    else 0
  }

  /** The engine thread can always go on; each access is a turn of the pipeline, or brings the next one nearer. */
  lemma NextAccess(c: System) returns (c': System)
    requires Inv(c)
    ensures Access(c, c') && Inv(c')
    ensures || View(c') == Pipe.EngineStep(View(c), false)
            || (View(c') == View(c) && ToTurn(c') < ToTurn(c))
  {
    if c.pc.Poll? || c.pc.Drain? {
      c' := NextPop(c);
    } else if c.pc.Emit? && c.pc.pending != [] {
      c' := NextPush(c);
    } else {
      c' := c.(pc := Pipe.EngineStep(View(c), false).pc);
      assert Step(c, GoEngine(0), c') && Fresh(c, GoEngine(0));
    }
  }

  lemma NextPop(c: System) returns (c': System)
    requires Inv(c) && (c.pc.Poll? || c.pc.Drain?)
    ensures Access(c, c') && Inv(c')
    ensures || View(c') == Pipe.EngineStep(View(c), false)
            || (View(c') == View(c) && ToTurn(c') < ToTurn(c))
  {
    var seen, q := |c.inq.pushed|, c.inq.(consumer := Spsc.LoadRead);
    if !c.inq.consumer.Waiting? {
      q := Calls.CanConsume(c.inq);
      Calls.PopGoesOn(c.inq, seen, q);
    }
    var e := Spsc.EffectOf(c.inq, PopAct(c.inq, seen), q);
    c' := AfterPop(c, q, e);
    assert PopAccess(c, seen, c') && Fresh(c, GoEngine(seen));
    assert Step(c, GoEngine(seen), c');
    PopKeeps(c, seen, c');
    PopViews(c, seen, c', e, false);
  }

  lemma NextPush(c: System) returns (c': System)
    requires Inv(c) && c.pc.Emit? && c.pc.pending != []
    ensures Access(c, c') && Inv(c')
    ensures || View(c') == Pipe.EngineStep(View(c), false)
            || (View(c') == View(c) && ToTurn(c') < ToTurn(c))
  {
    var seen, q := |c.outq.popped|, c.outq.(producer := Spsc.LoadWrite(c.pc.pending[0]));
    if !c.outq.producer.Resting? {
      q := Calls.CanProduce(c.outq);
      Calls.PushGoesOn(c.outq, seen, q);
    }
    var e := Spsc.EffectOf(c.outq, PushAct(c.outq, c.pc.pending[0], seen), q);
    c' := AfterPush(c, q, e);
    assert PushAccess(c, seen, c') && Fresh(c, GoEngine(seen));
    assert Step(c, GoEngine(seen), c');
    PushKeeps(c, seen, c');
    PushRefines(c, seen, c');
    AfterOne(View(c), Pipe.Engine(false));
  }

  /** In finitely many accesses the engine thread performs its next turn of the pipeline. */
  lemma {:induction false} RingTurn(c: System) returns (path: seq<System>, c': System)
    requires Inv(c)
    ensures Leads(c, path, c') && Inv(c') && View(c') == Pipe.EngineStep(View(c), false)
    decreases ToTurn(c)
  {
    var c1 := NextAccess(c);
    LeadsOnce(c, c1);
    if View(c1) == Pipe.EngineStep(View(c), false) {
      path, c' := [c, c1], c1;
    } else {
      var p, d := RingTurn(c1);
      LeadsOn(c, [c, c1], c1, p, d);
      path, c' := [c, c1] + p[1..], d;
    }
  }

  /** And any number of turns. */
  lemma {:induction false} RingTurns(c: System, k: nat) returns (path: seq<System>, c': System)
    requires Inv(c)
    ensures Leads(c, path, c') && Inv(c') && View(c') == Turn(View(c), k)
    decreases k
  {
    if k == 0 {
      path, c' := [c], c;
    } else {
      var p, c1 := RingTurn(c);
      var q, c2 := RingTurns(c1, k - 1);
      LeadsOn(c, p, c1, q, c2);
      path, c' := p + q[1..], c2;
    }
  }

  /**
   Over the rings, at any moment of any run: an engine that has not been stopped and is left to itself, with fresh
   loads, processes every accepted message and generates every report of them.
   */
  lemma RingsCatchUp(run: seq<System>, acts: seq<Act>, i: nat) returns (path: seq<System>, c': System)
    requires Execution(run, acts) && i < |run| && run[i].running
    ensures Leads(run[i], path, c') && c'.inq.popped == c'.inq.pushed == run[i].inq.pushed
    ensures c'.generated == Pipe.AllReports(run[0].caps, run[0].core, c'.inq.popped)
  {
    RunIsPipelineRun(run, acts, i);
    var k := CatchesUp(View(run[0]), Labels(run, acts, i));
    path, c' := RingTurns(run[i], k);
  }

  /** Over the rings, stopping an engine that is alive makes it exit with everything accepted processed. */
  lemma RingsStopEnds(run: seq<System>, acts: seq<Act>, i: nat, c: System) returns (path: seq<System>, c': System)
    requires Execution(run, acts) && i < |run| && !run[i].pc.Exited? && Step(run[i], StopEngine, c)
    ensures Leads(c, path, c') && c'.pc.Exited? && c'.inq.popped == c'.inq.pushed == run[i].inq.pushed
  {
    RunIsPipelineRun(run, acts, i);
    var s0, ls := View(run[0]), Labels(run, acts, i);
    var k := StopEnds(s0, ls);
    StepRefines(run[i], StopEngine, c);
    Pipe.AfterSplit(s0, ls, [Pipe.Stop]);
    TurnIsAfter(View(c), k);
    Pipe.AfterSplit(s0, ls + [Pipe.Stop], Turns(k));
    path, c' := RingTurns(c, k);
  }
}
