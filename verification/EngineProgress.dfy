/** The engine makes progress: left to itself it processes what was accepted, and exits once it is stopped. */
module EngineProgress {
  import opened EnginePipeline

  /** The engine is in its polling loop. */
  predicate Polling(s: Pipeline) {
    s.pc.Check? || s.pc.Poll? || (s.pc.Emit? && !s.pc.draining)
  }

  /** n turns of the engine alone, with fresh loads. */
  function Turn(s: Pipeline, n: nat): Pipeline
    decreases n
  {
    if n == 0 then s else Turn(EngineStep(s, false), n - 1)
  }

  function Turns(n: nat): seq<Action> {
    if n == 0 then [] else [Engine(false)] + Turns(n - 1)
  }

  lemma {:induction false} TurnIsAfter(s: Pipeline, n: nat)
    ensures Turn(s, n) == After(s, Turns(n))
    decreases n
  {
    if n > 0 {
      TurnIsAfter(EngineStep(s, false), n - 1);
      AfterCons(s, Engine(false), Turns(n - 1));
    }
  }

  lemma {:induction false} TurnOn(s: Pipeline, n: nat, m: nat)
    ensures Turn(Turn(s, n), m) == Turn(s, n + m)
    decreases n
  {
    if n > 0 {
      TurnOn(EngineStep(s, false), n - 1, m);
    }
  }

  /** Turns of the engine until it polls. */
  function ToPoll(pc: Pc): nat {
    match pc
    case Poll => 0
    case Check => 1
    case Emit(pending, _) => 2 + |pending|
    case _ => 0
  }

  /** A running engine with a message queued takes the oldest one, and it alone, in finitely many turns. */
  lemma {:induction false} TakesNext(s: Pipeline) returns (n: nat)
    requires s.running && Polling(s) && s.inbound != []
    ensures var s' := Turn(s, n);
            && s'.processed == s.processed + [s.inbound[0]] && s'.inbound == s.inbound[1..]
            && s'.accepted == s.accepted && s'.running && Polling(s')
    decreases ToPoll(s.pc)
  {
    var s1 := EngineStep(s, false);
    if s.pc.Poll? {
      assert Turn(s, 1) == Turn(s1, 0);
      n := 1;
    } else {
      var m := TakesNext(s1);
      n := m + 1;
    }
  }

  /** So it goes on until the queue is empty. */
  lemma {:induction false} TakesAll(s: Pipeline) returns (n: nat)
    requires s.running && Polling(s)
    ensures var s' := Turn(s, n);
            && s'.processed == s.processed + s.inbound && s'.inbound == []
            && s'.accepted == s.accepted && s'.running && Polling(s')
    decreases |s.inbound|
  {
    if s.inbound == [] {
      n := 0;
    } else {
      var k := TakesNext(s);
      var m := TakesAll(Turn(s, k));
      TurnOn(s, k, m);
      n := k + m;
      assert s.processed + s.inbound == s.processed + [s.inbound[0]] + s.inbound[1..];
    }
  }

  /** With nothing queued it hands out the reports it still has and goes back to testing its flag. */
  lemma {:induction false} Settles(s: Pipeline) returns (n: nat)
    requires s.running && Polling(s) && s.inbound == []
    ensures var s' := Turn(s, n);
            s'.pc.Check? && s'.processed == s.processed && s'.accepted == s.accepted && s'.running
    decreases if s.pc.Poll? then 1 else if s.pc.Emit? then 1 + |s.pc.pending| else 0
  {
    if s.pc.Check? {
      n := 0;
    } else {
      var m := Settles(EngineStep(s, false));
      n := m + 1;
    }
  }

  lemma {:induction false} RunningPolls(s0: Pipeline, acts: seq<Action>)
    requires Init(s0)
    ensures After(s0, acts).running ==> Polling(After(s0, acts))
    decreases |acts|
  {
    if acts != [] {
      RunningPolls(s0, acts[..|acts| - 1]);
    }
  }

  lemma TakesAllAndSettles(s: Pipeline) returns (n: nat)
    requires s.running && Polling(s)
    ensures var s' := Turn(s, n);
            s'.pc.Check? && s'.processed == s.processed + s.inbound && s'.accepted == s.accepted && s'.running
  {
    var k := TakesAll(s);
    var m := Settles(Turn(s, k));
    TurnOn(s, k, m);
    n := k + m;
  }

  /** Between two polls, every report of the processed messages has been generated. */
  lemma AllGenerated(s0: Pipeline, acts: seq<Action>)
    requires Init(s0) && After(s0, acts).pc.Check?
    ensures After(s0, acts).generated == AllReports(s0.caps, s0.core, After(s0, acts).processed)
  {
    AfterOk(s0, acts);
    var s := After(s0, acts);
    assert s.generated + [] == s.generated;
  }

  lemma Accounted(s0: Pipeline, acts: seq<Action>)
    requires Init(s0)
    ensures var s := After(s0, acts); s.accepted == s.processed + s.inbound
  {
    AfterOk(s0, acts);
  }

  /**
   After any interleaving, an engine that has not been stopped and is left to itself catches up: every accepted
   message is processed, and every report of those messages has been generated.
   */
  lemma CatchesUp(s0: Pipeline, acts: seq<Action>) returns (n: nat)
    requires Init(s0) && After(s0, acts).running
    ensures var s, s' := After(s0, acts), Turn(After(s0, acts), n);
            && s' == After(s0, acts + Turns(n))
            && s'.processed == s'.accepted == s.accepted && s'.pc.Check? && s'.running
            && s'.generated == AllReports(s0.caps, s0.core, s'.processed)
  {
    RunningPolls(s0, acts);
    Accounted(s0, acts);
    n := TakesAllAndSettles(After(s0, acts));
    TurnIsAfter(After(s0, acts), n);
    AfterSplit(s0, acts, Turns(n));
    AllGenerated(s0, acts + Turns(n));
  }

  lemma {:induction false} TurnsAre(n: nat)
    ensures |Turns(n)| == n && forall i :: 0 <= i < n ==> Turns(n)[i] == Engine(false)
  {
    if n > 0 {
      TurnsAre(n - 1);
    }
  }

  lemma {:induction false} ExitComes(s: Pipeline) returns (n: nat)
    requires !s.running
    ensures Turn(s, n).pc.Exited?
    decreases |s.inbound|, Rank(s.pc)
  {
    if s.pc.Exited? {
      n := 0;
    } else {
      RankFalls(s, false);
      var m := ExitComes(EngineStep(s, false));
      n := m + 1;
    }
  }

  /** Stopping an engine that is alive makes it exit, and by then everything accepted has been processed. */
  lemma StopEnds(s0: Pipeline, acts: seq<Action>) returns (n: nat)
    requires Init(s0) && !After(s0, acts).pc.Exited?
    ensures var s' := After(s0, acts + [Stop] + Turns(n));
            s'.pc.Exited? && s'.processed == s'.accepted == After(s0, acts).accepted
  {
    var s1 := After(s0, acts + [Stop]);
    assert (acts + [Stop])[..|acts|] == acts;
    assert s1 == After(s0, acts).(running := false);
    n := ExitComes(s1);
    TurnIsAfter(s1, n);
    TurnsAre(n);
    AfterSplit(s0, acts + [Stop], Turns(n));
    var j := ShutdownExact(s0, acts + [Stop], Turns(n));
    TurnAccepts(s1, n);
  }

  lemma {:induction false} TurnAccepts(s: Pipeline, n: nat)
    ensures Turn(s, n).accepted == s.accepted
    decreases n
  {
    if n > 0 {
      TurnAccepts(EngineStep(s, false), n - 1);
    }
  }
}
