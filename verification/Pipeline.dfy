/**
 The matching engine between its two queues. The submitting thread, the engine thread, the polling thread and the
 thread that stops the engine interleave; each action is one queue operation or one test of the running flag.
 The queues are bounded FIFOs whose operations are atomic, except that an operation whose load of the peer's
 position is stale may refuse without need. The books are reference books.
 */
module EnginePipeline {
  import opened Types
  import opened RefModel

  const MAX_SYMBOLS := 256

  datatype MsgKind = NewOrder | CancelOrder | ModifyOrder | Heartbeat

  datatype Msg =
    Msg(kind: MsgKind, symbol: nat, orderId: nat, price: int, qty: Qty, dir: Direction, orderType: OrderType)

  /** An execution report with the symbol of the book it came from. */
  datatype Routed = Routed(symbol: nat, report: ExecutionReport)

  /** The engine thread's own state: a book per registered symbol, and the next synthetic order id. */
  datatype Core = Core(books: map<nat, RefBook>, nextId: nat)

  // ----- one message

  predicate Routable(c: Core, m: Msg) {
    m.symbol < MAX_SYMBOLS && m.symbol in c.books && !m.kind.Heartbeat?
  }

  /** The message with the id its order gets. */
  function Resolved(c: Core, m: Msg): Msg {
    if m.kind.NewOrder? && m.orderId == 0 then m.(orderId := c.nextId) else m
  }

  function EventOf(m: Msg): Event
    requires !m.kind.Heartbeat?
  {
    match m.kind
    case NewOrder => Add(Order(m.orderId, m.price, m.qty, m.dir, m.orderType, 0))
    case CancelOrder => Cancel(m.orderId)
    case ModifyOrder => Modify(m.orderId, m.qty)
  }

  function Process(caps: Caps, c: Core, m: Msg): Core {
    if !Routable(c, m) then c
    else
      var e := EventOf(Resolved(c, m));
      Core(c.books[m.symbol := Apply(caps, c.books[m.symbol], e)],
           if m.kind.NewOrder? && m.orderId == 0 then c.nextId + 1 else c.nextId)
  }

  /** The reports that processing a message hands to the engine's callback, in order. */
  function ReportsFor(caps: Caps, c: Core, m: Msg): seq<Routed> {
    if !Routable(c, m) || !m.kind.NewOrder? then []
    else
      var o := EventOf(Resolved(c, m)).order;
      var rs := ReportsOf(o, o.qty, AddOrder(caps, c.books[m.symbol], o).fills);
      seq(|rs|, i requires 0 <= i < |rs| => Routed(m.symbol, rs[i]))
  }

  /**
   What a message does, field by field. One without effect is a heartbeat or has no book. A new order without an id
   gets the next synthetic one and has no account; only its own book changes.
   */
  lemma MessageLaw(caps: Caps, c: Core, m: Msg)
    ensures var deaf := m.symbol >= 256 || m.symbol !in c.books || m.kind == Heartbeat;
            deaf ==> Process(caps, c, m) == c && ReportsFor(caps, c, m) == []
    ensures m.symbol < 256 && m.symbol in c.books ==>
              var c', b := Process(caps, c, m), c.books[m.symbol];
              && c'.books.Keys == c.books.Keys
              && (forall sym :: sym in c.books && sym != m.symbol ==> c'.books[sym] == c.books[sym])
              && (m.kind == NewOrder ==>
                    var id := if m.orderId == 0 then c.nextId else m.orderId;
                    var r := RefModel.AddOrder(caps, b, Order(id, m.price, m.qty, m.dir, m.orderType, 0));
                    && c'.books[m.symbol] == RefBook(r.book.bids, r.book.asks, r.book.clock + 1)
                    && c'.nextId == (if m.orderId == 0 then c.nextId + 1 else c.nextId)
                    && |ReportsFor(caps, c, m)| == |r.fills|)
              && (m.kind == CancelOrder ==>
                    var b' := RefModel.CancelOrder(b, m.orderId);
                    c'.books[m.symbol] == RefBook(b'.bids, b'.asks, b'.clock + 1) && c'.nextId == c.nextId)
              && (m.kind == ModifyOrder ==>
                    var b' := RefModel.ModifyOrder(b, m.orderId, m.qty);
                    c'.books[m.symbol] == RefBook(b'.bids, b'.asks, b'.clock + 1) && c'.nextId == c.nextId)
              && (m.kind != NewOrder ==> ReportsFor(caps, c, m) == [])
  {
  }

  /** Every report of a message carries its symbol, the order's id, and contra id, price and quantity of its fill. */
  lemma ReportLaw(caps: Caps, c: Core, m: Msg, i: nat)
    requires i < |ReportsFor(caps, c, m)|
    ensures m.symbol in c.books && m.kind == NewOrder
    ensures var o := Order(if m.orderId == 0 then c.nextId else m.orderId, m.price, m.qty, m.dir, m.orderType, 0);
            var fills, r := AddOrder(caps, c.books[m.symbol], o).fills, ReportsFor(caps, c, m)[i];
            && i < |fills| && r.symbol == m.symbol && r.report.orderId == o.id && r.report.dir == m.dir
            && r.report.contraId == fills[i].passive && r.report.price == fills[i].price && r.report.qty == fills[i].qty
  {
    var o := Order(if m.orderId == 0 then c.nextId else m.orderId, m.price, m.qty, m.dir, m.orderType, 0);
    ReportAt(o, o.qty, AddOrder(caps, c.books[m.symbol], o).fills, i);
  }

  lemma {:induction false} ReportAt(o: Order, qty: int, fills: seq<FillRec>, i: nat)
    requires i < |fills|
    ensures var r := ReportsOf(o, qty, fills)[i];
            && r.orderId == o.id && r.dir == o.dir
            && r.contraId == fills[i].passive && r.price == fills[i].price && r.qty == fills[i].qty
  {
    if i < |fills| - 1 {
      ReportAt(o, qty, fills[..|fills| - 1], i);
    }
  }

  // ----- the three threads

  datatype Pc = Check | Poll | Emit(pending: seq<Routed>, draining: bool) | Drain | Exited

  /** The last five fields record history; `kept[i]` says whether generated report i found room. */
  datatype Pipeline = Pipeline(caps: Caps, inRoom: nat, outRoom: nat, inbound: seq<Msg>, outbound: seq<Routed>,
                               running: bool, pc: Pc, core: Core,
                               accepted: seq<Msg>, processed: seq<Msg>,
                               generated: seq<Routed>, kept: seq<bool>, polled: seq<Routed>)

  /** `stale` marks a queue operation that refuses without need, because its load of the peer's position was stale. */
  datatype Action = Submit(msg: Msg, stale: bool) | PollReport(stale: bool) | Stop | Engine(stale: bool)

  function SubmitStep(s: Pipeline, m: Msg, stale: bool): Pipeline {
    if stale || |s.inbound| >= s.inRoom then s
    else s.(inbound := s.inbound + [m], accepted := s.accepted + [m])
  }

  function PollStep(s: Pipeline, stale: bool): Pipeline {
    if stale || s.outbound == [] then s
    else s.(outbound := s.outbound[1..], polled := s.polled + [s.outbound[0]])
  }

  /** Take the next message and process it; its reports are then pushed one by one. */
  function TakeMessage(s: Pipeline, draining: bool): Pipeline
    requires s.inbound != []
  {
    var m := s.inbound[0];
    s.(inbound := s.inbound[1..], processed := s.processed + [m],
       core := Process(s.caps, s.core, m), pc := Emit(ReportsFor(s.caps, s.core, m), draining))
  }

  /** Push one report; a refused one is dropped. */
  function EmitStep(s: Pipeline, stale: bool): Pipeline
    requires s.pc.Emit? && s.pc.pending != []
  {
    var r := s.pc.pending[0];
    var fits := !stale && |s.outbound| < s.outRoom;
    s.(pc := Emit(s.pc.pending[1..], s.pc.draining), outbound := if fits then s.outbound + [r] else s.outbound,
       generated := s.generated + [r], kept := s.kept + [fits])
  }

  function EngineStep(s: Pipeline, stale: bool): Pipeline {
    match s.pc
    case Check => s.(pc := if s.running then Poll else Drain)
    case Poll => if stale || s.inbound == [] then s.(pc := Check) else TakeMessage(s, false)
    case Emit(pending, draining) =>
      if pending != [] then EmitStep(s, stale) else s.(pc := if draining then Drain else Check)
    case Drain => if stale || s.inbound == [] then s.(pc := Exited) else TakeMessage(s, true)
    case Exited => s
  }

  function Next(s: Pipeline, a: Action): Pipeline {
    match a
    case Submit(m, stale) => SubmitStep(s, m, stale)
    case PollReport(stale) => PollStep(s, stale)
    case Stop => s.(running := false)
    case Engine(stale) => EngineStep(s, stale)
  }

  /** The state after an interleaving of actions. */
  function After(s: Pipeline, acts: seq<Action>): Pipeline {
    if acts == [] then s else Next(After(s, acts[..|acts| - 1]), acts[|acts| - 1])
  }

  /** A started engine with its symbols registered. */
  ghost predicate Init(s: Pipeline) {
    && s.inbound == [] && s.outbound == [] && s.running && s.pc.Check? && s.core.nextId == 1
    && (forall sym :: sym in s.core.books ==> sym < MAX_SYMBOLS && s.core.books[sym] == EMPTY_BOOK)
    && s.accepted == s.processed == [] && s.generated == s.polled == [] && s.kept == []
  }

  // ----- what a history of messages means

  function ProcessAll(caps: Caps, c: Core, ms: seq<Msg>): Core {
    if ms == [] then c else Process(caps, ProcessAll(caps, c, ms[..|ms| - 1]), ms[|ms| - 1])
  }

  function AllReports(caps: Caps, c: Core, ms: seq<Msg>): seq<Routed> {
    if ms == [] then []
    else
      var n := |ms| - 1;
      AllReports(caps, c, ms[..n]) + ReportsFor(caps, ProcessAll(caps, c, ms[..n]), ms[n])
  }

  /** The reports that found room, in order. */
  function Kept(rs: seq<Routed>, kept: seq<bool>): seq<Routed>
    requires |rs| == |kept|
  {
    if rs == [] then []
    else
      var n := |rs| - 1;
      Kept(rs[..n], kept[..n]) + (if kept[n] then [rs[n]] else [])
  }

  function Pending(s: Pipeline): seq<Routed> {
    if s.pc.Emit? then s.pc.pending else []
  }

  ghost predicate Inv(s0: Pipeline, s: Pipeline) {
    && s.caps == s0.caps && s.inRoom == s0.inRoom && s.outRoom == s0.outRoom
    && |s.inbound| <= s.inRoom && |s.outbound| <= s.outRoom
    && s.accepted == s.processed + s.inbound
    && s.core == ProcessAll(s.caps, s0.core, s.processed)
    && s.generated + Pending(s) == AllReports(s.caps, s0.core, s.processed)
    && |s.kept| == |s.generated| && Kept(s.generated, s.kept) == s.polled + s.outbound
  }

  lemma TakeMessageOk(s0: Pipeline, s: Pipeline, draining: bool)
    requires Inv(s0, s) && s.inbound != [] && Pending(s) == []
    ensures Inv(s0, TakeMessage(s, draining))
  {
    var s' := TakeMessage(s, draining);
    assert s'.processed[..|s.processed|] == s.processed;
    assert s.accepted == s'.processed + s'.inbound;
    assert s.generated + [] == s.generated;
  }

  lemma EmitStepOk(s0: Pipeline, s: Pipeline, stale: bool)
    requires Inv(s0, s) && s.pc.Emit? && s.pc.pending != []
    ensures Inv(s0, EmitStep(s, stale))
  {
    var s' := EmitStep(s, stale);
    assert s'.generated[..|s.generated|] == s.generated && s'.kept[..|s.kept|] == s.kept;
    assert s'.generated + Pending(s') == s.generated + Pending(s);
    var r := s.pc.pending[0];
    assert s.polled + (s.outbound + [r]) == s.polled + s.outbound + [r];
    assert Kept(s.generated, s.kept) + [] == Kept(s.generated, s.kept);
  }

  lemma MoveFirst(done: seq<Routed>, todo: seq<Routed>)
    requires todo != []
    ensures done + todo == done + [todo[0]] + todo[1..]
  {
  }

  lemma PollStepOk(s0: Pipeline, s: Pipeline, stale: bool)
    requires Inv(s0, s)
    ensures Inv(s0, PollStep(s, stale))
  {
    if !stale && s.outbound != [] {
      MoveFirst(s.polled, s.outbound);
    }
  }

  lemma EngineStepOk(s0: Pipeline, s: Pipeline, stale: bool)
    requires Inv(s0, s)
    ensures Inv(s0, EngineStep(s, stale))
  {
    if s.pc.Emit? && s.pc.pending != [] {
      EmitStepOk(s0, s, stale);
    } else if s.pc.Poll? && !stale && s.inbound != [] {
      TakeMessageOk(s0, s, false);
    } else if s.pc.Drain? && !stale && s.inbound != [] {
      TakeMessageOk(s0, s, true);
    }
  }

  lemma NextOk(s0: Pipeline, s: Pipeline, a: Action)
    requires Inv(s0, s)
    ensures Inv(s0, Next(s, a))
  {
    match a
    case Submit(m, stale) => assert s.processed + s.inbound + [m] == s.processed + (s.inbound + [m]);
    case PollReport(stale) => PollStepOk(s0, s, stale);
    case Stop =>
    case Engine(stale) => EngineStepOk(s0, s, stale);
  }

  lemma {:induction false} AfterOk(s0: Pipeline, acts: seq<Action>)
    requires Init(s0)
    ensures Inv(s0, After(s0, acts))
    decreases |acts|
  {
    if acts != [] {
      AfterOk(s0, acts[..|acts| - 1]);
      NextOk(s0, After(s0, acts[..|acts| - 1]), acts[|acts| - 1]);
    }
  }

  // ----- messages

  /** Under every interleaving the messages processed are a prefix of those accepted; the rest are still queued. */
  lemma ProcessedIsPrefix(s0: Pipeline, acts: seq<Action>)
    requires Init(s0)
    ensures After(s0, acts).processed <= After(s0, acts).accepted
    ensures |After(s0, acts).accepted| - |After(s0, acts).processed| <= s0.inRoom
  {
    AfterOk(s0, acts);
  }

  lemma {:induction false} AfterSplit(s: Pipeline, a: seq<Action>, b: seq<Action>)
    ensures After(s, a + b) == After(After(s, a), b)
    decreases |b|
  {
    if b == [] {
      assert a + b == a;
    } else {
      var n := |b| - 1;
      assert (a + b)[..|a + b| - 1] == a + b[..n];
      AfterSplit(s, a, b[..n]);
    }
  }

  ghost predicate NoSubmit(acts: seq<Action>) {
    forall i :: 0 <= i < |acts| ==> !acts[i].Submit?
  }

  /**
   Without submissions, the exit of an engine that was alive is one poll, and what that poll left queued stays queued.
   */
  lemma {:induction false} ExitPoll(s: Pipeline, acts: seq<Action>) returns (j: nat)
    requires !s.pc.Exited? && NoSubmit(acts) && After(s, acts).pc.Exited?
    ensures j < |acts| && acts[j].Engine? && After(s, acts[..j]).pc.Drain?
    ensures acts[j].stale || After(s, acts[..j]).inbound == []
    ensures After(s, acts).inbound == After(s, acts[..j]).inbound
    decreases |acts|
  {
    var n := |acts| - 1;
    if After(s, acts[..n]).pc.Exited? {
      j := ExitPoll(s, acts[..n]);
      assert acts[..n][..j] == acts[..j];
    } else {
      j := n;
    }
  }

  /**
   Submissions have stopped while the engine was alive, and it has exited. Every accepted message was processed if
   and only if the poll that made it exit found the queue as it was, empty; a fresh poll always does.
   */
  lemma ShutdownExact(s0: Pipeline, before: seq<Action>, rest: seq<Action>) returns (j: nat)
    requires Init(s0) && !After(s0, before).pc.Exited? && NoSubmit(rest)
    requires After(s0, before + rest).pc.Exited?
    ensures j < |rest| && rest[j].Engine? && After(s0, before + rest[..j]).pc.Drain?
    ensures After(s0, before + rest).processed == After(s0, before + rest).accepted
            <==> After(s0, before + rest[..j]).inbound == []
    ensures !rest[j].stale ==> After(s0, before + rest).processed == After(s0, before + rest).accepted
  {
    AfterSplit(s0, before, rest);
    j := ExitPoll(After(s0, before), rest);
    AfterSplit(s0, before, rest[..j]);
    AfterOk(s0, before + rest);
    var s := After(s0, before + rest);
    assert s.inbound == [] <==> s.processed + s.inbound == s.processed;
  }

  /** Position in the shutdown, for a stopped engine. */
  function Rank(pc: Pc): nat {
    match pc
    case Exited => 0
    case Drain => 1
    case Check => 2
    case Poll => 3
    case Emit(pending, _) => 4 + |pending|
  }

  /** Every step of a stopped engine shortens the queue, or keeps it and brings the exit nearer. */
  lemma RankFalls(s: Pipeline, stale: bool)
    requires !s.running && !s.pc.Exited?
    ensures var s' := EngineStep(s, stale);
            && !s'.running
            && (|s'.inbound| < |s.inbound| || (s'.inbound == s.inbound && Rank(s'.pc) < Rank(s.pc)))
  {
  }

  lemma AfterCons(s: Pipeline, a: Action, rest: seq<Action>)
    ensures After(s, [a] + rest) == After(Next(s, a), rest)
  {
    AfterSplit(s, [a], rest);
    assert [a][..0] == [];
  }

  /** Only the engine acts, refusing without need where `stale` says, from step k on. */
  ghost predicate EngineOnly(acts: seq<Action>, stale: nat -> bool, k: nat) {
    forall i {:trigger acts[i]} :: 0 <= i < |acts| ==> acts[i] == Engine(stale(k + i))
  }

  lemma EngineOnlyCons(rest: seq<Action>, stale: nat -> bool, k: nat)
    requires EngineOnly(rest, stale, k + 1)
    ensures EngineOnly([Engine(stale(k))] + rest, stale, k)
  {
    var acts := [Engine(stale(k))] + rest;
    forall i | 0 <= i < |acts|
      ensures acts[i] == Engine(stale(k + i))
    {
      if i > 0 {
        assert acts[i] == rest[i - 1] && k + 1 + (i - 1) == k + i;
      }
    }
  }

  /** A stopped engine left alone reaches its exit, whichever of its queue operations refuse without need. */
  lemma {:induction false} DrainEnds(s: Pipeline, stale: nat -> bool, k: nat) returns (acts: seq<Action>)
    requires !s.running
    ensures EngineOnly(acts, stale, k) && After(s, acts).pc.Exited?
    decreases |s.inbound|, Rank(s.pc)
  {
    if s.pc.Exited? {
      acts := [];
    } else {
      RankFalls(s, stale(k));
      var rest := DrainEnds(EngineStep(s, stale(k)), stale, k + 1);
      AfterCons(s, Engine(stale(k)), rest);
      EngineOnlyCons(rest, stale, k);
      acts := [Engine(stale(k))] + rest;
    }
  }

  // ----- reports

  /** The positions of the reports that found room. */
  function Positions(kept: seq<bool>): seq<nat> {
    if kept == [] then []
    else
      var n := |kept| - 1;
      Positions(kept[..n]) + (if kept[n] then [n] else [])
  }

  ghost predicate Increasing(ks: seq<nat>, bound: nat) {
    && (forall i :: 0 <= i < |ks| ==> ks[i] < bound)
    && (forall i, j :: 0 <= i < j < |ks| ==> ks[i] < ks[j])
  }

  /** The positions are strictly increasing, and are exactly those of the reports that found room. */
  lemma {:induction false} PositionsOk(kept: seq<bool>, k: nat)
    requires k < |kept|
    ensures Increasing(Positions(kept), |kept|)
    ensures k in Positions(kept) <==> kept[k]
    decreases |kept|
  {
    var n := |kept| - 1;
    if n > 0 {
      PositionsOk(kept[..n], if k < n then k else 0);
    }
  }

  lemma {:induction false} KeptAt(rs: seq<Routed>, kept: seq<bool>)
    requires |rs| == |kept| && Increasing(Positions(kept), |kept|)
    ensures |Kept(rs, kept)| == |Positions(kept)|
    ensures forall i :: 0 <= i < |Positions(kept)| ==> Kept(rs, kept)[i] == rs[Positions(kept)[i]]
    decreases |rs|
  {
    if rs != [] {
      var n := |rs| - 1;
      if n > 0 {
        PositionsOk(kept[..n], 0);
      }
      KeptAt(rs[..n], kept[..n]);
    }
  }

  lemma KeptIsSubsequence(rs: seq<Routed>, kept: seq<bool>)
    requires |rs| == |kept|
    ensures Increasing(Positions(kept), |rs|) && |Kept(rs, kept)| == |Positions(kept)|
    ensures forall i :: 0 <= i < |Positions(kept)| ==> Kept(rs, kept)[i] == rs[Positions(kept)[i]]
    ensures forall k :: 0 <= k < |rs| ==> (k in Positions(kept) <==> kept[k])
  {
    if rs != [] {
      PositionsOk(kept, 0);
    }
    KeptAt(rs, kept);
    forall k | 0 <= k < |rs|
      ensures k in Positions(kept) <==> kept[k]
    {
      PositionsOk(kept, k);
    }
  }

  /**
   Polled reports are an in-order subsequence of the reports generated, which follow the messages processed; the
   positions missing are those of dropped reports and of reports still queued.
   */
  lemma PolledInOrder(s0: Pipeline, acts: seq<Action>)
    requires Init(s0)
    ensures var s := After(s0, acts);
            && s.generated <= AllReports(s0.caps, s0.core, s.processed)
            && |s.kept| == |s.generated|
            && var ks := Positions(s.kept);
               && Increasing(ks, |s.generated|)
               && (forall k :: 0 <= k < |s.generated| ==> (k in ks <==> s.kept[k]))
               && |s.polled| + |s.outbound| == |ks|
               && (forall i :: 0 <= i < |s.polled| ==> s.polled[i] == s.generated[ks[i]])
  {
    AfterOk(s0, acts);
    var s := After(s0, acts);
    KeptIsSubsequence(s.generated, s.kept);
    var ks, all := Positions(s.kept), Kept(s.generated, s.kept);
    forall i | 0 <= i < |s.polled|
      ensures s.polled[i] == s.generated[ks[i]]
    {
      assert all[i] == s.polled[i];
    }
  }

  /** A step settles the fate of at most one report, and loses it only when it finds no room or is stale. */
  lemma NextKept(s: Pipeline, a: Action)
    requires |s.kept| == |s.generated| && |s.outbound| <= s.outRoom
    ensures s.kept <= Next(s, a).kept && |Next(s, a).kept| <= |s.kept| + 1
    ensures |Next(s, a).kept| > |s.kept| && !Next(s, a).kept[|s.kept|] ==>
              a.Engine? && s.pc.Emit? && s.pc.pending != [] && (a.stale || |s.outbound| == s.outRoom)
  {
  }

  /** What a step does to the messages: accepted ones stay accepted, and an exited engine processes no more. */
  lemma NextAccepted(s: Pipeline, a: Action)
    ensures s.accepted <= Next(s, a).accepted
    ensures s.pc.Exited? ==> Next(s, a).pc.Exited? && Next(s, a).processed == s.processed
  {
  }

  /** A report is lost only in an engine step that found the outbound queue full, or refused on a stale load. */
  lemma {:induction false} DropsOnlyWhenFull(s0: Pipeline, acts: seq<Action>, i: nat) returns (j: nat)
    requires Init(s0) && i < |After(s0, acts).kept| && !After(s0, acts).kept[i]
    ensures j < |acts| && acts[j].Engine?
    ensures var s := After(s0, acts[..j]);
            && |s.generated| == i && s.pc.Emit? && s.pc.pending != []
            && (acts[j].stale || |s.outbound| == s0.outRoom)
    decreases |acts|
  {
    var n := |acts| - 1;
    var s := After(s0, acts[..n]);
    AfterOk(s0, acts[..n]);
    NextKept(s, acts[n]);
    if i < |s.kept| {
      j := DropsOnlyWhenFull(s0, acts[..n], i);
      assert acts[..n][..j] == acts[..j];
    } else {
      j := n;
    }
  }

  // ----- books

  /** The messages as the engine saw them, synthetic ids filled in. */
  function ResolvedAll(caps: Caps, c: Core, ms: seq<Msg>): seq<Msg> {
    if ms == [] then []
    else
      var n := |ms| - 1;
      ResolvedAll(caps, c, ms[..n]) + [Resolved(ProcessAll(caps, c, ms[..n]), ms[n])]
  }

  /** The book events among the messages for one symbol. */
  function EventsFor(sym: nat, ms: seq<Msg>): seq<Event> {
    if ms == [] then []
    else
      var n := |ms| - 1;
      EventsFor(sym, ms[..n]) + (if ms[n].symbol == sym && !ms[n].kind.Heartbeat? then [EventOf(ms[n])] else [])
  }

  lemma {:induction false} ResolvedCount(caps: Caps, c: Core, ms: seq<Msg>)
    ensures |ResolvedAll(caps, c, ms)| == |ms|
    decreases |ms|
  {
    if ms != [] {
      ResolvedCount(caps, c, ms[..|ms| - 1]);
    }
  }

  /** One more message adds its event to its own symbol's, and nothing to any other's. */
  lemma EventsSnoc(caps: Caps, c: Core, ms: seq<Msg>, sym: nat)
    requires ms != []
    ensures var n := |ms| - 1;
            var es := EventsFor(sym, ResolvedAll(caps, c, ms[..n]));
            EventsFor(sym, ResolvedAll(caps, c, ms))
            == if ms[n].symbol == sym && !ms[n].kind.Heartbeat?
               then es + [EventOf(Resolved(ProcessAll(caps, c, ms[..n]), ms[n]))] else es
  {
    var n := |ms| - 1;
    ResolvedCount(caps, c, ms[..n]);
    var rs := ResolvedAll(caps, c, ms[..n]);
    assert (rs + [Resolved(ProcessAll(caps, c, ms[..n]), ms[n])])[..n] == rs;
  }

  lemma RunAppend(caps: Caps, b: RefBook, es: seq<Event>, e: Event)
    ensures Run(caps, b, es + [e]) == Apply(caps, Run(caps, b, es), e)
  {
    assert (es + [e])[..|es|] == es;
  }

  /** The engine's book of a symbol is the reference book run over that symbol's messages. */
  lemma {:induction false} BookIsFold(caps: Caps, c: Core, ms: seq<Msg>, sym: nat)
    requires sym in c.books && sym < MAX_SYMBOLS
    ensures ProcessAll(caps, c, ms).books.Keys == c.books.Keys
    ensures ProcessAll(caps, c, ms).books[sym] == Run(caps, c.books[sym], EventsFor(sym, ResolvedAll(caps, c, ms)))
    decreases |ms|
  {
    if ms != [] {
      var n := |ms| - 1;
      BookIsFold(caps, c, ms[..n], sym);
      EventsSnoc(caps, c, ms, sym);
      if ms[n].symbol == sym && !ms[n].kind.Heartbeat? {
        RunAppend(caps, c.books[sym], EventsFor(sym, ResolvedAll(caps, c, ms[..n])),
                  EventOf(Resolved(ProcessAll(caps, c, ms[..n]), ms[n])));
      }
    }
  }

  ghost predicate ExplicitIds(ms: seq<Msg>) {
    forall i :: 0 <= i < |ms| && ms[i].kind.NewOrder? ==> ms[i].orderId != 0
  }

  lemma {:induction false} ExplicitIdsStay(caps: Caps, c: Core, ms: seq<Msg>)
    requires ExplicitIds(ms)
    ensures ResolvedAll(caps, c, ms) == ms
    decreases |ms|
  {
    if ms != [] {
      ExplicitIdsStay(caps, c, ms[..|ms| - 1]);
    }
  }

  /**
   Under every interleaving each registered book is the reference book run over its own symbol's processed
   messages: with ids filled in where they were zero, and as they came when none was.
   */
  lemma BooksFollowMessages(s0: Pipeline, acts: seq<Action>, sym: nat)
    requires Init(s0) && sym in s0.core.books
    ensures var s := After(s0, acts);
            && sym in s.core.books
            && s.core.books[sym] == Run(s0.caps, EMPTY_BOOK, EventsFor(sym, ResolvedAll(s0.caps, s0.core, s.processed)))
            && (ExplicitIds(s.processed) ==>
                  s.core.books[sym] == Run(s0.caps, EMPTY_BOOK, EventsFor(sym, s.processed)))
  {
    AfterOk(s0, acts);
    var s := After(s0, acts);
    BookIsFold(s0.caps, s0.core, s.processed, sym);
    if ExplicitIds(s.processed) {
      ExplicitIdsStay(s0.caps, s0.core, s.processed);
    }
  }
}
