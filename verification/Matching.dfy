/** The matching loop: sweep the best level of the passive side, oldest order first, level after level. */
module Matching {
  import opened Types
  import opened RefModel
  import opened RefLaws
  import opened OrderIndexing
  import opened BookLaws
  import opened Sides
  import opened SlotPools
  import opened HalfBook

  /** The aggressor, for rem, executes fill f against the first order of qs, which leaves it rem' and the side qs'. */
  ghost predicate Executes(o: Order, rem: nat, qs: seq<Level>, rem': nat, qs': seq<Level>, f: FillRec) {
    && qs != [] && qs[0].queue != [] && rem > 0 && !Beyond(o, qs[0].price)
    && var h := qs[0].queue[0];
       && !SelfTrade(o, h.account)
       && f == FillRec(o.id, h.id, qs[0].price, Min(rem, h.rem)) && rem' == rem - f.qty
       && qs' == (if rem < h.rem then Reduced(qs, rem) else Popped(qs))
  }

  /** A step of the matching loop: an execution, or the removal of an exhausted best level. */
  datatype Step = Exec(f: FillRec) | Drop

  ghost predicate Steps(o: Order, step: Step, r: nat, q: seq<Level>, rs: seq<ExecutionReport>,
                        rem: nat, qs: seq<Level>, reports: seq<ExecutionReport>)
  {
    match step
    case Exec(f) => Executes(o, r, q, rem, qs, f) && reports == rs + [ReportFor(o, rem, f)]
    case Drop => q != [] && q[0].queue == [] && rem == r && qs == q[1..] && reports == rs
  }

  /** From quantity qty and side qs0, the steps of the trace lead to rem and qs and emit the reports. */
  ghost predicate Reaches(o: Order, qty: nat, qs0: seq<Level>, trace: seq<Step>, rem: nat, qs: seq<Level>,
                          reports: seq<ExecutionReport>)
    decreases |trace|
  {
    if trace == [] then rem == qty && qs == qs0 && reports == []
    else
      var n := |trace| - 1;
      exists r: nat, q, rs ::
        Reaches(o, qty, qs0, trace[..n], r, q, rs) && Steps(o, trace[n], r, q, rs, rem, qs, reports)
  }

  lemma ReachStep(o: Order, qty: nat, qs0: seq<Level>, trace: seq<Step>, r: nat, q: seq<Level>,
                  rs: seq<ExecutionReport>,
                step: Step, rem: nat, qs: seq<Level>, reports: seq<ExecutionReport>)
    requires Reaches(o, qty, qs0, trace, r, q, rs) && Steps(o, step, r, q, rs, rem, qs, reports)
    ensures Reaches(o, qty, qs0, trace + [step], rem, qs, reports)
  {
    assert (trace + [step])[..|trace|] == trace;
  }

  function Fills(trace: seq<Step>): seq<FillRec> {
    if trace == [] then []
    else
      var n := |trace| - 1;
      if trace[n].Exec? then Fills(trace[..n]) + [trace[n].f] else Fills(trace[..n])
  }

  /** One execution is one step of the reference sweep, which continues from the side it leaves. */
  lemma SweepStep(o: Order, rem: nat, qs: seq<Level>, rem': nat, qs': seq<Level>, f: FillRec)
    requires Executes(o, rem, qs, rem', qs', f)
    ensures Sweep(o, rem, qs) == Sweep(o, rem', qs').After([f])
  {
    if rem < qs[0].queue[0].rem {
      assert [f] + [] == [f];
    }
  }

  /** A run of steps is a beginning of the reference sweep, and its reports are those of its fills. */
  lemma {:induction false} ReachSweeps(o: Order, qty: nat, qs0: seq<Level>, trace: seq<Step>, rem: nat, qs: seq<Level>,
                                       reports: seq<ExecutionReport>)
    requires Reaches(o, qty, qs0, trace, rem, qs, reports)
    ensures Sweep(o, qty, qs0) == Sweep(o, rem, qs).After(Fills(trace))
    ensures rem == qty - FilledQty(Fills(trace)) && reports == ReportsOf(o, qty, Fills(trace))
    decreases |trace|
  {
    if trace == [] {
      assert Sweep(o, qty, qs0).After([]).fills == Sweep(o, qty, qs0).fills;
    } else {
      var n := |trace| - 1;
      var r: nat, q, rs :| Reaches(o, qty, qs0, trace[..n], r, q, rs) && Steps(o, trace[n], r, q, rs, rem, qs, reports);
      ReachSweeps(o, qty, qs0, trace[..n], r, q, rs);
      StepSweeps(o, qty, Fills(trace[..n]), trace[n], r, q, rs, rem, qs, reports);
    }
  }

  /** After the fills so far, one more step leaves the same sweep ahead. */
  lemma StepSweeps(o: Order, qty: nat, fills: seq<FillRec>, step: Step, r: nat, q: seq<Level>, rs: seq<ExecutionReport>,
                   rem: nat, qs: seq<Level>, reports: seq<ExecutionReport>)
    requires Steps(o, step, r, q, rs, rem, qs, reports)
    requires r == qty - FilledQty(fills) && rs == ReportsOf(o, qty, fills)
    ensures var fills' := if step.Exec? then fills + [step.f] else fills;
            && Sweep(o, r, q).After(fills) == Sweep(o, rem, qs).After(fills')
            && rem == qty - FilledQty(fills') && reports == ReportsOf(o, qty, fills')
  {
    if step.Exec? {
      SweepStep(o, r, q, rem, qs, step.f);
      AfterAfter(Sweep(o, rem, qs), fills, [step.f]);
      ReportAppend(o, qty, fills, step.f);
    }
  }

  lemma AfterAfter(r: SweepResult, a: seq<FillRec>, b: seq<FillRec>)
    ensures r.After(b).After(a) == r.After(a + b)
  {
    assert a + (b + r.fills) == (a + b) + r.fills;
  }

  /** Appending a fill appends its report. */
  lemma ReportAppend(o: Order, qty: int, fills: seq<FillRec>, f: FillRec)
    ensures FilledQty(fills + [f]) == FilledQty(fills) + f.qty
    ensures ReportsOf(o, qty, fills + [f])
            == ReportsOf(o, qty, fills) + [ReportFor(o, qty - FilledQty(fills) - f.qty, f)]
  {
    assert (fills + [f])[..|fills|] == fills;
  }

  /** Read the first order of the best level. */
  method PeekHead(side: Side, other: Side, slots: SlotPool, index: OrderIndex, onBids: bool)
    returns (price: int, id: nat, qty: nat, account: nat)
    requires Intact(side, other, slots, index) && Consistent(side, other, slots, index, onBids) && 0 < side.count
    requires side.queues[0].queue != []
    ensures var h := side.queues[0].queue[0];
            price == side.queues[0].price && id == h.id && qty == h.rem && account == h.account
  {
    HeadSlot(side, other, slots, index, onBids);
    var slot := side.heads[0];
    price, id, qty, account := side.prices[0], slots.ids[slot], slots.qtys[slot], slots.accounts[slot];
  }

  method PopIfExhausted(side: Side, other: Side, slots: SlotPool, index: OrderIndex, onBids: bool)
    requires Intact(side, other, slots, index) && Consistent(side, other, slots, index, onBids) && 0 < side.count
    requires side.queues[0].queue != []
    modifies side`levels, side`chains, side`queues, side.heads, side.tails, side.counts
    modifies slots, slots.prevs, slots.freeNexts, index, index.table
    ensures Intact(side, other, slots, index) && Consistent(side, other, slots, index, onBids)
    ensures side.queues == if old(side.queues)[0].queue[0].rem == 0 then Popped(old(side.queues)) else old(side.queues)
  {
    HeadSlot(side, other, slots, index, onBids);
    if slots.qtys[side.heads[0]] == 0 {
      PopHead(side, other, slots, index, onBids);
    }
  }

  lemma PoppedReduced(qs: seq<Level>, fill: nat)
    requires qs != [] && qs[0].queue != [] && fill <= qs[0].queue[0].rem
    ensures Popped(Reduced(qs, fill)) == Popped(qs)
  {
  }

  /** Execute against the first order of the best level; an exhausted order is dequeued. */
  method ExecuteHead(side: Side, other: Side, slots: SlotPool, index: OrderIndex, onBids: bool, o: Order, rem: nat)
    returns (rem': nat, report: ExecutionReport, ghost f: FillRec)
    requires Intact(side, other, slots, index) && Consistent(side, other, slots, index, onBids) && 0 < side.count
    requires side.queues[0].queue != [] && rem > 0 && !Beyond(o, side.queues[0].price)
    requires !SelfTrade(o, side.queues[0].queue[0].account)
    modifies side`levels, side`chains, side`queues, side.heads, side.tails, side.counts, side.qtys
    modifies slots, slots.prevs, slots.freeNexts, slots.qtys, index, index.table
    ensures Intact(side, other, slots, index) && Consistent(side, other, slots, index, onBids)
    ensures Executes(o, rem, old(side.queues), rem', side.queues, f) && report == ReportFor(o, rem', f)
  {
    var price, id, qty, _ := PeekHead(side, other, slots, index, onBids);
    var fill := Min(rem, qty);
    f, rem' := FillRec(o.id, id, price, fill), rem - fill;
    report := ExecutionReport(o.id, id, price, fill, rem', o.dir, if rem' == 0 then Fill else PartialFill);
    PoppedReduced(side.queues, fill);
    HitHead(side, other, slots, index, onBids, fill);
    PopIfExhausted(side, other, slots, index, onBids);
  }

  lemma ExecutesKeeps(o: Order, rem: nat, qs: seq<Level>, rem': nat, qs': seq<Level>, f: FillRec)
    requires Executes(o, rem, qs, rem', qs', f) && TailFull(qs)
    ensures |qs'| == |qs| && qs'[0].price == qs[0].price && TailFull(qs')
    ensures rem' + |qs'[0].queue| < rem + |qs[0].queue|
  {
  }

  /** One iteration on the best level: stop at one of the aggressor's own orders, else execute. */
  method MatchStep(side: Side, other: Side, slots: SlotPool, index: OrderIndex, onBids: bool, o: Order, rem: nat,
                   reports: seq<ExecutionReport>)
    returns (walled: bool, more: bool, rem': nat, reports': seq<ExecutionReport>, ghost f: FillRec)
    requires Intact(side, other, slots, index) && Consistent(side, other, slots, index, onBids) && 0 < side.count
    requires side.queues[0].queue != [] && rem > 0 && !Beyond(o, side.queues[0].price)
    modifies side`levels, side`chains, side`queues, side.heads, side.tails, side.counts, side.qtys
    modifies slots, slots.prevs, slots.freeNexts, slots.qtys, index, index.table
    ensures Intact(side, other, slots, index) && Consistent(side, other, slots, index, onBids)
    ensures walled ==> side.queues == old(side.queues) && SelfTrade(o, side.queues[0].queue[0].account)
    ensures !walled ==> Steps(o, Exec(f), rem, old(side.queues), reports, rem', side.queues, reports')
    ensures more <==> side.queues[0].queue != []
  {
    HeadSlot(side, other, slots, index, onBids);
    walled := SelfTrade(o, slots.accounts[side.heads[0]]);
    if walled {
      more, rem', reports', f := true, rem, reports, FillRec(0, 0, 0, 0);
    } else {
      var report;
      rem', report, f := ExecuteHead(side, other, slots, index, onBids, o, rem);
      reports' := reports + [report];
      HeadSlot(side, other, slots, index, onBids);
      more := side.heads[0] != NULL_IDX;
    }
  }

  /** Sweep the best level until it or the aggressor is exhausted, or one of the aggressor's own orders is next. */
  method MatchLevel(side: Side, other: Side, slots: SlotPool, index: OrderIndex, onBids: bool, o: Order,
                    rem0: nat, reports0: seq<ExecutionReport>, ghost qty: nat, ghost qs0: seq<Level>,
                    ghost trace0: seq<Step>)
    returns (rem: nat, walled: bool, reports: seq<ExecutionReport>, ghost trace: seq<Step>)
    requires Intact(side, other, slots, index) && Consistent(side, other, slots, index, onBids) && 0 < side.count
    requires TailFull(side.queues) && !Beyond(o, side.queues[0].price)
    requires Reaches(o, qty, qs0, trace0, rem0, side.queues, reports0)
    modifies side`levels, side`chains, side`queues, side.heads, side.tails, side.counts, side.qtys
    modifies slots, slots.prevs, slots.freeNexts, slots.qtys, index, index.table
    ensures Intact(side, other, slots, index) && Consistent(side, other, slots, index, onBids)
    ensures TailFull(side.queues) && Reaches(o, qty, qs0, trace, rem, side.queues, reports)
    ensures if walled then rem > 0 && side.queues[0].queue != [] && SelfTrade(o, side.queues[0].queue[0].account)
            else rem == 0 || side.queues[0].queue == []
    ensures side.queues[0].price == old(side.queues)[0].price
  {
    rem, walled, reports, trace := rem0, false, reports0, trace0;
    HeadSlot(side, other, slots, index, onBids);
    var more := side.heads[0] != NULL_IDX;
    while more && rem > 0
      invariant 0 < side.count && Intact(side, other, slots, index) && Consistent(side, other, slots, index, onBids)
      invariant TailFull(side.queues) && side.queues[0].price == old(side.queues)[0].price
      invariant Reaches(o, qty, qs0, trace, rem, side.queues, reports)
      invariant more <==> side.queues[0].queue != []
      decreases rem + |side.queues[0].queue|
    {
      ghost var qs := side.queues;
      var rem', reports';
      ghost var f;
      walled, more, rem', reports', f := MatchStep(side, other, slots, index, onBids, o, rem, reports);
      if walled {
        return;
      }
      ReachStep(o, qty, qs0, trace, rem, qs, reports, Exec(f), rem', side.queues, reports');
      ExecutesKeeps(o, rem, qs, rem', side.queues, f);
      rem, reports, trace := rem', reports', trace + [Exec(f)];
    }
  }

  /** Remove the best level once its last order is gone. */
  method RemoveIfExhausted(side: Side, other: Side, slots: SlotPool, index: OrderIndex, onBids: bool)
    requires Intact(side, other, slots, index) && Consistent(side, other, slots, index, onBids) && 0 < side.count
    requires TailFull(side.queues)
    modifies side, side.prices, side.qtys, side.counts, side.heads, side.tails
    ensures Intact(side, other, slots, index) && Consistent(side, other, slots, index, onBids)
    ensures NoEmptyLevel(side.queues)
    ensures side.queues == if old(side.queues)[0].queue == [] then old(side.queues)[1..] else old(side.queues)
  {
    HeadSlot(side, other, slots, index, onBids);
    if side.counts[0] == 0 {
      CloseBest(slots.view, onBids, side.State(), other.State(), index.bindings);
      side.RemoveLevel(0);
    }
  }

  /** One pass of the outer loop: stop at a refused price, else sweep the best level and remove it if exhausted. */
  method MatchBest(side: Side, other: Side, slots: SlotPool, index: OrderIndex, onBids: bool, o: Order,
                   rem0: nat, reports0: seq<ExecutionReport>, ghost qty: nat, ghost qs0: seq<Level>,
                   ghost trace0: seq<Step>)
    returns (stop: bool, rem: nat, walled: bool, reports: seq<ExecutionReport>, ghost trace: seq<Step>)
    requires Intact(side, other, slots, index) && Consistent(side, other, slots, index, onBids)
    requires NoEmptyLevel(side.queues)
    requires rem0 > 0 && 0 < side.count && Reaches(o, qty, qs0, trace0, rem0, side.queues, reports0)
    modifies side, side.prices, side.qtys, side.counts, side.heads, side.tails
    modifies slots, slots.prevs, slots.freeNexts, slots.qtys, index, index.table
    ensures Intact(side, other, slots, index) && Consistent(side, other, slots, index, onBids)
    ensures NoEmptyLevel(side.queues)
    ensures Reaches(o, qty, qs0, trace, rem, side.queues, reports)
    ensures stop || walled ==> Stuck(o, rem, side.queues, walled)
    ensures !stop && !walled ==> side.count < old(side.count) || (side.count == old(side.count) && rem == 0)
  {
    rem, walled, reports, trace := rem0, false, reports0, trace0;
    HeadSlot(side, other, slots, index, onBids);
    stop := Beyond(o, side.prices[0]);
    if stop {
      return;
    }
    rem, walled, reports, trace := MatchLevel(side, other, slots, index, onBids, o, rem0, reports0, qty, qs0, trace0);
    if !walled {
      ghost var qs := side.queues;
      RemoveIfExhausted(side, other, slots, index, onBids);
      if qs[0].queue == [] {
        ReachStep(o, qty, qs0, trace, rem, qs, reports, Drop, rem, side.queues, reports);
        trace := trace + [Drop];
      }
    }
  }

  /** The best order cannot be executed: its price is refused, or it is the aggressor's own. */
  ghost predicate Stuck(o: Order, rem: nat, qs: seq<Level>, walled: bool) {
    && rem > 0 && qs != [] && qs[0].queue != []
    && if walled then !Beyond(o, qs[0].price) && SelfTrade(o, qs[0].queue[0].account) else Beyond(o, qs[0].price)
  }

  /** Where matching stops, so does the reference sweep. */
  lemma SweepStops(o: Order, rem: nat, qs: seq<Level>, walled: bool, fills: seq<FillRec>)
    requires NoEmptyLevel(qs) && (Stuck(o, rem, qs, walled) || (!walled && (rem == 0 || qs == [])))
    ensures Sweep(o, rem, qs).After(fills) == SweepResult(qs, fills, rem, walled)
  {
    assert fills + [] == fills;
  }

  /** The whole matching loop performs exactly the reference sweep and reports exactly its fills. */
  method TryMatch(side: Side, other: Side, slots: SlotPool, index: OrderIndex, onBids: bool, o: Order)
    returns (rem: nat, walled: bool, reports: seq<ExecutionReport>)
    requires Intact(side, other, slots, index) && Consistent(side, other, slots, index, onBids)
    requires NoEmptyLevel(side.queues)
    modifies side, side.prices, side.qtys, side.counts, side.heads, side.tails
    modifies slots, slots.prevs, slots.freeNexts, slots.qtys, index, index.table
    ensures Intact(side, other, slots, index) && Consistent(side, other, slots, index, onBids)
    ensures NoEmptyLevel(side.queues)
    ensures var s := Sweep(o, o.qty, old(side.queues));
            side.queues == s.side && rem == s.rem && walled == s.walled && reports == ReportsOf(o, o.qty, s.fills)
  {
    rem, walled, reports := o.qty, false, [];
    ghost var qs0, trace := side.queues, [];
    var stop := false;
    while !stop && !walled && rem > 0 && side.count > 0
      invariant Intact(side, other, slots, index) && Consistent(side, other, slots, index, onBids)
      invariant NoEmptyLevel(side.queues) && Reaches(o, o.qty, qs0, trace, rem, side.queues, reports)
      invariant stop || walled ==> Stuck(o, rem, side.queues, walled)
      decreases !stop && !walled, side.count, rem
    {
      stop, rem, walled, reports, trace :=
        MatchBest(side, other, slots, index, onBids, o, rem, reports, o.qty, qs0, trace);
    }
    ReachSweeps(o, o.qty, qs0, trace, rem, side.queues, reports);
    SweepStops(o, rem, side.queues, walled, Fills(trace));
  }
}
