/** Changing the quantity of a resting order: an increase requeues it, a decrease keeps its place. */
module Modifying {
  import opened Types
  import opened RefModel
  import opened RefLaws
  import opened OrderIndexing
  import opened BookRep
  import opened SideRep
  import opened BookOps
  import opened BookLaws
  import opened Sides
  import opened SlotPools
  import opened Surgery
  import opened HalfBook

  /** The list ends left behind by an unlinked slot are those of a list again. */
  lemma UnlinkedEnds(p: Pool, onBids: bool, s: SideState, o: SideState, m: map<nat, Place>, i: nat, k: nat)
    requires BookOk(p, onBids, s, o, m) && i < |s.qs| && k < |s.chains[i]|
    ensures s.chains[i][k] < |p|
    ensures var rep := UnlinkRep(s.reps[i], p[s.chains[i][k]]);
            if rep.head == NULL_IDX then rep.tail == NULL_IDX else rep.tail < |p|
  {
    assert LevelAt(p, TagOf(onBids), s, i);
    UnlinkEnds(p, s.chains[i], s.reps[i].head, s.reps[i].tail, k);
  }

  method RaiseOrder(side: Side, other: Side, slots: SlotPool, index: OrderIndex, onBids: bool,
                    lvl: nat, slot: nat, qty: nat, ghost k: nat, ghost stamp: nat)
    requires Intact(side, other, slots, index) && Consistent(side, other, slots, index, onBids)
    requires lvl < side.count && k < |side.chains[lvl]| && side.chains[lvl][k] == slot
    modifies side, side.heads, side.tails, side.qtys, slots`view, slots.qtys, slots.nexts, slots.prevs
    ensures Intact(side, other, slots, index) && Consistent(side, other, slots, index, onBids)
    ensures |old(side.chains)[lvl]| == |old(side.queues)[lvl].queue|
    ensures var qs := old(side.queues);
            side.queues == qs[lvl := qs[lvl].(queue := RequeuedQueue(qs[lvl].queue, k, qty, stamp))]
  {
    RequeueBook(slots.view, onBids, side.State(), other.State(), index.bindings, lvl, k, qty, stamp);
    UnlinkedEnds(slots.view, onBids, side.State(), other.State(), index.bindings, lvl, k);
    CountPut(side.queues, lvl, side.queues[lvl].(queue := RequeuedQueue(side.queues[lvl].queue, k, qty, stamp)));
    Requeue(side, slots, lvl, slot, qty, k, stamp);
  }

  method LowerOrder(side: Side, other: Side, slots: SlotPool, index: OrderIndex, onBids: bool,
                    lvl: nat, slot: nat, qty: nat, ghost k: nat)
    requires Intact(side, other, slots, index) && Consistent(side, other, slots, index, onBids)
    requires lvl < side.count && k < |side.chains[lvl]| && side.chains[lvl][k] == slot
    modifies side`levels, side`queues, side.qtys, slots`view, slots.qtys
    ensures Intact(side, other, slots, index) && Consistent(side, other, slots, index, onBids)
    ensures |old(side.chains)[lvl]| == |old(side.queues)[lvl].queue|
    ensures var qs := old(side.queues);
            side.queues == qs[lvl := qs[lvl].(queue := qs[lvl].queue[k := qs[lvl].queue[k].(rem := qty)])]
  {
    QtyBook(slots.view, onBids, side.State(), other.State(), index.bindings, lvl, k, qty);
    ghost var q := side.queues[lvl].queue;
    CountPut(side.queues, lvl, side.queues[lvl].(queue := q[k := q[k].(rem := qty)]));
    ChangeQty(side, slots, lvl, slot, qty, k);
  }

  /** Lowering to zero and removing is removing. */
  lemma LoweredOut(qs: seq<Level>, i: nat, k: nat)
    requires i < |qs| && k < |qs[i].queue| && NoEmptyLevel(qs)
    ensures var qs' := qs[i := qs[i].(queue := qs[i].queue[k := qs[i].queue[k].(rem := 0)])];
            && NoEmptyLevel(qs')
            && PutQueue(qs', i, RemoveAt(qs'[i].queue, k)) == PutQueue(qs, i, RemoveAt(qs[i].queue, k))
  {
    var qs' := qs[i := qs[i].(queue := qs[i].queue[k := qs[i].queue[k].(rem := 0)])];
    assert RemoveAt(qs'[i].queue, k) == RemoveAt(qs[i].queue, k);
    assert RemoveAt(qs', i) == RemoveAt(qs, i);
  }

  method LowerToZero(side: Side, other: Side, slots: SlotPool, index: OrderIndex, onBids: bool, lvl: nat, slot: nat,
                     ghost k: nat)
    requires Intact(side, other, slots, index) && Consistent(side, other, slots, index, onBids)
    requires NoEmptyLevel(side.queues) && lvl < side.count && k < |side.chains[lvl]| && side.chains[lvl][k] == slot
    modifies side, side.prices, side.qtys, side.counts, side.heads, side.tails
    modifies slots, slots.qtys, slots.nexts, slots.prevs, slots.freeNexts, index, index.table
    ensures Intact(side, other, slots, index) && Consistent(side, other, slots, index, onBids)
    ensures NoEmptyLevel(side.queues)
    ensures |old(side.chains)[lvl]| == |old(side.queues)[lvl].queue|
    ensures side.queues == PutQueue(old(side.queues), lvl, RemoveAt(old(side.queues)[lvl].queue, k))
  {
    ghost var qs := side.queues;
    LowerOrder(side, other, slots, index, onBids, lvl, slot, 0, k);
    LoweredOut(qs, lvl, k);
    DropOrder(side, other, slots, index, onBids, lvl, slot, k);
  }

  /** Change a resting order's quantity exactly as the reference queue does. */
  method ModifyResting(side: Side, other: Side, slots: SlotPool, index: OrderIndex, onBids: bool,
                       lvl: nat, slot: nat, qty: nat, ghost k: nat, ghost stamp: nat)
    requires Intact(side, other, slots, index) && Consistent(side, other, slots, index, onBids)
    requires NoEmptyLevel(side.queues) && lvl < side.count && k < |side.chains[lvl]| && side.chains[lvl][k] == slot
    requires k < |side.queues[lvl].queue| ==> side.queues[lvl].queue[k].rem > 0
    modifies side, side.prices, side.qtys, side.counts, side.heads, side.tails
    modifies slots, slots.qtys, slots.nexts, slots.prevs, slots.freeNexts, index, index.table
    ensures Intact(side, other, slots, index) && Consistent(side, other, slots, index, onBids)
    ensures |old(side.chains)[lvl]| == |old(side.queues)[lvl].queue|
    ensures side.queues == PutQueue(old(side.queues), lvl, ModifyQueue(old(side.queues)[lvl].queue, k, qty, stamp))
  {
    OrdersAt(slots.view, onBids, side.State(), other.State(), lvl);
    var oldQty := slots.qtys[slot];
    assert slots.view[slot].qty == oldQty;
    if qty > oldQty {
      RaiseOrder(side, other, slots, index, onBids, lvl, slot, qty, k, stamp);
    } else if qty < oldQty {
      if qty == 0 {
        LowerToZero(side, other, slots, index, onBids, lvl, slot, k);
      } else {
        LowerOrder(side, other, slots, index, onBids, lvl, slot, qty, k);
      }
    } else {
      ghost var q := side.queues[lvl].queue;
      assert q[k := q[k].(rem := qty)] == q && side.queues[lvl := side.queues[lvl].(queue := q)] == side.queues;
    }
  }

  // ----- by id

  /** The bound slot of an id is at (lvl, k), where the reference search finds the id too. */
  lemma FindBound(p: Pool, onBids: bool, s: SideState, o: SideState, m: map<nat, Place>, id: nat)
    returns (i: nat, k: nat)
    requires BookOk(p, onBids, s, o, m) && id in m && m[id].onBids == onBids
    ensures i < |s.qs| && k < |s.chains[i]| == |s.qs[i].queue| && s.chains[i][k] == m[id].slot < |p|
    ensures p[m[id].slot].price == s.reps[i].price
    ensures Holds(s.qs, id) && !Holds(o.qs, id) && LevelOf(s.qs, id) == i && IndexOf(s.qs[i].queue, id) == k
    ensures forall j :: 0 <= j < |s.reps| && s.reps[j].price == s.reps[i].price ==> j == i
  {
    assert Leads(p, m, id);
    i, k := Locate(p, TagOf(onBids), s, m[id].slot);
    FoundHere(p, onBids, s, o, m, i, k);
    forall j | 0 <= j < |s.reps| && s.reps[j].price == s.reps[i].price
      ensures j == i
    {
      assert LevelAt(p, TagOf(onBids), s, j);
    }
  }

  /** Cancel the order bound to id on this side; its level is always found. */
  method CancelOn(side: Side, other: Side, slots: SlotPool, index: OrderIndex, onBids: bool, slot: nat, ghost id: nat)
    requires Intact(side, other, slots, index) && Consistent(side, other, slots, index, onBids)
    requires NoEmptyLevel(side.queues)
    requires id in index.bindings && index.bindings[id] == Place(slot, onBids)
    modifies side, side.prices, side.qtys, side.counts, side.heads, side.tails
    modifies slots, slots.nexts, slots.prevs, slots.freeNexts, index, index.table
    ensures Intact(side, other, slots, index) && Consistent(side, other, slots, index, onBids)
    ensures Holds(old(side.queues), id) && !Holds(other.queues, id)
    ensures side.queues == EraseFrom(old(side.queues), id)
  {
    ghost var i, k := FindBound(slots.view, onBids, side.State(), other.State(), index.bindings, id);
    assert slots.view[slot].price == slots.prices[slot];
    var lvl := side.FindLevel(slots.prices[slot]);
    if lvl < 0 {
      assert false;
    }
    DropOrder(side, other, slots, index, onBids, lvl, slot, k);
  }

  /** Modify the order bound to id on this side; its level is always found. */
  method ModifyOn(side: Side, other: Side, slots: SlotPool, index: OrderIndex, onBids: bool, slot: nat, qty: nat,
                  ghost id: nat, ghost stamp: nat)
    requires Intact(side, other, slots, index) && Consistent(side, other, slots, index, onBids)
    requires NoEmptyLevel(side.queues)
    requires AllPositive(side.queues)
    requires id in index.bindings && index.bindings[id] == Place(slot, onBids)
    modifies side, side.prices, side.qtys, side.counts, side.heads, side.tails
    modifies slots, slots.qtys, slots.nexts, slots.prevs, slots.freeNexts, index, index.table
    ensures Intact(side, other, slots, index) && Consistent(side, other, slots, index, onBids)
    ensures Holds(old(side.queues), id) && !Holds(other.queues, id)
    ensures side.queues == ModifyIn(old(side.queues), id, qty, stamp)
  {
    ghost var i, k := FindBound(slots.view, onBids, side.State(), other.State(), index.bindings, id);
    assert slots.view[slot].price == slots.prices[slot];
    var lvl := side.FindLevel(slots.prices[slot]);
    if lvl < 0 {
      assert false;
    }
    ModifyResting(side, other, slots, index, onBids, lvl, slot, qty, k, stamp);
  }
}
