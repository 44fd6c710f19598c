/** The in-place writes of a book on one side and the slot pool: the list surgery and its aggregates. */
module Surgery {
  import opened Types
  import opened RefModel
  import opened BookRep
  import opened BookOps
  import opened BookLaws
  import opened Sides
  import opened SlotPools

  /** The array is none of the slot arrays. */
  ghost predicate NotOf(a: array<nat>, slots: SlotPool) {
    && a != slots.ids && a != slots.qtys && a != slots.nexts
    && a != slots.prevs && a != slots.freeNexts && a != slots.accounts
  }

  /** The level arrays and the slot arrays do not overlap. */
  ghost predicate Apart(side: Side, slots: SlotPool) {
    && NotOf(side.qtys, slots) && NotOf(side.counts, slots) && NotOf(side.heads, slots) && NotOf(side.tails, slots)
    && side.prices != slots.prices
  }

  /** Take a slot out of its level's doubly-linked list. */
  method UnlinkSlot(side: Side, slots: SlotPool, lvl: nat, slot: nat)
    requires Apart(side, slots) && side.Coupled() && slots.Shaped() && lvl < side.count
    requires slot < slots.ids.Length && Unlink.requires(slots.view, slot)
    modifies side.heads, side.tails, slots.nexts, slots.prevs, side`levels, slots`view
    ensures side.Coupled() && slots.Shaped() && slots.view == Unlink(old(slots.view), slot)
    ensures side.levels == old(side.levels)[lvl := UnlinkRep(old(side.levels)[lvl], old(slots.view)[slot])]
  {
    var prev, next := slots.prevs[slot], slots.nexts[slot];
    if prev != NULL_IDX {
      slots.SetNext(prev, next);
    } else {
      side.SetHead(lvl, next);
    }
    if next != NULL_IDX {
      slots.SetPrev(next, prev);
    } else {
      side.SetTail(lvl, prev);
    }
  }

  /** Put a slot behind the tail of a level's list. */
  method AppendSlot(side: Side, slots: SlotPool, lvl: nat, slot: nat)
    requires Apart(side, slots) && side.Coupled() && slots.Shaped() && lvl < side.count && slot < slots.ids.Length
    requires var rep := side.levels[lvl];
             if rep.head == NULL_IDX then rep.tail == NULL_IDX else rep.tail < slots.ids.Length
    modifies side.heads, side.tails, slots.nexts, slots.prevs, side`levels, slots`view
    ensures side.Coupled() && slots.Shaped()
    ensures var rep := old(side.levels)[lvl];
            && slots.view == Append(old(slots.view), rep.head, rep.tail, slot)
            && side.levels == old(side.levels)[lvl :=
                 rep.(head := if rep.head == NULL_IDX then slot else rep.head, tail := slot)]
  {
    if side.heads[lvl] == NULL_IDX {
      slots.SetLinks(slot, NULL_IDX, NULL_IDX);
      side.SetEnds(lvl, slot, slot);
    } else {
      var oldTail := side.tails[lvl];
      slots.SetLinks(slot, NULL_IDX, oldTail);
      slots.SetNext(oldTail, slot);
      side.SetTail(lvl, slot);
    }
  }

  /** The writes of an order removal, up to but not including the removal of an exhausted level. */
  method Detach(side: Side, slots: SlotPool, lvl: nat, slot: nat, ghost k: nat)
    requires Apart(side, slots) && side.Valid() && slots.Shaped() && slots.FreeOk() && lvl < side.count
    requires slot < slots.ids.Length && Unlink.requires(slots.view, slot) && slots.view[slot].tag != Free
    requires k < |side.chains[lvl]| == |side.queues[lvl].queue| && side.levels[lvl].orders > 0
    modifies side, side.heads, side.tails, side.qtys, side.counts, slots, slots.nexts, slots.prevs, slots.freeNexts
    ensures side.Valid() && slots.Shaped() && slots.FreeOk() && slots.used == old(slots.used) - 1
    ensures slots.view == Delisted(old(slots.view), slot)
    ensures side.State() == DelistState(old(side.State()), lvl, k, old(slots.view)[slot])
  {
    var gone: int := slots.qtys[slot];
    side.Tally(lvl, -gone, side.counts[lvl] - 1);
    UnlinkSlot(side, slots, lvl, slot);
    slots.FreeSlot(slot);
    side.chains := side.chains[lvl := RemoveAt(side.chains[lvl], k)];
    side.queues := side.queues[lvl := side.queues[lvl].(queue := RemoveAt(side.queues[lvl].queue, k))];
  }

  method RemoveOrderFromLevel(side: Side, slots: SlotPool, lvl: nat, slot: nat, ghost k: nat)
    requires Apart(side, slots) && side.Valid() && slots.Shaped() && slots.FreeOk() && lvl < side.count
    requires slot < slots.ids.Length && Unlink.requires(slots.view, slot) && slots.view[slot].tag != Free
    requires k < |side.chains[lvl]| == |side.queues[lvl].queue| && side.levels[lvl].orders > 0
    modifies side, side.prices, side.heads, side.tails, side.qtys, side.counts
    modifies slots, slots.nexts, slots.prevs, slots.freeNexts
    ensures side.Valid() && slots.Shaped() && slots.FreeOk() && slots.used == old(slots.used) - 1
    ensures slots.view == Delisted(old(slots.view), slot)
    ensures side.State() == CloseIfEmpty(DelistState(old(side.State()), lvl, k, old(slots.view)[slot]), lvl)
  {
    Detach(side, slots, lvl, slot, k);
    if side.counts[lvl] == 0 {
      side.RemoveLevel(lvl);
    }
  }

  /** The writes that put a freshly allocated slot at the back of a level. */
  method Enlist(side: Side, slots: SlotPool, lvl: nat, slot: nat, id: nat, account: nat, qty: nat, price: int,
                ghost stamp: nat)
    requires Apart(side, slots) && side.Valid() && slots.Shaped() && lvl < side.count && slot < slots.ids.Length
    requires var rep := side.levels[lvl];
             if rep.head == NULL_IDX then rep.tail == NULL_IDX else rep.tail < slots.ids.Length
    modifies side, side.heads, side.tails, side.qtys, side.counts
    modifies slots`view, slots.ids, slots.accounts, slots.qtys, slots.prices, slots.nexts, slots.prevs
    ensures side.Valid() && slots.Shaped()
    ensures var s, p := old(side.State()), old(slots.view);
            && slots.view == Enlisted(p, s.reps[lvl], slot, p[slot].(id := id, account := account, qty := qty,
                                                                     next := NULL_IDX, price := price))
            && side.State() == s.Put(lvl, EnlistRep(s.reps[lvl], slot, qty), s.chains[lvl] + [slot],
                                     s.qs[lvl].(queue := s.qs[lvl].queue + [RefOrder(id, qty, account, stamp)]))
  {
    slots.SetData(slot, id, account, qty, price);
    AppendSlot(side, slots, lvl, slot);
    side.Tally(lvl, qty, side.counts[lvl] + 1);
    side.chains := side.chains[lvl := side.chains[lvl] + [slot]];
    ghost var q := side.queues[lvl].queue;
    side.queues := side.queues[lvl := side.queues[lvl].(queue := q + [RefOrder(id, qty, account, stamp)])];
  }

  method MoveToBack(side: Side, slots: SlotPool, lvl: nat, slot: nat)
    requires Apart(side, slots) && side.Coupled() && slots.Shaped() && lvl < side.count
    requires slot < slots.ids.Length && Unlink.requires(slots.view, slot)
    requires var rep := UnlinkRep(side.levels[lvl], slots.view[slot]);
             if rep.head == NULL_IDX then rep.tail == NULL_IDX else rep.tail < slots.ids.Length
    modifies side.heads, side.tails, slots.nexts, slots.prevs, side`levels, slots`view
    ensures side.Coupled() && slots.Shaped()
    ensures var rep := UnlinkRep(old(side.levels)[lvl], old(slots.view)[slot]);
            && slots.view == Append(Unlink(old(slots.view), slot), rep.head, rep.tail, slot)
            && side.levels == old(side.levels)[lvl :=
                 rep.(head := if rep.head == NULL_IDX then slot else rep.head, tail := slot)]
  {
    UnlinkSlot(side, slots, lvl, slot);
    AppendSlot(side, slots, lvl, slot);
  }

  method Raise(side: Side, slots: SlotPool, lvl: nat, slot: nat, qty: nat)
    requires Apart(side, slots) && side.Coupled() && slots.Shaped() && lvl < side.count
    requires slot < slots.ids.Length && Unlink.requires(slots.view, slot)
    requires var rep := UnlinkRep(side.levels[lvl], slots.view[slot]);
             if rep.head == NULL_IDX then rep.tail == NULL_IDX else rep.tail < slots.ids.Length
    modifies side`levels, side.heads, side.tails, side.qtys, slots`view, slots.qtys, slots.nexts, slots.prevs
    ensures side.Coupled() && slots.Shaped()
    ensures slots.view == Requeued(old(slots.view), old(side.levels)[lvl], slot, qty)
    ensures side.levels == old(side.levels)[lvl := RequeueRep(old(side.levels)[lvl], slot, old(slots.view)[slot], qty)]
  {
    ghost var ls, p := side.levels, slots.view;
    var oldQty := slots.qtys[slot];
    MoveToBack(side, slots, lvl, slot);
    side.AddQty(lvl, qty - oldQty);
    slots.SetQty(slot, qty);
    assert side.levels[lvl] == RequeueRep(ls[lvl], slot, p[slot], qty);
    assert side.levels == ls[lvl := side.levels[lvl]];
  }

  /** The writes of a quantity increase: to the back of the queue, then the new quantity. */
  method Requeue(side: Side, slots: SlotPool, lvl: nat, slot: nat, qty: nat, ghost k: nat, ghost stamp: nat)
    requires Apart(side, slots) && side.Valid() && slots.Shaped() && lvl < side.count
    requires slot < slots.ids.Length && Unlink.requires(slots.view, slot)
    requires var rep := UnlinkRep(side.levels[lvl], slots.view[slot]);
             if rep.head == NULL_IDX then rep.tail == NULL_IDX else rep.tail < slots.ids.Length
    requires k < |side.chains[lvl]| == |side.queues[lvl].queue|
    modifies side, side.heads, side.tails, side.qtys, slots`view, slots.qtys, slots.nexts, slots.prevs
    ensures side.Valid() && slots.Shaped()
    ensures var s, p := old(side.State()), old(slots.view);
            && slots.view == Requeued(p, s.reps[lvl], slot, qty)
            && side.State() == s.Put(lvl, RequeueRep(s.reps[lvl], slot, p[slot], qty),
                                     RemoveAt(s.chains[lvl], k) + [slot],
                                     s.qs[lvl].(queue := RequeuedQueue(s.qs[lvl].queue, k, qty, stamp)))
  {
    Raise(side, slots, lvl, slot, qty);
    side.chains := side.chains[lvl := RemoveAt(side.chains[lvl], k) + [slot]];
    side.queues := side.queues[lvl := side.queues[lvl].(queue := RequeuedQueue(side.queues[lvl].queue, k, qty, stamp))];
  }

  /** Change the quantity of the order at place k of a level, and the level's total by the same amount. */
  method ChangeQty(side: Side, slots: SlotPool, lvl: nat, slot: nat, qty: nat, ghost k: nat)
    requires Apart(side, slots) && side.Valid() && slots.Shaped() && lvl < side.count && slot < slots.ids.Length
    requires k < |side.queues[lvl].queue|
    modifies side`levels, side`queues, side.qtys, slots`view, slots.qtys
    ensures side.Valid() && slots.Shaped()
    ensures var s, p := old(side.State()), old(slots.view);
            && slots.view == Requantified(p, slot, qty)
            && side.State() == s.Put(lvl, QtyRep(s.reps[lvl], qty - p[slot].qty), s.chains[lvl],
                                     s.qs[lvl].(queue := s.qs[lvl].queue[k := s.qs[lvl].queue[k].(rem := qty)]))
  {
    side.AddQty(lvl, qty - slots.qtys[slot]);
    slots.SetQty(slot, qty);
    ghost var q := side.queues[lvl].queue;
    side.queues := side.queues[lvl := side.queues[lvl].(queue := q[k := q[k].(rem := qty)])];
  }

  /** Unlink the exhausted order at the head of the best level. */
  method UnlinkHead(side: Side, slots: SlotPool, slot: nat)
    requires Apart(side, slots) && side.Coupled() && slots.Shaped() && 0 < side.count && side.levels[0].orders > 0
    requires slot < slots.ids.Length && slots.view[slot].prev == NULL_IDX && Unlink.requires(slots.view, slot)
    modifies side.heads, side.tails, side.counts, slots.prevs, side`levels, slots`view
    ensures side.Coupled() && slots.Shaped() && slots.view == Unlink(old(slots.view), slot)
    ensures var rep := old(side.levels)[0];
            side.levels == old(side.levels)[0 := UnlinkRep(rep, old(slots.view)[slot]).(orders := rep.orders - 1)]
  {
    var next := slots.nexts[slot];
    assert slots.prevs[slot] == NULL_IDX;
    if next == NULL_IDX {
      side.SetEnds(0, next, NULL_IDX);
    } else {
      side.SetHead(0, next);
      slots.SetPrev(next, NULL_IDX);
    }
    side.SetCount(0, side.counts[0] - 1);
  }

  /** Dequeue the exhausted order at the head of the best level and free its slot. */
  method DequeueHead(side: Side, slots: SlotPool, slot: nat)
    requires Apart(side, slots) && side.Valid() && slots.Shaped() && slots.FreeOk() && 0 < side.count
    requires slot < slots.ids.Length && slots.view[slot].prev == NULL_IDX && Unlink.requires(slots.view, slot)
    requires slots.view[slot].tag != Free && slots.view[slot].qty == 0
    requires 0 < |side.chains[0]| == |side.queues[0].queue| == side.levels[0].orders && side.levels[0].total < U32
    modifies side`levels, side`chains, side`queues, side.heads, side.tails, side.counts
    modifies slots, slots.prevs, slots.freeNexts
    ensures side.Valid() && slots.Shaped() && slots.FreeOk() && slots.used == old(slots.used) - 1
    ensures slots.view == Delisted(old(slots.view), slot)
    ensures side.State() == DelistState(old(side.State()), 0, 0, old(slots.view)[slot])
  {
    UnlinkHead(side, slots, slot);
    slots.FreeSlot(slot);
    side.chains := side.chains[0 := RemoveAt(side.chains[0], 0)];
    side.queues := side.queues[0 := side.queues[0].(queue := RemoveAt(side.queues[0].queue, 0))];
  }
}
