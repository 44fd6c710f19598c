/** Book operations that work on one side, with the other side, the pool and the index at hand. */
module HalfBook {
  import opened Types
  import opened RefModel
  import opened OrderIndexing
  import opened BookRep
  import opened BookOps
  import opened BookLaws
  import opened Sides
  import opened SlotPools
  import opened Surgery

  /** The array is none of the level arrays. */
  ghost predicate NotIn(a: array<nat>, side: Side) {
    a != side.qtys && a != side.counts && a != side.heads && a != side.tails
  }

  /** No array is shared, and the index has two cells per slot. */
  ghost predicate Separate(side: Side, other: Side, slots: SlotPool, index: OrderIndex) {
    && Apart(side, slots) && Apart(other, slots) && side != other && side.prices != other.prices
    && NotIn(side.qtys, other) && NotIn(side.counts, other) && NotIn(side.heads, other) && NotIn(side.tails, other)
    && side.prices.Length == other.prices.Length
    && index.table.Length == 2 * slots.ids.Length
  }

  /** Every array holds what its records say. */
  ghost predicate Intact(side: Side, other: Side, slots: SlotPool, index: OrderIndex)
    reads side, side.prices, side.qtys, side.counts, side.heads, side.tails
    reads other, other.prices, other.qtys, other.counts, other.heads, other.tails
    reads slots, slots.ids, slots.qtys, slots.nexts, slots.prevs, slots.freeNexts, slots.prices, slots.accounts
    reads index, index.table
  {
    && Separate(side, other, slots, index)
    && side.Valid() && other.Valid() && slots.Shaped() && slots.FreeOk() && index.Valid()
  }

  /** Levels, lists and slots agree with each other and with the reference queues. */
  ghost predicate Listed(side: Side, other: Side, slots: SlotPool, onBids: bool)
    reads side, other, slots
  {
    && ListsOk(slots.view, onBids, side.State(), other.State())
    && slots.used == OrderCount(side.queues) + OrderCount(other.queues)
  }

  /** The index agrees with the slots. */
  ghost predicate Agrees(slots: SlotPool, index: OrderIndex)
    reads slots, index
  {
    IndexOk(slots.view, index.bindings) && |index.bindings| == slots.used
  }

  /** Levels, lists, slots and index agree. */
  ghost predicate Consistent(side: Side, other: Side, slots: SlotPool, index: OrderIndex, onBids: bool)
    reads side, other, slots, index
  {
    Listed(side, other, slots, onBids) && Agrees(slots, index)
  }

  /** The index leads from the id of ro to a slot of this side that carries it. */
  ghost predicate BoundTo(slots: SlotPool, index: OrderIndex, onBids: bool, price: int, ro: RefOrder)
    reads slots, index
  {
    && ro.id in index.bindings && index.bindings[ro.id].onBids == onBids
    && index.bindings[ro.id].slot < |slots.view|
    && Carries(slots.view[index.bindings[ro.id].slot], TagOf(onBids), price, ro)
  }

  /** Remove a binding that the lists have given up: index, lists and counts agree again. */
  method Unbind(side: Side, other: Side, slots: SlotPool, index: OrderIndex, onBids: bool, id: nat)
    requires Intact(side, other, slots, index) && Listed(side, other, slots, onBids)
    requires IndexOk(slots.view, index.bindings - {id}) && |index.bindings - {id}| == slots.used
    modifies index, index.table
    ensures Intact(side, other, slots, index) && Consistent(side, other, slots, index, onBids)
  {
    var _ := index.Remove(id);
  }

  /** Take the order at place k of a level off its list, the level if exhausted, and the pool. */
  method DropFromLists(side: Side, other: Side, slots: SlotPool, index: OrderIndex, onBids: bool, lvl: nat, slot: nat,
                       ghost k: nat)
    returns (id: nat)
    requires Intact(side, other, slots, index) && Consistent(side, other, slots, index, onBids)
    requires NoEmptyLevel(side.queues) && lvl < side.count && k < |side.chains[lvl]| && side.chains[lvl][k] == slot
    modifies side, side.prices, side.qtys, side.counts, side.heads, side.tails
    modifies slots, slots.nexts, slots.prevs, slots.freeNexts
    ensures Intact(side, other, slots, index) && NoEmptyLevel(side.queues)
    ensures Listed(side, other, slots, onBids)
    ensures IndexOk(slots.view, index.bindings - {id}) && |index.bindings - {id}| == slots.used
    ensures |old(side.queues)[lvl].queue| == |old(side.chains)[lvl]|
    ensures side.queues == PutQueue(old(side.queues), lvl, RemoveAt(old(side.queues)[lvl].queue, k))
  {
    RemoveBook(slots.view, onBids, side.State(), other.State(), index.bindings, lvl, k);
    id := slots.ids[slot];
    RemoveOrderFromLevel(side, slots, lvl, slot, k);
  }

  /** Take the order at place k of a level off the book. */
  method DropOrder(side: Side, other: Side, slots: SlotPool, index: OrderIndex, onBids: bool, lvl: nat, slot: nat,
                   ghost k: nat)
    requires Intact(side, other, slots, index) && Consistent(side, other, slots, index, onBids)
    requires NoEmptyLevel(side.queues) && lvl < side.count && k < |side.chains[lvl]| && side.chains[lvl][k] == slot
    modifies side, side.prices, side.qtys, side.counts, side.heads, side.tails
    modifies slots, slots.nexts, slots.prevs, slots.freeNexts, index, index.table
    ensures Intact(side, other, slots, index) && Consistent(side, other, slots, index, onBids)
    ensures NoEmptyLevel(side.queues)
    ensures |old(side.queues)[lvl].queue| == |old(side.chains)[lvl]|
    ensures side.queues == PutQueue(old(side.queues), lvl, RemoveAt(old(side.queues)[lvl].queue, k))
  {
    var id := DropFromLists(side, other, slots, index, onBids, lvl, slot, k);
    Unbind(side, other, slots, index, onBids, id);
  }

  // ----- matching against the best level

  /** The head slot of the best level holds the first order of its queue. */
  lemma HeadSlot(side: Side, other: Side, slots: SlotPool, index: OrderIndex, onBids: bool)
    requires Intact(side, other, slots, index) && Consistent(side, other, slots, index, onBids) && 0 < side.count
    ensures side.levels[0].head == side.heads[0] && side.levels[0].orders == side.counts[0]
    ensures side.levels[0].price == side.prices[0]
    ensures |side.queues[0].queue| == |side.chains[0]| == side.counts[0] && side.queues[0].price == side.prices[0]
    ensures side.heads[0] == NULL_IDX <==> side.queues[0].queue == []
    ensures side.heads[0] != NULL_IDX ==>
              var x, h := side.heads[0], side.queues[0].queue[0];
              && x == side.chains[0][0] && x < slots.ids.Length
              && slots.accounts[x] == h.account && slots.qtys[x] == h.rem && slots.ids[x] == h.id
              && slots.view[x].qty == h.rem && slots.view[x].id == h.id
  {
    OrdersAt(slots.view, onBids, side.State(), other.State(), 0);
  }

  /** Lower the quantity of the first order of the best level. */
  method HitHead(side: Side, other: Side, slots: SlotPool, index: OrderIndex, onBids: bool, fill: nat)
    requires Intact(side, other, slots, index) && Consistent(side, other, slots, index, onBids) && 0 < side.count
    requires side.queues[0].queue != [] && fill <= side.queues[0].queue[0].rem
    modifies side`levels, side`queues, side.qtys, slots`view, slots.qtys
    ensures Intact(side, other, slots, index) && Consistent(side, other, slots, index, onBids)
    ensures side.queues == Reduced(old(side.queues), fill)
  {
    HeadSlot(side, other, slots, index, onBids);
    var slot := side.heads[0];
    HitBook(slots.view, onBids, side.State(), other.State(), index.bindings, fill);
    ChangeQty(side, slots, 0, slot, slots.qtys[slot] - fill, 0);
  }

  /** Dequeue the exhausted first order of the best level: list and pool. */
  method PopLists(side: Side, other: Side, slots: SlotPool, index: OrderIndex, onBids: bool) returns (id: nat)
    requires Intact(side, other, slots, index) && Consistent(side, other, slots, index, onBids) && 0 < side.count
    requires side.queues[0].queue != [] && side.queues[0].queue[0].rem == 0
    modifies side`levels, side`chains, side`queues, side.heads, side.tails, side.counts
    modifies slots, slots.prevs, slots.freeNexts
    ensures Intact(side, other, slots, index)
    ensures Listed(side, other, slots, onBids)
    ensures IndexOk(slots.view, index.bindings - {id}) && |index.bindings - {id}| == slots.used
    ensures side.queues == Popped(old(side.queues))
  {
    HeadSlot(side, other, slots, index, onBids);
    PopBook(slots.view, onBids, side.State(), other.State(), index.bindings);
    var slot := side.heads[0];
    id := slots.ids[slot];
    DequeueHead(side, slots, slot);
  }

  method PopHead(side: Side, other: Side, slots: SlotPool, index: OrderIndex, onBids: bool)
    requires Intact(side, other, slots, index) && Consistent(side, other, slots, index, onBids) && 0 < side.count
    requires side.queues[0].queue != [] && side.queues[0].queue[0].rem == 0
    modifies side`levels, side`chains, side`queues, side.heads, side.tails, side.counts
    modifies slots, slots.prevs, slots.freeNexts, index, index.table
    ensures Intact(side, other, slots, index) && Consistent(side, other, slots, index, onBids)
    ensures side.queues == Popped(old(side.queues))
  {
    var id := PopLists(side, other, slots, index, onBids);
    Unbind(side, other, slots, index, onBids, id);
  }
}
