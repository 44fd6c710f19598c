/** Resting the remainder of a limit order: find or open its level, take a slot, link and index it, or roll back. */
module RestOrders {
  import opened Types
  import opened RefModel
  import opened OrderIndexing
  import opened BookRep
  import opened SideRep
  import opened BookOps
  import opened BookLaws
  import opened Sides
  import opened SlotPools
  import opened Surgery
  import opened HalfBook

  /** Open the level of a new price; -1 when every level is in use. */
  method OpenLevel(side: Side, other: Side, slots: SlotPool, index: OrderIndex, onBids: bool, price: int)
    returns (lvl: int)
    requires Intact(side, other, slots, index) && Consistent(side, other, slots, index, onBids)
    requires !HasLevel(side.queues, price)
    modifies side, side.prices, side.qtys, side.counts, side.heads, side.tails
    ensures Intact(side, other, slots, index) && Consistent(side, other, slots, index, onBids)
    ensures lvl < 0 ==> side.State() == old(side.State()) && |old(side.queues)| == side.prices.Length
    ensures 0 <= lvl ==>
              && lvl <= |old(side.queues)| < side.prices.Length && side.State() == old(side.State()).Open(lvl, price)
              && (forall j :: 0 <= j < lvl ==> Before(onBids, old(side.queues)[j].price, price))
              && (forall j :: lvl <= j < |old(side.queues)| ==> Before(onBids, price, old(side.queues)[j].price))
  {
    ghost var s, o := side.State(), other.State();
    lvl := side.InsertLevel(price, onBids);
    if lvl >= 0 {
      OpenBook(slots.view, onBids, s, o, index.bindings, lvl, price);
      CountOpen(s.qs, lvl, price);
    }
  }

  /** Find the level of a price, or open it; -1 when it is new and every level is in use. */
  method LevelFor(side: Side, other: Side, slots: SlotPool, index: OrderIndex, onBids: bool, price: int)
    returns (lvl: int, created: bool)
    requires Intact(side, other, slots, index) && Consistent(side, other, slots, index, onBids)
    modifies side, side.prices, side.qtys, side.counts, side.heads, side.tails
    ensures Intact(side, other, slots, index) && Consistent(side, other, slots, index, onBids)
    ensures HasLevel(old(side.queues), price) <==> 0 <= lvl && !created
    ensures !created ==> side.State() == old(side.State()) && lvl < side.count
    ensures 0 <= lvl && !created ==> side.queues[lvl].price == price
    ensures lvl < 0 ==> !created && |old(side.queues)| == side.prices.Length
    ensures created ==>
              && 0 <= lvl <= |old(side.queues)| < side.prices.Length
              && side.State() == old(side.State()).Open(lvl, price)
              && (forall j :: 0 <= j < lvl ==> Before(onBids, old(side.queues)[j].price, price))
              && (forall j :: lvl <= j < |old(side.queues)| ==> Before(onBids, price, old(side.queues)[j].price))
  {
    PricesAgree(slots.view, onBids, side.State(), other.State(), index.bindings);
    lvl := side.FindLevel(price);
    created := false;
    if lvl < 0 {
      lvl := OpenLevel(side, other, slots, index, onBids, price);
      created := lvl >= 0;
    }
  }

  lemma PricesAgree(p: Pool, onBids: bool, s: SideState, o: SideState, m: map<nat, Place>)
    requires BookOk(p, onBids, s, o, m)
    ensures forall j :: 0 <= j < |s.qs| ==> s.reps[j].price == s.qs[j].price
  {
    forall j | 0 <= j < |s.qs|
      ensures s.reps[j].price == s.qs[j].price
    {
      assert LevelAt(p, TagOf(onBids), s, j);
    }
  }

  /** Link a slot, just taken from pool p, at the back of its level. */
  method LinkNew(side: Side, other: Side, slots: SlotPool, index: OrderIndex, onBids: bool, lvl: nat, slot: nat,
                 o: Order, rem: nat, ghost p: Pool, ghost stamp: nat)
    requires Intact(side, other, slots, index) && BookOk(p, onBids, side.State(), other.State(), index.bindings)
    requires lvl < side.count && side.queues[lvl].price == o.price && slot < |p| == slots.ids.Length
    requires p[slot].tag == Free && slots.view == p[slot := p[slot].(tag := TagOf(onBids))]
    modifies side, side.heads, side.tails, side.qtys, side.counts
    modifies slots`view, slots.ids, slots.accounts, slots.qtys, slots.prices, slots.nexts, slots.prevs
    ensures Intact(side, other, slots, index) && ListsOk(slots.view, onBids, side.State(), other.State())
    ensures Carries(slots.view[slot], TagOf(onBids), o.price, RefOrder(o.id, rem, o.account, stamp))
    ensures IndexOk(slots.view, index.bindings[o.id := Place(slot, onBids)]) <==> o.id !in index.bindings
    ensures side.queues == old(side.queues)[lvl :=
              Level(o.price, old(side.queues)[lvl].queue + [RefOrder(o.id, rem, o.account, stamp)])]
  {
    OrdersAt(p, onBids, side.State(), other.State(), lvl);
    ghost var ro := RefOrder(o.id, rem, o.account, stamp);
    ghost var data := p[slot].(id := o.id, account := o.account, qty := rem, next := NULL_IDX, price := o.price,
                               tag := TagOf(onBids));
    EnlistBook(p, onBids, side.State(), other.State(), index.bindings, lvl, slot, data, ro);
    assert slots.view[slot := data] == p[slot := data];
    Enlist(side, slots, lvl, slot, o.id, o.account, rem, o.price, stamp);
  }

  /** Take a slot and link the order at the back of its level; without a free slot nothing changes. */
  method TakeSlot(side: Side, other: Side, slots: SlotPool, index: OrderIndex, onBids: bool, lvl: nat, o: Order,
                  rem: nat, ghost stamp: nat)
    returns (slot: nat)
    requires Intact(side, other, slots, index) && Consistent(side, other, slots, index, onBids)
    requires lvl < side.count && side.queues[lvl].price == o.price
    modifies side, side.heads, side.tails, side.qtys, side.counts
    modifies slots, slots.ids, slots.accounts, slots.qtys, slots.prices, slots.nexts, slots.prevs
    ensures Intact(side, other, slots, index) && Listed(side, other, slots, onBids)
    ensures old(slots.used) == slots.ids.Length ==>
              slot == NULL_IDX && side.State() == old(side.State()) && slots.view == old(slots.view)
    ensures old(slots.used) < slots.ids.Length ==>
              && slot < NULL_IDX && slots.used == old(slots.used) + 1 && slot < |slots.view|
              && Carries(slots.view[slot], TagOf(onBids), o.price, RefOrder(o.id, rem, o.account, stamp))
              && (IndexOk(slots.view, index.bindings[o.id := Place(slot, onBids)]) <==> o.id !in index.bindings)
              && side.queues == old(side.queues)[lvl :=
                   Level(o.price, old(side.queues)[lvl].queue + [RefOrder(o.id, rem, o.account, stamp)])]
  {
    ghost var p := slots.view;
    EnlistCounts(side.queues, lvl, RefOrder(o.id, rem, o.account, stamp));
    slot := slots.Alloc(TagOf(onBids));
    if slot != NULL_IDX {
      LinkNew(side, other, slots, index, onBids, lvl, slot, o, rem, p, stamp);
    }
  }

  /** Bind the id of the slot just linked: index, lists and counts agree again if and only if the id was fresh. */
  method IndexNew(side: Side, other: Side, slots: SlotPool, index: OrderIndex, onBids: bool, slot: nat, id: nat)
    requires Intact(side, other, slots, index) && Listed(side, other, slots, onBids) && slot < NULL_IDX
    requires IndexOk(slots.view, index.bindings[id := Place(slot, onBids)]) <==> id !in index.bindings
    requires |index.bindings| + 1 == slots.used <= slots.ids.Length
    modifies index, index.table
    ensures Intact(side, other, slots, index) && Listed(side, other, slots, onBids)
    ensures index.bindings == old(index.bindings)[id := Place(slot, onBids)]
    ensures Consistent(side, other, slots, index, onBids) <==> id !in old(index.bindings)
  {
    if id !in index.bindings {
      AddCount(index.bindings, id, Place(slot, onBids));
    }
    var _ := index.Insert(id, slot, onBids);
  }

  /** Rest the order at its level, index included; fails exactly when no slot is free. */
  method PlaceOrder(side: Side, other: Side, slots: SlotPool, index: OrderIndex, onBids: bool, lvl: nat, o: Order,
                    rem: nat, ghost stamp: nat)
    returns (ok: bool)
    requires Intact(side, other, slots, index) && Consistent(side, other, slots, index, onBids)
    requires lvl < side.count && side.queues[lvl].price == o.price
    modifies side, side.heads, side.tails, side.qtys, side.counts
    modifies slots, slots.ids, slots.accounts, slots.qtys, slots.prices, slots.nexts, slots.prevs, index, index.table
    ensures Intact(side, other, slots, index) && Listed(side, other, slots, onBids)
    ensures ok <==> old(slots.used) < slots.ids.Length
    ensures Consistent(side, other, slots, index, onBids) <==> (ok ==> o.id !in old(index.bindings))
    ensures !ok ==> side.State() == old(side.State())
    ensures ok ==> BoundTo(slots, index, onBids, o.price, RefOrder(o.id, rem, o.account, stamp))
    ensures ok ==> side.queues == old(side.queues)[lvl :=
                     Level(o.price, old(side.queues)[lvl].queue + [RefOrder(o.id, rem, o.account, stamp)])]
  {
    var slot := TakeSlot(side, other, slots, index, onBids, lvl, o, rem, stamp);
    ok := slot != NULL_IDX;
    if ok {
      IndexNew(side, other, slots, index, onBids, slot, o.id);
    }
  }

  /** Undo the opening of a level: the level arrays are exactly as before. */
  method RollBack(side: Side, other: Side, slots: SlotPool, index: OrderIndex, onBids: bool, lvl: nat,
                  ghost s: SideState, price: int)
    requires Intact(side, other, slots, index) && Consistent(side, other, slots, index, onBids)
    requires s.Shape() && lvl <= |s.qs| && side.State() == s.Open(lvl, price)
    modifies side, side.prices, side.qtys, side.counts, side.heads, side.tails
    ensures Intact(side, other, slots, index) && Consistent(side, other, slots, index, onBids)
    ensures side.State() == s
  {
    OpenClose(s, lvl, price);
    CountOpen(s.qs, lvl, price);
    CloseBook(slots.view, onBids, side.State(), other.State(), index.bindings, lvl);
    side.RemoveLevel(lvl);
  }

  /** Appending to the found or the opened level is how the reference rests an order. */
  lemma RestedAt(desc: bool, s: SideState, s1: SideState, lvl: nat, created: bool, price: int, ro: RefOrder)
    requires s.Shape() && Sorted(desc, s.qs) && NoEmptyLevel(s.qs) && s1.Shape() && lvl < |s1.qs|
    requires if created
             then lvl <= |s.qs| && s1 == s.Open(lvl, price)
                  && (forall j :: 0 <= j < lvl ==> Before(desc, s.qs[j].price, price))
                  && (forall j :: lvl <= j < |s.qs| ==> Before(desc, price, s.qs[j].price))
             else s1 == s && s.qs[lvl].price == price
    ensures s1.qs[lvl := Level(price, s1.qs[lvl].queue + [ro])] == Rest(desc, s.qs, price, ro)
    ensures NoEmptyLevel(Rest(desc, s.qs, price, ro))
  {
    if created {
      RestOpened(desc, s.qs, lvl, price, ro);
      assert [] + [ro] == [ro];
    } else {
      RestExisting(desc, s.qs, lvl, ro);
    }
  }

  /** Place the order at its level; when no slot is free, a level opened for it is removed again. */
  method PlaceOrUndo(side: Side, other: Side, slots: SlotPool, index: OrderIndex, onBids: bool, lvl: nat, created: bool,
                     o: Order, rem: nat, ghost s: SideState, ghost stamp: nat)
    returns (ok: bool)
    requires Intact(side, other, slots, index) && Consistent(side, other, slots, index, onBids)
    requires lvl < side.count && side.queues[lvl].price == o.price
    requires s.Shape() && side.State() == if created && lvl <= |s.qs| then s.Open(lvl, o.price) else s
    modifies side, side.prices, side.heads, side.tails, side.qtys, side.counts
    modifies slots, slots.ids, slots.accounts, slots.qtys, slots.prices, slots.nexts, slots.prevs, index, index.table
    ensures Intact(side, other, slots, index) && Listed(side, other, slots, onBids)
    ensures ok <==> old(slots.used) < slots.ids.Length
    ensures Consistent(side, other, slots, index, onBids) <==> (ok ==> o.id !in old(index.bindings))
    ensures !ok ==> side.State() == s
    ensures ok ==> BoundTo(slots, index, onBids, o.price, RefOrder(o.id, rem, o.account, stamp))
    ensures ok ==> side.queues == old(side.queues)[lvl :=
                     Level(o.price, old(side.queues)[lvl].queue + [RefOrder(o.id, rem, o.account, stamp)])]
  {
    ok := PlaceOrder(side, other, slots, index, onBids, lvl, o, rem, stamp);
    if !ok && created {
      RollBack(side, other, slots, index, onBids, lvl, s, o.price);
    }
  }

  /**
   Rest the remainder of a limit order, as the reference does, or reject it for lack of a level or a slot. The
   lists always agree afterwards; the index agrees with them unless the order rested under a bound id.
   */
  method RestRemainder(side: Side, other: Side, slots: SlotPool, index: OrderIndex, onBids: bool, o: Order, rem: nat,
                       ghost stamp: nat)
    returns (ok: bool)
    requires Intact(side, other, slots, index) && Consistent(side, other, slots, index, onBids)
    requires NoEmptyLevel(side.queues)
    modifies side, side.prices, side.heads, side.tails, side.qtys, side.counts
    modifies slots, slots.ids, slots.accounts, slots.qtys, slots.prices, slots.nexts, slots.prevs, index, index.table
    ensures Intact(side, other, slots, index) && Listed(side, other, slots, onBids) && NoEmptyLevel(side.queues)
    ensures Consistent(side, other, slots, index, onBids) <==> (ok ==> o.id !in old(index.bindings))
    ensures ok ==> BoundTo(slots, index, onBids, o.price, RefOrder(o.id, rem, o.account, stamp))
    ensures var qs := old(side.queues);
            && ok == ((HasLevel(qs, o.price) || |qs| < side.prices.Length) && old(slots.used) < slots.ids.Length)
            && side.queues == if ok then Rest(onBids, qs, o.price, RefOrder(o.id, rem, o.account, stamp)) else qs
  {
    ghost var s := side.State();
    var lvl, created := LevelFor(side, other, slots, index, onBids, o.price);
    if lvl < 0 {
      return false;
    }
    RestedAt(onBids, s, side.State(), lvl, created, o.price, RefOrder(o.id, rem, o.account, stamp));
    ok := PlaceOrUndo(side, other, slots, index, onBids, lvl, created, o, rem, s, stamp);
  }
}
