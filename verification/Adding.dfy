/** Adding an order: the fill-or-kill pre-check, matching against the passive side, resting on the own side. */
module Adding {
  import opened Types
  import opened RefModel
  import opened OrderIndexing
  import opened BookRep
  import opened SideRep
  import opened BookLaws
  import opened Sides
  import opened SlotPools
  import opened HalfBook
  import opened Matching
  import opened RestOrders
  import opened Liquidity
  import opened Verdicts
  import opened PreCheck
  import opened Modifying

  /** An id is bound exactly when one of the sides holds it. */
  lemma BoundIffResting(p: Pool, onBids: bool, s: SideState, o: SideState, m: map<nat, Place>, id: nat)
    requires BookOk(p, onBids, s, o, m)
    ensures id in m <==> Holds(s.qs, id) || Holds(o.qs, id)
  {
    if id !in m {
      NotFound(p, TagOf(onBids), s, m, id);
      NotFound(p, TagOf(!onBids), o, m, id);
    } else if m[id].onBids == onBids {
      var _, _ := FindBound(p, onBids, s, o, m, id);
    } else {
      var _, _ := FindBound(p, !onBids, o, s, m, id);
    }
  }

  /** The invariant seen from the other side. */
  lemma Flip(side: Side, other: Side, slots: SlotPool, index: OrderIndex, onBids: bool)
    requires Intact(side, other, slots, index)
    ensures Intact(other, side, slots, index)
    ensures Listed(side, other, slots, onBids) <==> Listed(other, side, slots, !onBids)
    ensures Consistent(side, other, slots, index, onBids) <==> Consistent(other, side, slots, index, !onBids)
  {
  }

  /** The reference book whose passive side, for an order, is `passive`. */
  ghost function BookFor(dir: Direction, passive: seq<Level>, own: seq<Level>, clock: nat): RefBook {
    if dir.Buy? then RefBook(own, passive, clock) else RefBook(passive, own, clock)
  }

  /** The clamped reference pre-check and the pre-check of the program decide alike. */
  lemma PreCheckAgrees(o: Order, qs: seq<Level>, r: nat)
    requires r < o.qty <==> SideLiquidity(o, qs) < o.qty
    ensures r < o.qty <==> Available(o, qs, 0) < o.qty
  {
    AvailableIsClamped(o, qs, 0);
  }

  /** Fill-or-kill: true when the order must be rejected. */
  method MustKill(passive: Side, own: Side, slots: SlotPool, index: OrderIndex, onBids: bool, o: Order)
    returns (kill: bool)
    requires Intact(passive, own, slots, index) && Consistent(passive, own, slots, index, onBids)
    ensures kill <==> o.kind == FOK && Available(o, passive.queues, 0) < o.qty
  {
    kill := false;
    if o.kind == FOK {
      var avail := AvailableLiquidity(passive, own, slots, index, onBids, o);
      PreCheckAgrees(o, passive.queues, avail);
      kill := avail < o.qty;
    }
  }

  /** Rest on the own side, told from the passive one. */
  method RestOn(own: Side, passive: Side, slots: SlotPool, index: OrderIndex, onBids: bool, o: Order, rem: nat,
                ghost stamp: nat)
    returns (ok: bool)
    requires Intact(passive, own, slots, index) && Consistent(passive, own, slots, index, !onBids)
    requires NoEmptyLevel(own.queues)
    modifies own, own.prices, own.heads, own.tails, own.qtys, own.counts
    modifies slots, slots.ids, slots.accounts, slots.qtys, slots.prices, slots.nexts, slots.prevs, index, index.table
    ensures Intact(passive, own, slots, index) && Listed(passive, own, slots, !onBids)
    ensures Consistent(passive, own, slots, index, !onBids) <==> (ok ==> o.id !in old(index.bindings))
    ensures ok ==> BoundTo(slots, index, onBids, o.price, RefOrder(o.id, rem, o.account, stamp))
    ensures var qs := old(own.queues);
            && ok == ((HasLevel(qs, o.price) || |qs| < own.prices.Length) && old(slots.used) < slots.ids.Length)
            && own.queues == if ok then Rest(onBids, qs, o.price, RefOrder(o.id, rem, o.account, stamp)) else qs
  {
    Flip(passive, own, slots, index, !onBids);
    ok := RestRemainder(own, passive, slots, index, onBids, o, rem, stamp);
    Flip(own, passive, slots, index, onBids);
  }

  /** The outcome of an order that leaves nothing to rest. */
  lemma NothingRests(caps: Caps, passive: seq<Level>, own: seq<Level>, clock: nat, o: Order)
    requires !(o.kind == FOK && Available(o, passive, 0) < o.qty)
    requires var s := Sweep(o, o.qty, passive); s.rem == 0 || o.kind != Limit || s.walled
    ensures var s := Sweep(o, o.qty, passive);
            AddOrder(caps, BookFor(o.dir, passive, own, clock), o)
            == AddResult(BookFor(o.dir, s.side, own, clock), s.fills, Expired(s.rem))
  {
  }

  /** The outcome of an order whose remainder rests if there is a level and a slot for it. */
  lemma RemainderRests(caps: Caps, passive: seq<Level>, own: seq<Level>, clock: nat, o: Order, ok: bool)
    requires o.kind == Limit
    requires var s := Sweep(o, o.qty, passive);
             && s.rem > 0 && !s.walled
             && ok == ((HasLevel(own, o.price) || |own| < caps.maxLevels)
                       && OrderCount(s.side) + OrderCount(own) < caps.maxOrders)
    ensures var s := Sweep(o, o.qty, passive);
            var own' := if ok then Rest(o.dir.Buy?, own, o.price, RefOrder(o.id, s.rem, o.account, clock)) else own;
            AddOrder(caps, BookFor(o.dir, passive, own, clock), o)
            == AddResult(BookFor(o.dir, s.side, own', clock), s.fills, if ok then Rested(s.rem) else CapacityRejected)
    ensures Admissible(caps, BookFor(o.dir, passive, own, clock), Add(o))
            <==> (ok ==> !Holds(Sweep(o, o.qty, passive).side, o.id) && !Holds(own, o.id))
  {
  }

  /** The result, the reports and the new book are those of an added order. */
  ghost predicate Matches(r: AddResult, o: Order, ok: bool, reports: seq<ExecutionReport>, b: RefBook) {
    ok == r.Ok() && reports == ReportsOf(o, o.qty, r.fills) && b == r.book
  }

  /** Rest what a sweep of the passive queues ps left of a limit order; the outcome is the reference's. */
  method RestMatched(passive: Side, own: Side, slots: SlotPool, index: OrderIndex, onBids: bool, o: Order, rem: nat,
                     ghost ps: seq<Level>, ghost stamp: nat)
    returns (ok: bool)
    requires Intact(passive, own, slots, index) && Consistent(passive, own, slots, index, onBids)
    requires NoEmptyLevel(own.queues) && onBids == o.dir.Sell? && o.kind == Limit
    requires var s := Sweep(o, o.qty, ps); passive.queues == s.side && rem == s.rem > 0 && !s.walled
    modifies own, own.prices, own.qtys, own.counts, own.heads, own.tails
    modifies slots, slots.ids, slots.accounts, slots.qtys, slots.prices, slots.nexts, slots.prevs, index, index.table
    ensures Intact(passive, own, slots, index) && Listed(passive, own, slots, onBids)
    ensures var caps := Caps(own.prices.Length, slots.ids.Length);
            var b := BookFor(o.dir, ps, old(own.queues), stamp);
            && AddOrder(caps, b, o) == AddResult(BookFor(o.dir, passive.queues, own.queues, stamp),
                                                 Sweep(o, o.qty, ps).fills,
                                                 if ok then Rested(rem) else CapacityRejected)
            && (Consistent(passive, own, slots, index, onBids) <==> Admissible(caps, b, Add(o)))
    ensures ok ==> BoundTo(slots, index, !onBids, o.price, RefOrder(o.id, rem, o.account, stamp))
  {
    ghost var os := own.queues;
    BoundIffResting(slots.view, onBids, passive.State(), own.State(), index.bindings, o.id);
    ok := RestOn(own, passive, slots, index, !onBids, o, rem, stamp);
    RemainderRests(Caps(own.prices.Length, slots.ids.Length), ps, os, stamp, o, ok);
  }

  /** Match an order that passed the pre-check, then rest what is left of a limit order that met no wall. */
  method MatchAndRest(passive: Side, own: Side, slots: SlotPool, index: OrderIndex, onBids: bool, o: Order,
                      ghost stamp: nat)
    returns (ok: bool, reports: seq<ExecutionReport>)
    requires Intact(passive, own, slots, index) && Consistent(passive, own, slots, index, onBids)
    requires NoEmptyLevel(passive.queues) && NoEmptyLevel(own.queues) && onBids == o.dir.Sell?
    requires !(o.kind == FOK && Available(o, passive.queues, 0) < o.qty)
    modifies passive, passive.prices, passive.qtys, passive.counts, passive.heads, passive.tails
    modifies own, own.prices, own.qtys, own.counts, own.heads, own.tails
    modifies slots, slots.ids, slots.accounts, slots.qtys, slots.prices, slots.nexts, slots.prevs, slots.freeNexts
    modifies index, index.table
    ensures Intact(passive, own, slots, index) && Listed(passive, own, slots, onBids)
    ensures var caps := Caps(own.prices.Length, slots.ids.Length);
            var b := BookFor(o.dir, old(passive.queues), old(own.queues), stamp);
            var r := AddOrder(caps, b, o);
            && Matches(r, o, ok, reports, BookFor(o.dir, passive.queues, own.queues, stamp))
            && !r.disposition.Rejected?
            && (Consistent(passive, own, slots, index, onBids) <==> Admissible(caps, b, Add(o)))
            && (r.disposition.Rested? ==>
                  BoundTo(slots, index, !onBids, o.price, RefOrder(o.id, r.disposition.rem, o.account, stamp)))
  {
    ghost var ps := passive.queues;
    var rem, walled;
    rem, walled, reports := TryMatch(passive, own, slots, index, onBids, o);
    if o.kind != Limit || rem == 0 || walled {
      NothingRests(Caps(own.prices.Length, slots.ids.Length), ps, own.queues, stamp, o);
      return true, reports;
    }
    ok := RestMatched(passive, own, slots, index, onBids, o, rem, ps, stamp);
  }

  /**
   Add an order with the given passive and own sides, exactly as the reference book does: it returns false if and only
   if the order is refused. A rejected fill-or-kill writes nothing; the index agrees with the lists afterwards if and
   only if the order was admissible.
   */
  method AddOn(passive: Side, own: Side, slots: SlotPool, index: OrderIndex, onBids: bool, o: Order, ghost stamp: nat)
    returns (ok: bool, reports: seq<ExecutionReport>)
    requires Intact(passive, own, slots, index) && Consistent(passive, own, slots, index, onBids)
    requires NoEmptyLevel(passive.queues) && NoEmptyLevel(own.queues) && onBids == o.dir.Sell?
    modifies passive, passive.prices, passive.qtys, passive.counts, passive.heads, passive.tails
    modifies own, own.prices, own.qtys, own.counts, own.heads, own.tails
    modifies slots, slots.ids, slots.accounts, slots.qtys, slots.prices, slots.nexts, slots.prevs, slots.freeNexts
    modifies index, index.table
    ensures Intact(passive, own, slots, index) && Listed(passive, own, slots, onBids)
    ensures var caps := Caps(own.prices.Length, slots.ids.Length);
            var b := BookFor(o.dir, old(passive.queues), old(own.queues), stamp);
            var r := AddOrder(caps, b, o);
            && Matches(r, o, ok, reports, BookFor(o.dir, passive.queues, own.queues, stamp))
            && (ok <==> !Refused(caps, b, o))
            && (Consistent(passive, own, slots, index, onBids) <==> Admissible(caps, b, Add(o)))
            && (r.disposition.Rested? ==>
                  BoundTo(slots, index, !onBids, o.price, RefOrder(o.id, r.disposition.rem, o.account, stamp)))
            && (r.disposition.Rejected? ==>
                  && unchanged(passive, passive.prices, passive.qtys, passive.counts, passive.heads, passive.tails)
                  && unchanged(own, own.prices, own.qtys, own.counts, own.heads, own.tails)
                  && unchanged(slots, slots.ids, slots.accounts, slots.qtys, slots.prices)
                  && unchanged(slots.nexts, slots.prevs, slots.freeNexts, index, index.table))
  {
    RefusedExactly(Caps(own.prices.Length, slots.ids.Length), BookFor(o.dir, passive.queues, own.queues, stamp), o);
    var kill := MustKill(passive, own, slots, index, onBids, o);
    if kill {
      return false, [];
    }
    ok, reports := MatchAndRest(passive, own, slots, index, onBids, o, stamp);
  }
}
