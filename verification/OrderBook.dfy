/** The limit order book: two sides, one slot pool and one id index, refining the reference book on every run. */
module OrderBooks {
  import opened Types
  import opened RefModel
  import opened RefLaws
  import opened OrderIndexing
  import opened SideRep
  import opened BookLaws
  import opened Sides
  import opened SlotPools
  import opened HalfBook
  import opened Modifying
  import opened Verdicts
  import opened Adding

  // ----- operations on the four parts, whichever side an order is on

  /** Two sides without a common array. */
  method NewSides(maxLevels: nat) returns (bids: Side, asks: Side)
    ensures bids.Valid() && asks.Valid() && bids.State() == SideState([], [], []) == asks.State()
    ensures bids.prices.Length == asks.prices.Length == maxLevels && fresh(bids) && fresh(asks) && bids != asks
    ensures fresh(bids.qtys) && fresh(bids.counts) && fresh(bids.heads) && fresh(bids.tails) && fresh(bids.prices)
    ensures fresh(asks.qtys) && fresh(asks.counts) && fresh(asks.heads) && fresh(asks.tails) && fresh(asks.prices)
    ensures NotIn(bids.qtys, asks) && NotIn(bids.counts, asks) && NotIn(bids.heads, asks) && NotIn(bids.tails, asks)
    ensures bids.prices != asks.prices
  {
    bids := new Side(maxLevels);
    asks := new Side(maxLevels);
  }

  method NewParts(maxLevels: nat, maxOrders: nat, hash: nat -> nat)
    returns (bids: Side, asks: Side, slots: SlotPool, index: OrderIndex)
    requires 0 < maxOrders <= NULL_IDX
    ensures Intact(bids, asks, slots, index) && Consistent(bids, asks, slots, index, true)
    ensures bids.queues == [] && asks.queues == []
    ensures bids.prices.Length == maxLevels && slots.ids.Length == maxOrders
    ensures fresh(bids) && fresh(bids.qtys) && fresh(bids.counts) && fresh(bids.heads) && fresh(bids.tails)
    ensures fresh(bids.prices)
    ensures fresh(asks) && fresh(asks.qtys) && fresh(asks.counts) && fresh(asks.heads) && fresh(asks.tails)
    ensures fresh(asks.prices)
    ensures fresh(slots) && fresh(slots.ids) && fresh(slots.qtys) && fresh(slots.nexts) && fresh(slots.prevs)
    ensures fresh(slots.freeNexts) && fresh(slots.prices) && fresh(slots.accounts) && fresh(index) && fresh(index.table)
  {
    slots := new SlotPool(maxOrders);
    EmptyBookOk(slots.view);
    index := new OrderIndex(2 * maxOrders, hash);
    bids, asks := NewSides(maxLevels);
  }

  method AddEither(bids: Side, asks: Side, slots: SlotPool, index: OrderIndex, o: Order, ghost caps: Caps,
                   ghost b: RefBook)
    returns (ok: bool, reports: seq<ExecutionReport>)
    requires Intact(bids, asks, slots, index) && Consistent(bids, asks, slots, index, true)
    requires NoEmptyLevel(bids.queues) && NoEmptyLevel(asks.queues)
    requires bids.queues == b.bids && asks.queues == b.asks && caps == Caps(bids.prices.Length, slots.ids.Length)
    modifies bids, bids.prices, bids.qtys, bids.counts, bids.heads, bids.tails
    modifies asks, asks.prices, asks.qtys, asks.counts, asks.heads, asks.tails
    modifies slots, slots.ids, slots.accounts, slots.qtys, slots.prices, slots.nexts, slots.prevs, slots.freeNexts
    modifies index, index.table
    ensures Intact(bids, asks, slots, index) && Listed(bids, asks, slots, true)
    ensures var r := AddOrder(caps, b, o);
            && Matches(r, o, ok, reports, RefBook(bids.queues, asks.queues, b.clock))
            && (ok <==> !Refused(caps, b, o)) && (Agrees(slots, index) <==> Admissible(caps, b, Add(o)))
            && (r.disposition.Rested? ==> BoundTo(slots, index, o.dir.Buy?, o.price, Remainder(caps, b, o)))
            && (r.disposition.Rejected? ==>
                  && unchanged(bids, bids.prices, bids.qtys, bids.counts, bids.heads, bids.tails)
                  && unchanged(asks, asks.prices, asks.qtys, asks.counts, asks.heads, asks.tails)
                  && unchanged(slots, slots.ids, slots.accounts, slots.qtys, slots.prices)
                  && unchanged(slots.nexts, slots.prevs, slots.freeNexts, index, index.table))
  {
    if o.dir.Buy? {
      Flip(bids, asks, slots, index, true);
      ok, reports := AddOn(asks, bids, slots, index, false, o, b.clock);
      Flip(asks, bids, slots, index, false);
    } else {
      ok, reports := AddOn(bids, asks, slots, index, true, o, b.clock);
    }
  }

  method CancelBound(bids: Side, asks: Side, slots: SlotPool, index: OrderIndex, slot: nat, onBids: bool,
                     ghost id: nat, ghost stamp: nat)
    requires Intact(bids, asks, slots, index) && Consistent(bids, asks, slots, index, true)
    requires NoEmptyLevel(bids.queues) && NoEmptyLevel(asks.queues)
    requires id in index.bindings && index.bindings[id] == Place(slot, onBids)
    modifies bids, bids.prices, bids.qtys, bids.counts, bids.heads, bids.tails
    modifies asks, asks.prices, asks.qtys, asks.counts, asks.heads, asks.tails
    modifies slots, slots.nexts, slots.prevs, slots.freeNexts, index, index.table
    ensures Intact(bids, asks, slots, index) && Consistent(bids, asks, slots, index, true)
    ensures var b := RefBook(old(bids.queues), old(asks.queues), stamp);
            Resting(b, id) && RefBook(bids.queues, asks.queues, stamp) == CancelOrder(b, id)
  {
    if onBids {
      CancelOn(bids, asks, slots, index, true, slot, id);
    } else {
      Flip(bids, asks, slots, index, true);
      CancelOn(asks, bids, slots, index, false, slot, id);
      Flip(asks, bids, slots, index, false);
    }
  }

  method ModifyBound(bids: Side, asks: Side, slots: SlotPool, index: OrderIndex, slot: nat, onBids: bool, qty: nat,
                     ghost id: nat, ghost stamp: nat)
    requires Intact(bids, asks, slots, index) && Consistent(bids, asks, slots, index, true)
    requires NoEmptyLevel(bids.queues) && NoEmptyLevel(asks.queues)
    requires AllPositive(bids.queues) && AllPositive(asks.queues)
    requires id in index.bindings && index.bindings[id] == Place(slot, onBids)
    modifies bids, bids.prices, bids.qtys, bids.counts, bids.heads, bids.tails
    modifies asks, asks.prices, asks.qtys, asks.counts, asks.heads, asks.tails
    modifies slots, slots.qtys, slots.nexts, slots.prevs, slots.freeNexts, index, index.table
    ensures Intact(bids, asks, slots, index) && Consistent(bids, asks, slots, index, true)
    ensures var b := RefBook(old(bids.queues), old(asks.queues), stamp);
            Resting(b, id) && RefBook(bids.queues, asks.queues, stamp) == ModifyOrder(b, id, qty)
  {
    if onBids {
      ModifyOn(bids, asks, slots, index, true, slot, qty, id, stamp);
    } else {
      Flip(bids, asks, slots, index, true);
      ModifyOn(asks, bids, slots, index, false, slot, qty, id, stamp);
      Flip(asks, bids, slots, index, false);
    }
  }

  /** Look an id up: it is found exactly when it is resting, at the place the index binds it to. */
  method FindResting(bids: Side, asks: Side, slots: SlotPool, index: OrderIndex, id: nat, ghost stamp: nat)
    returns (found: bool, slot: nat, onBids: bool)
    requires Intact(bids, asks, slots, index) && Consistent(bids, asks, slots, index, true)
    ensures found == Resting(RefBook(bids.queues, asks.queues, stamp), id)
    ensures found ==> id in index.bindings && index.bindings[id] == Place(slot, onBids)
  {
    BoundIffResting(slots.view, true, bids.State(), asks.State(), index.bindings, id);
    found, slot, onBids := index.Lookup(id);
  }

  method CancelEither(bids: Side, asks: Side, slots: SlotPool, index: OrderIndex, id: nat, ghost stamp: nat)
    returns (ok: bool)
    requires Intact(bids, asks, slots, index) && Consistent(bids, asks, slots, index, true)
    requires NoEmptyLevel(bids.queues) && NoEmptyLevel(asks.queues)
    modifies bids, bids.prices, bids.qtys, bids.counts, bids.heads, bids.tails
    modifies asks, asks.prices, asks.qtys, asks.counts, asks.heads, asks.tails
    modifies slots, slots.nexts, slots.prevs, slots.freeNexts, index, index.table
    ensures Intact(bids, asks, slots, index) && Consistent(bids, asks, slots, index, true)
    ensures var b := RefBook(old(bids.queues), old(asks.queues), stamp);
            ok == Resting(b, id) && RefBook(bids.queues, asks.queues, stamp) == CancelOrder(b, id)
  {
    var slot, onBids;
    ok, slot, onBids := FindResting(bids, asks, slots, index, id, stamp);
    if ok {
      CancelBound(bids, asks, slots, index, slot, onBids, id, stamp);
    }
  }

  method ModifyEither(bids: Side, asks: Side, slots: SlotPool, index: OrderIndex, id: nat, qty: Qty, ghost stamp: nat)
    returns (ok: bool)
    requires Intact(bids, asks, slots, index) && Consistent(bids, asks, slots, index, true)
    requires NoEmptyLevel(bids.queues) && NoEmptyLevel(asks.queues)
    requires AllPositive(bids.queues) && AllPositive(asks.queues)
    modifies bids, bids.prices, bids.qtys, bids.counts, bids.heads, bids.tails
    modifies asks, asks.prices, asks.qtys, asks.counts, asks.heads, asks.tails
    modifies slots, slots.qtys, slots.nexts, slots.prevs, slots.freeNexts, index, index.table
    ensures Intact(bids, asks, slots, index) && Consistent(bids, asks, slots, index, true)
    ensures var b := RefBook(old(bids.queues), old(asks.queues), stamp);
            ok == Resting(b, id) && RefBook(bids.queues, asks.queues, stamp) == ModifyOrder(b, id, qty)
  {
    var slot, onBids;
    ok, slot, onBids := FindResting(bids, asks, slots, index, id, stamp);
    if ok {
      ModifyBound(bids, asks, slots, index, slot, onBids, qty, id, stamp);
    }
  }

  // ----- the same as events of a well-formed book

  method CancelEvent(bids: Side, asks: Side, slots: SlotPool, index: OrderIndex, id: nat, ghost b: RefBook)
    returns (ok: bool)
    requires Intact(bids, asks, slots, index) && Consistent(bids, asks, slots, index, true)
    requires WellFormed(b) && bids.queues == b.bids && asks.queues == b.asks
    modifies bids, bids.prices, bids.qtys, bids.counts, bids.heads, bids.tails
    modifies asks, asks.prices, asks.qtys, asks.counts, asks.heads, asks.tails
    modifies slots, slots.nexts, slots.prevs, slots.freeNexts, index, index.table
    ensures Intact(bids, asks, slots, index) && Listed(bids, asks, slots, true) && Agrees(slots, index)
    ensures ok == Resting(b, id) && RefBook(bids.queues, asks.queues, b.clock + 1) == Tick(CancelOrder(b, id))
    ensures WellFormed(RefBook(bids.queues, asks.queues, b.clock + 1))
  {
    CancelKeeps(b, id);
    ok := CancelEither(bids, asks, slots, index, id, b.clock);
  }

  method ModifyEvent(bids: Side, asks: Side, slots: SlotPool, index: OrderIndex, id: nat, qty: Qty, ghost b: RefBook)
    returns (ok: bool)
    requires Intact(bids, asks, slots, index) && Consistent(bids, asks, slots, index, true)
    requires WellFormed(b) && bids.queues == b.bids && asks.queues == b.asks
    modifies bids, bids.prices, bids.qtys, bids.counts, bids.heads, bids.tails
    modifies asks, asks.prices, asks.qtys, asks.counts, asks.heads, asks.tails
    modifies slots, slots.qtys, slots.nexts, slots.prevs, slots.freeNexts, index, index.table
    ensures Intact(bids, asks, slots, index) && Listed(bids, asks, slots, true) && Agrees(slots, index)
    ensures ok == Resting(b, id) && RefBook(bids.queues, asks.queues, b.clock + 1) == Tick(ModifyOrder(b, id, qty))
    ensures WellFormed(RefBook(bids.queues, asks.queues, b.clock + 1))
  {
    ModifyKeeps(b, id, qty);
    WellFormedPositive(true, b.bids, b.clock);
    WellFormedPositive(false, b.asks, b.clock);
    ok := ModifyEither(bids, asks, slots, index, id, qty, b.clock);
  }

  class OrderBook {
    const bids: Side
    const asks: Side
    const slots: SlotPool
    const index: OrderIndex
    /** The reports handed to the match callback, oldest first. */
    var reports: seq<ExecutionReport>
    /** The number of events so far; only the reference book's stamps use it. */
    ghost var clock: nat

    /** Arrays, levels, lists and counts agree with each other and with a well-formed reference book. */
    ghost predicate Sound()
      reads this
      reads bids, bids.prices, bids.qtys, bids.counts, bids.heads, bids.tails
      reads asks, asks.prices, asks.qtys, asks.counts, asks.heads, asks.tails
      reads slots, slots.ids, slots.qtys, slots.nexts, slots.prevs, slots.freeNexts, slots.prices, slots.accounts
      reads index, index.table
    {
      Intact(bids, asks, slots, index) && Listed(bids, asks, slots, true) && WellFormed(Model())
    }

    /** So does the index. */
    ghost predicate Valid()
      reads this
      reads bids, bids.prices, bids.qtys, bids.counts, bids.heads, bids.tails
      reads asks, asks.prices, asks.qtys, asks.counts, asks.heads, asks.tails
      reads slots, slots.ids, slots.qtys, slots.nexts, slots.prevs, slots.freeNexts, slots.prices, slots.accounts
      reads index, index.table
    {
      Sound() && Agrees(slots, index)
    }

    /** The reference book this book represents. */
    ghost function Model(): RefBook
      reads this, bids, asks
    {
      RefBook(bids.queues, asks.queues, clock)
    }

    function Capacity(): Caps {
      Caps(bids.prices.Length, slots.ids.Length)
    }

    /** An empty book, for any capacities and any hash function. */
    constructor (maxLevels: nat, maxOrders: nat, hash: nat -> nat)
      requires 0 < maxOrders <= NULL_IDX
      ensures Valid() && Model() == EMPTY_BOOK && Capacity() == Caps(maxLevels, maxOrders) && reports == []
      ensures fresh(bids) && fresh(bids.qtys) && fresh(bids.counts) && fresh(bids.heads) && fresh(bids.tails)
      ensures fresh(bids.prices)
      ensures fresh(asks) && fresh(asks.qtys) && fresh(asks.counts) && fresh(asks.heads) && fresh(asks.tails)
      ensures fresh(asks.prices)
      ensures fresh(slots) && fresh(slots.ids) && fresh(slots.qtys) && fresh(slots.nexts) && fresh(slots.prevs)
      ensures fresh(slots.freeNexts) && fresh(slots.prices) && fresh(slots.accounts) && fresh(index)
      ensures fresh(index.table)
    {
      var b, a, s, i := NewParts(maxLevels, maxOrders, hash);
      bids, asks, slots, index := b, a, s, i;
      reports := [];
      clock := 0;
    }

    /** Count an event. */
    ghost method Advance()
      requires Intact(bids, asks, slots, index) && Listed(bids, asks, slots, true)
      requires WellFormed(RefBook(bids.queues, asks.queues, clock + 1))
      modifies `clock
      ensures Sound() && Model() == RefBook(bids.queues, asks.queues, old(clock) + 1)
      ensures Valid() <==> old(Agrees(slots, index))
    {
      clock := clock + 1;
    }

    /** Hand the reports of an event to the callback, and count the event. */
    method Report(rs: seq<ExecutionReport>)
      requires Intact(bids, asks, slots, index) && Listed(bids, asks, slots, true)
      requires WellFormed(RefBook(bids.queues, asks.queues, clock + 1))
      modifies `reports, `clock
      ensures Sound() && Model() == RefBook(bids.queues, asks.queues, old(clock) + 1)
      ensures Valid() <==> old(Agrees(slots, index))
      ensures reports == old(reports) + rs
    {
      Advance();
      reports := reports + rs;
    }

    /**
     Match and rest an order; result, reports and new book are the reference's, and a rejected fill-or-kill writes
     nothing. A rested order is what the index now finds under its id; the index still agrees with the lists if and
     only if no other order rests under that id.
     */
    method AddOrder(o: Order) returns (ok: bool)
      requires Valid()
      modifies this, bids, bids.prices, bids.qtys, bids.counts, bids.heads, bids.tails
      modifies asks, asks.prices, asks.qtys, asks.counts, asks.heads, asks.tails
      modifies slots, slots.ids, slots.accounts, slots.qtys, slots.prices, slots.nexts, slots.prevs, slots.freeNexts
      modifies index, index.table
      ensures Sound() && Model() == Apply(Capacity(), old(Model()), Add(o))
      ensures Valid() <==> Admissible(Capacity(), old(Model()), Add(o))
      ensures ok <==> !Refused(Capacity(), old(Model()), o)
      ensures var r := RefModel.AddOrder(Capacity(), old(Model()), o);
              && ok == r.Ok() && reports == old(reports) + ReportsOf(o, o.qty, r.fills)
              && (r.disposition.Rested? ==>
                    BoundTo(slots, index, o.dir.Buy?, o.price, Remainder(Capacity(), old(Model()), o)))
              && (r.disposition.Rejected? ==>
                    && unchanged(bids, bids.prices, bids.qtys, bids.counts, bids.heads, bids.tails)
                    && unchanged(asks, asks.prices, asks.qtys, asks.counts, asks.heads, asks.tails)
                    && unchanged(slots, slots.ids, slots.accounts, slots.qtys, slots.prices)
                    && unchanged(slots.nexts, slots.prevs, slots.freeNexts, index, index.table))
    {
      ghost var b := Model();
      AddKeeps(Capacity(), b, o);
      var rs;
      ok, rs := AddEither(bids, asks, slots, index, o, Capacity(), b);
      assert RefBook(bids.queues, asks.queues, clock + 1) == Tick(RefModel.AddOrder(Capacity(), b, o).book);
      Report(rs);
    }

    /** Cancel a resting order; succeeds exactly when the id is resting. */
    method CancelOrder(id: nat) returns (ok: bool)
      requires Valid()
      modifies this, bids, bids.prices, bids.qtys, bids.counts, bids.heads, bids.tails
      modifies asks, asks.prices, asks.qtys, asks.counts, asks.heads, asks.tails
      modifies slots, slots.nexts, slots.prevs, slots.freeNexts, index, index.table
      ensures Valid() && Model() == Apply(Capacity(), old(Model()), Cancel(id))
      ensures ok == Resting(old(Model()), id) && reports == old(reports)
    {
      ok := CancelEvent(bids, asks, slots, index, id, Model());
      Advance();
    }

    /** Change the quantity of a resting order; succeeds exactly when the id is resting. */
    method ModifyOrder(id: nat, qty: Qty) returns (ok: bool)
      requires Valid()
      modifies this, bids, bids.prices, bids.qtys, bids.counts, bids.heads, bids.tails
      modifies asks, asks.prices, asks.qtys, asks.counts, asks.heads, asks.tails
      modifies slots, slots.qtys, slots.nexts, slots.prevs, slots.freeNexts, index, index.table
      ensures Valid() && Model() == Apply(Capacity(), old(Model()), Modify(id, qty))
      ensures ok == Resting(old(Model()), id) && reports == old(reports)
    {
      ok := ModifyEvent(bids, asks, slots, index, id, qty, Model());
      Advance();
    }

    /** What the first entries of the level arrays hold. */
    lemma BestLevels()
      requires Sound()
      ensures bids.count > 0 ==> bids.prices[0] == BestOf(bids.queues) && bids.qtys[0] == BestQtyOf(bids.queues)
      ensures asks.count > 0 ==> asks.prices[0] == BestOf(asks.queues) && asks.qtys[0] == BestQtyOf(asks.queues)
    {
      if bids.count > 0 {
        OrdersAt(slots.view, true, bids.State(), asks.State(), 0);
        assert bids.levels[0].price == bids.prices[0];
      }
      if asks.count > 0 {
        OrdersAt(slots.view, false, asks.State(), bids.State(), 0);
        assert asks.levels[0].price == asks.prices[0];
      }
    }

    /** Prices and (32-bit) quantities of the best levels. */
    function Quote(): (q: BestQuote)
      requires Sound()
      reads this
      reads bids, bids.prices, bids.qtys, bids.counts, bids.heads, bids.tails
      reads asks, asks.prices, asks.qtys, asks.counts, asks.heads, asks.tails
      reads slots, slots.ids, slots.qtys, slots.nexts, slots.prevs, slots.freeNexts, slots.prices, slots.accounts
      reads index, index.table
      ensures q == Best(Model())
      ensures var b := Model().bids;
              && q.bidPrice == (if b == [] then -0x8000_0000_0000_0000 else b[0].price)
              && q.bidQty == (if b == [] then 0 else QueueTotal(b[0].queue) % 0x1_0000_0000)
      ensures var a := Model().asks;
              && q.askPrice == (if a == [] then -0x8000_0000_0000_0000 else a[0].price)
              && q.askQty == (if a == [] then 0 else QueueTotal(a[0].queue) % 0x1_0000_0000)
    {
      BestLevels();
      BestQuote(if bids.count > 0 then bids.prices[0] else PRICE_INVALID,
                if asks.count > 0 then asks.prices[0] else PRICE_INVALID,
                if bids.count > 0 then bids.qtys[0] else 0,
                if asks.count > 0 then asks.qtys[0] else 0)
    }
  }
}
