/**
 What every event of the reference book keeps: sorted prices, no empty level, positive quantities, FIFO stamps, no
 cross.
 */
module RefLaws {
  import opened Types
  import opened RefModel

  /** Positive quantities, in arrival order. */
  ghost predicate QueueOk(q: seq<RefOrder>, clock: nat) {
    && (forall k :: 0 <= k < |q| ==> q[k].rem > 0 && q[k].stamp < clock)
    && (forall j, k :: 0 <= j < k < |q| ==> q[j].stamp < q[k].stamp)
  }

  ghost predicate QueueAt(side: seq<Level>, clock: nat, i: nat)
    requires i < |side|
  {
    QueueOk(side[i].queue, clock)
  }

  ghost predicate QueuesOk(side: seq<Level>, clock: nat) {
    forall i {:trigger QueueAt(side, clock, i)} :: 0 <= i < |side| ==> QueueAt(side, clock, i)
  }

  ghost predicate SideWellFormed(desc: bool, side: seq<Level>, clock: nat) {
    Sorted(desc, side) && NoEmptyLevel(side) && QueuesOk(side, clock)
  }

  ghost predicate Uncrossed(b: RefBook) {
    b.bids != [] && b.asks != [] ==> b.bids[0].price < b.asks[0].price
  }

  ghost predicate WellFormed(b: RefBook) {
    SideWellFormed(true, b.bids, b.clock) && SideWellFormed(false, b.asks, b.clock) && Uncrossed(b)
  }

  predicate AllPositive(side: seq<Level>) {
    forall i, k :: 0 <= i < |side| && 0 <= k < |side[i].queue| ==> side[i].queue[k].rem > 0
  }

  lemma WellFormedPositive(desc: bool, side: seq<Level>, clock: nat)
    requires SideWellFormed(desc, side, clock)
    ensures AllPositive(side)
  {
    forall i, k | 0 <= i < |side| && 0 <= k < |side[i].queue|
      ensures side[i].queue[k].rem > 0
    {
      assert QueueAt(side, clock, i);
    }
  }

  // ----- sweep

  /** Behind the best level, no level is empty. */
  ghost predicate TailFull(side: seq<Level>) {
    forall i :: 1 <= i < |side| ==> side[i].queue != []
  }

  /** A sweep keeps the side in shape, never improves its best price, and stops only for a reason. */
  lemma {:induction false} SweepKeeps(o: Order, qty: nat, desc: bool, side: seq<Level>, clock: nat)
    requires Sorted(desc, side) && TailFull(side) && QueuesOk(side, clock)
    ensures SideWellFormed(desc, Sweep(o, qty, side).side, clock)
    ensures var r := Sweep(o, qty, side);
            && (r.side != [] ==> side != [] && !Before(desc, r.side[0].price, side[0].price))
            && (r.rem > 0 && !r.walled && r.side != [] ==> Beyond(o, r.side[0].price))
    decreases |side|, if side == [] then 0 else |side[0].queue|
  {
    if side != [] {
      assert QueueAt(side, clock, 0);
      if side[0].queue == [] {
        TailQueues(side, clock);
        SweepKeeps(o, qty, desc, side[1..], clock);
      } else if qty > 0 && !Beyond(o, side[0].price) {
        var head := side[0].queue[0];
        if !SelfTrade(o, head.account) {
          if qty < head.rem {
            HeadQueue(side, clock, Reduced(side, qty)[0]);
          } else {
            HeadQueue(side, clock, Popped(side)[0]);
            SweepKeeps(o, qty - head.rem, desc, Popped(side), clock);
          }
        }
      }
    }
  }

  lemma TailQueues(side: seq<Level>, clock: nat)
    requires side != [] && QueuesOk(side, clock)
    ensures QueuesOk(side[1..], clock)
  {
    forall i | 0 <= i < |side[1..]|
      ensures QueueAt(side[1..], clock, i)
    {
      assert QueueAt(side, clock, i + 1);
    }
  }

  lemma HeadQueue(side: seq<Level>, clock: nat, lvl: Level)
    requires side != [] && QueuesOk(side, clock) && QueueOk(lvl.queue, clock)
    ensures QueuesOk(side[0 := lvl], clock)
  {
    var side' := side[0 := lvl];
    forall i | 0 <= i < |side'|
      ensures QueueAt(side', clock, i)
    {
      assert QueueAt(side, clock, i);
    }
  }

  lemma QueueAges(q: seq<RefOrder>, clock: nat)
    requires QueueOk(q, clock)
    ensures QueueOk(q, clock + 1)
  {
  }

  // ----- rest

  /** Resting keeps the price order; every price is the new one or an old one. */
  lemma {:induction false} RestSorted(desc: bool, side: seq<Level>, price: int, ro: RefOrder)
    requires Sorted(desc, side) && NoEmptyLevel(side)
    ensures Sorted(desc, Rest(desc, side, price, ro)) && NoEmptyLevel(Rest(desc, side, price, ro))
    ensures var r := Rest(desc, side, price, ro);
            && r != []
            && (r[0].price == price || (side != [] && r[0].price == side[0].price))
            && forall i :: 0 <= i < |r| ==> r[i].price == price || HasLevel(side, r[i].price)
  {
    if side != [] && side[0].price != price && Before(desc, side[0].price, price) {
      RestSorted(desc, side[1..], price, ro);
      var r := Rest(desc, side[1..], price, ro);
      forall i | 0 <= i < |r|
        ensures Before(desc, side[0].price, r[i].price) && (r[i].price == price || HasLevel(side, r[i].price))
      {
        if r[i].price != price {
          var j :| 0 <= j < |side[1..]| && r[i].price == side[1..][j].price;
          assert side[1..][j] == side[j + 1];
        }
      }
    }
  }

  lemma {:induction false} RestQueues(desc: bool, side: seq<Level>, price: int, ro: RefOrder, clock: nat)
    requires QueuesOk(side, clock) && ro.rem > 0 && ro.stamp == clock
    ensures QueuesOk(Rest(desc, side, price, ro), clock + 1)
  {
    var r := Rest(desc, side, price, ro);
    if side != [] {
      TailQueues(side, clock);
      RestQueues(desc, side[1..], price, ro, clock);
    }
    var later := clock + 1;
    forall i | 0 <= i < |r|
      ensures QueueAt(r, later, i)
    {
      if side != [] {
        assert QueueAt(side, clock, 0);
        if side[0].price == price || Before(desc, side[0].price, price) {
          assert i > 0 && side[0].price == price ==> QueueAt(side, clock, i);
          assert i > 0 && side[0].price != price ==> QueueAt(Rest(desc, side[1..], price, ro), clock + 1, i - 1);
        } else {
          assert i > 0 ==> QueueAt(side, clock, i - 1);
        }
      }
    }
  }

  lemma RestKeeps(desc: bool, side: seq<Level>, price: int, ro: RefOrder, clock: nat)
    requires SideWellFormed(desc, side, clock) && ro.rem > 0 && ro.stamp == clock
    ensures SideWellFormed(desc, Rest(desc, side, price, ro), clock + 1)
    ensures var r := Rest(desc, side, price, ro);
            r != [] && (r[0].price == price || (side != [] && r[0].price == side[0].price))
  {
    RestSorted(desc, side, price, ro);
    RestQueues(desc, side, price, ro, clock);
  }

  // ----- replacing one queue

  lemma PutQueueKeeps(desc: bool, side: seq<Level>, i: nat, q: seq<RefOrder>, clock: nat)
    requires SideWellFormed(desc, side, clock) && i < |side| && QueueOk(q, clock + 1)
    ensures SideWellFormed(desc, PutQueue(side, i, q), clock + 1)
    ensures var r := PutQueue(side, i, q); r != [] ==> !Before(desc, r[0].price, side[0].price)
  {
    var r := PutQueue(side, i, q);
    var later := clock + 1;
    forall j | 0 <= j < |r|
      ensures QueueAt(r, later, j)
    {
      if q != [] && j == i {
        assert r[j].queue == q;
      } else {
        assert QueueAt(side, clock, if q == [] && j >= i then j + 1 else j);
      }
    }
  }

  lemma RemoveQueueOk(q: seq<RefOrder>, k: nat, clock: nat)
    requires k < |q| && QueueOk(q, clock)
    ensures QueueOk(RemoveAt(q, k), clock)
  {
  }

  lemma ModifyQueueOk(q: seq<RefOrder>, k: nat, qty: nat, clock: nat)
    requires k < |q| && QueueOk(q, clock)
    ensures QueueOk(ModifyQueue(q, k, qty, clock), clock + 1)
    ensures QueueOk(RemoveAt(q, k), clock + 1)
  {
    RemoveQueueOk(q, k, clock);
    QueueAges(RemoveAt(q, k), clock);
    if qty > q[k].rem {
      AppendQueueOk(RemoveAt(q, k), q[k].(rem := qty, stamp := clock), clock);
    } else if qty > 0 {
      UpdateQueueOk(q, k, qty, clock);
    }
  }

  lemma AppendQueueOk(q: seq<RefOrder>, ro: RefOrder, clock: nat)
    requires QueueOk(q, clock) && ro.rem > 0 && ro.stamp == clock
    ensures QueueOk(q + [ro], clock + 1)
  {
  }

  lemma UpdateQueueOk(q: seq<RefOrder>, k: nat, qty: nat, clock: nat)
    requires k < |q| && QueueOk(q, clock) && qty > 0
    ensures QueueOk(q[k := q[k].(rem := qty)], clock + 1)
  {
  }

  lemma EraseKeeps(desc: bool, side: seq<Level>, id: nat, clock: nat)
    requires SideWellFormed(desc, side, clock) && Holds(side, id)
    ensures SideWellFormed(desc, EraseFrom(side, id), clock + 1)
    ensures EraseFrom(side, id) != [] ==> !Before(desc, EraseFrom(side, id)[0].price, side[0].price)
  {
    var i := LevelOf(side, id);
    var k := IndexOf(side[i].queue, id);
    assert QueueAt(side, clock, i);
    ModifyQueueOk(side[i].queue, k, 0, clock);
    PutQueueKeeps(desc, side, i, RemoveAt(side[i].queue, k), clock);
  }

  lemma ModifyInKeeps(desc: bool, side: seq<Level>, id: nat, qty: nat, clock: nat)
    requires SideWellFormed(desc, side, clock) && Holds(side, id)
    ensures SideWellFormed(desc, ModifyIn(side, id, qty, clock), clock + 1)
    ensures ModifyIn(side, id, qty, clock) != [] ==>
              !Before(desc, ModifyIn(side, id, qty, clock)[0].price, side[0].price)
  {
    var i := LevelOf(side, id);
    var k := IndexOf(side[i].queue, id);
    assert QueueAt(side, clock, i);
    ModifyQueueOk(side[i].queue, k, qty, clock);
    PutQueueKeeps(desc, side, i, ModifyQueue(side[i].queue, k, qty, clock), clock);
  }

  lemma Ages(desc: bool, side: seq<Level>, clock: nat)
    requires SideWellFormed(desc, side, clock)
    ensures SideWellFormed(desc, side, clock + 1)
  {
    var later := clock + 1;
    forall i | 0 <= i < |side|
      ensures QueueAt(side, later, i)
    {
      assert QueueAt(side, clock, i);
    }
  }

  /** Replacing one side, without improving its best price, keeps the book in shape. */
  lemma ReplaceSide(b: RefBook, desc: bool, side: seq<Level>)
    requires WellFormed(b) && SideWellFormed(desc, side, b.clock + 1)
    requires var was := if desc then b.bids else b.asks;
             side != [] ==> was != [] && !Before(desc, side[0].price, was[0].price)
    ensures WellFormed(Tick(if desc then b.(bids := side) else b.(asks := side)))
  {
    Ages(true, b.bids, b.clock);
    Ages(false, b.asks, b.clock);
  }

  // ----- events

  lemma CancelKeeps(b: RefBook, id: nat)
    requires WellFormed(b)
    ensures WellFormed(Tick(CancelOrder(b, id)))
  {
    if Holds(b.bids, id) {
      EraseKeeps(true, b.bids, id, b.clock);
      ReplaceSide(b, true, EraseFrom(b.bids, id));
    } else if Holds(b.asks, id) {
      EraseKeeps(false, b.asks, id, b.clock);
      ReplaceSide(b, false, EraseFrom(b.asks, id));
    } else {
      Ages(true, b.bids, b.clock);
      ReplaceSide(b, true, b.bids);
    }
  }

  lemma ModifyKeeps(b: RefBook, id: nat, qty: nat)
    requires WellFormed(b)
    ensures WellFormed(Tick(ModifyOrder(b, id, qty)))
  {
    if Holds(b.bids, id) {
      ModifyInKeeps(true, b.bids, id, qty, b.clock);
      ReplaceSide(b, true, ModifyIn(b.bids, id, qty, b.clock));
    } else if Holds(b.asks, id) {
      ModifyInKeeps(false, b.asks, id, qty, b.clock);
      ReplaceSide(b, false, ModifyIn(b.asks, id, qty, b.clock));
    } else {
      Ages(true, b.bids, b.clock);
      ReplaceSide(b, true, b.bids);
    }
  }

  /** Matching only touches the passive side. */
  lemma MatchKeeps(b: RefBook, o: Order)
    requires WellFormed(b)
    ensures var s := Sweep(o, o.qty, Passive(b, o.dir));
            && SideWellFormed(o.dir.Sell?, s.side, b.clock)
            && WellFormed(Tick(WithPassive(b, o.dir, s.side)))
            && (s.rem > 0 && !s.walled && s.side != [] ==> Beyond(o, s.side[0].price))
  {
    var desc, passive := o.dir.Sell?, Passive(b, o.dir);
    SweepKeeps(o, o.qty, desc, passive, b.clock);
    Ages(desc, Sweep(o, o.qty, passive).side, b.clock);
    ReplaceSide(b, desc, Sweep(o, o.qty, passive).side);
  }

  /** Resting behind a passive side that refuses the price does not cross the book. */
  lemma RestingKeeps(b: RefBook, o: Order, swept: seq<Level>, rem: nat)
    requires WellFormed(b) && WellFormed(Tick(WithPassive(b, o.dir, swept))) && rem > 0
    requires swept != [] ==> Beyond(o, swept[0].price)
    ensures WellFormed(Tick(WithOwn(WithPassive(b, o.dir, swept), o.dir,
                                    Rest(o.dir.Buy?, Own(b, o.dir), o.price, RefOrder(o.id, rem, o.account, b.clock)))))
  {
    RestKeeps(o.dir.Buy?, Own(b, o.dir), o.price, RefOrder(o.id, rem, o.account, b.clock), b.clock);
  }

  lemma AddKeeps(caps: Caps, b: RefBook, o: Order)
    requires WellFormed(b)
    ensures WellFormed(Tick(AddOrder(caps, b, o).book))
  {
    MatchKeeps(b, o);
    var s := Sweep(o, o.qty, Passive(b, o.dir));
    if AddOrder(caps, b, o).disposition.Rejected? {
      Ages(true, b.bids, b.clock);
      ReplaceSide(b, true, b.bids);
    } else if AddOrder(caps, b, o).disposition.Rested? {
      RestingKeeps(b, o, s.side, s.rem);
    }
  }

  /** Every event keeps the book well formed and uncrossed. */
  lemma ApplyKeeps(caps: Caps, b: RefBook, e: Event)
    requires WellFormed(b)
    ensures WellFormed(Apply(caps, b, e))
  {
    match e
    case Add(o) => AddKeeps(caps, b, o);
    case Cancel(id) => CancelKeeps(b, id);
    case Modify(id, q) => ModifyKeeps(b, id, q);
  }

  /** Every state of every run from a well-formed book is well formed and uncrossed. */
  lemma {:induction false} RunKeeps(caps: Caps, b: RefBook, es: seq<Event>)
    requires WellFormed(b)
    ensures WellFormed(Run(caps, b, es))
  {
    if es != [] {
      RunKeeps(caps, b, es[..|es| - 1]);
      ApplyKeeps(caps, Run(caps, b, es[..|es| - 1]), es[|es| - 1]);
    }
  }
}
