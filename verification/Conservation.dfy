/** Quantity conservation: the driver's ledger balances after every event of every run. */
module Conservation {
  import opened Types
  import opened RefModel
  import opened BookRep
  import opened Priority
  import opened Liquidity
  import opened Verdicts

  /** Totals kept by the driver; a fill moves its quantity out of both orders, hence the factor two. */
  datatype Ledger = Ledger(submitted: int, filled: int, cancelled: int, rejected: int, expired: int)

  function SideTotal(side: seq<Level>): nat {
    if side == [] then 0 else QueueTotal(side[0].queue) + SideTotal(side[1..])
  }

  function RestingTotal(b: RefBook): nat {
    SideTotal(b.bids) + SideTotal(b.asks)
  }

  predicate Balanced(l: Ledger, b: RefBook) {
    l.submitted == 2 * l.filled + RestingTotal(b) + l.cancelled + l.rejected + l.expired
  }

  /** The remaining quantity of an order a side holds. */
  function RemOf(side: seq<Level>, id: nat): nat
    requires Holds(side, id)
  {
    var i := LevelOf(side, id);
    side[i].queue[IndexOf(side[i].queue, id)].rem
  }

  function RestingQty(b: RefBook, id: nat): nat
    requires Resting(b, id)
  {
    if Holds(b.bids, id) then RemOf(b.bids, id) else RemOf(b.asks, id)
  }

  /** How the driver books an event from what it observes of it. */
  function Book(l: Ledger, caps: Caps, b: RefBook, e: Event): Ledger {
    match e
    case Add(o) =>
      var r := AddOrder(caps, b, o);
      var filled := FilledQty(r.fills);
      var l1 := l.(submitted := l.submitted + o.qty, filled := l.filled + filled);
      (match r.disposition
       case Rejected => l1.(rejected := l1.rejected + o.qty - filled)
       case CapacityRejected => l1.(expired := l1.expired + o.qty - filled)
       case Rested(_) => l1
       case Expired(_) => l1.(expired := l1.expired + o.qty - filled))
    case Cancel(id) =>
      if Resting(b, id) then l.(cancelled := l.cancelled + RestingQty(b, id)) else l
    case Modify(id, qty) =>
      if !Resting(b, id) then l
      else
        var rem := RestingQty(b, id);
        if qty >= rem then l.(submitted := l.submitted + qty - rem) else l.(cancelled := l.cancelled + rem - qty)
  }

  function Books(l: Ledger, caps: Caps, b: RefBook, es: seq<Event>): Ledger {
    if es == [] then l
    else
      var init := es[..|es| - 1];
      Book(Books(l, caps, b, init), caps, Run(caps, b, init), es[|es| - 1])
  }

  /** What each event adds to each total; no event takes anything off one. */
  lemma LedgerLaw(l: Ledger, caps: Caps, b: RefBook, e: Event)
    ensures var l' := Book(l, caps, b, e);
            && l'.submitted >= l.submitted && l'.filled >= l.filled && l'.cancelled >= l.cancelled
            && l'.rejected >= l.rejected && l'.expired >= l.expired
            && (match e
                case Add(o) =>
                  var filled := FilledQty(AddOrder(caps, b, o).fills);
                  var killed := o.kind == FOK && SideLiquidity(o, Opposite(b, o)) < o.qty;
                  var rests := WantsToRest(b, o) && !NoPlace(caps, b, o);
                  && l'.submitted == l.submitted + o.qty && l'.filled == l.filled + filled
                  && l'.cancelled == l.cancelled && l'.rejected == l.rejected + (if killed then o.qty else 0)
                  && l'.expired == l.expired + (if killed || rests then 0 else o.qty - filled)
                case Cancel(id) =>
                  l' == l.(cancelled := l.cancelled + (if Resting(b, id) then RestingQty(b, id) else 0))
                case Modify(id, qty) =>
                  var rem := if Resting(b, id) then RestingQty(b, id) else qty;
                  && l'.submitted == l.submitted + (if qty > rem then qty - rem else 0)
                  && l'.cancelled == l.cancelled + (if qty < rem then rem - qty else 0)
                  && l'.filled == l.filled && l'.rejected == l.rejected && l'.expired == l.expired)
  {
    if e.Add? {
      RefusedExactly(caps, b, e.order);
      AvailableIsClamped(e.order, Opposite(b, e.order), 0);
      SweepFills(e.order, e.order.qty, Opposite(b, e.order));
    }
  }

  // ----- what the operations do to the resting total

  lemma {:induction false} TotalAt(side: seq<Level>, i: nat)
    requires i < |side|
    ensures SideTotal(side) == SideTotal(RemoveAt(side, i)) + QueueTotal(side[i].queue)
  {
    if i == 0 {
      assert RemoveAt(side, 0) == side[1..];
    } else {
      TotalAt(side[1..], i - 1);
      assert RemoveAt(side, i)[1..] == RemoveAt(side[1..], i - 1);
    }
  }

  lemma TotalPutQueue(side: seq<Level>, i: nat, q: seq<RefOrder>)
    requires i < |side|
    ensures SideTotal(PutQueue(side, i, q)) == SideTotal(side) - QueueTotal(side[i].queue) + QueueTotal(q)
  {
    TotalAt(side, i);
    if q != [] {
      var side' := side[i := side[i].(queue := q)];
      TotalAt(side', i);
      assert RemoveAt(side', i) == RemoveAt(side, i);
    }
  }

  lemma {:induction false} TotalRest(desc: bool, side: seq<Level>, price: int, ro: RefOrder)
    ensures SideTotal(Rest(desc, side, price, ro)) == SideTotal(side) + ro.rem
  {
    TotalAppend([], ro);
    assert [] + [ro] == [ro];
    if side != [] {
      TotalAppend(side[0].queue, ro);
      TotalRest(desc, side[1..], price, ro);
      var r := Rest(desc, side, price, ro);
      assert r[1..] == (if side[0].price == price then side[1..]
                        else if Before(desc, side[0].price, price) then Rest(desc, side[1..], price, ro) else side);
    }
  }

  lemma TotalHead(side: seq<Level>, fill: nat)
    requires side != [] && side[0].queue != [] && fill <= side[0].queue[0].rem
    ensures SideTotal(Reduced(side, fill)) == SideTotal(side) - fill
    ensures SideTotal(Popped(side)) == SideTotal(side) - side[0].queue[0].rem
  {
    var q := side[0].queue;
    TotalUpdate(q, 0, q[0].(rem := q[0].rem - fill));
    TotalSplit(q, 0);
    assert RemoveAt(q, 0) == q[1..];
    assert Reduced(side, fill)[1..] == side[1..] && Popped(side)[1..] == side[1..];
  }

  /** What a sweep takes from the side is what it reports as filled. */
  lemma {:induction false} SweepConserves(o: Order, qty: nat, side: seq<Level>)
    ensures SideTotal(side) == SideTotal(Sweep(o, qty, side).side) + FilledQty(Sweep(o, qty, side).fills)
    decreases |side|, if side == [] then 0 else |side[0].queue|
  {
    if side != [] {
      if side[0].queue == [] {
        SweepConserves(o, qty, side[1..]);
      } else if qty > 0 && !Beyond(o, side[0].price) {
        var h := side[0].queue[0];
        if !SelfTrade(o, h.account) {
          if qty < h.rem {
            TotalHead(side, qty);
            FilledCons(FillRec(o.id, h.id, side[0].price, qty), []);
          } else {
            TotalHead(side, h.rem);
            SweepConserves(o, qty - h.rem, Popped(side));
            FilledCons(FillRec(o.id, h.id, side[0].price, h.rem), Sweep(o, qty - h.rem, Popped(side)).fills);
          }
        }
      }
    }
  }

  lemma EraseConserves(side: seq<Level>, id: nat)
    requires Holds(side, id)
    ensures SideTotal(EraseFrom(side, id)) == SideTotal(side) - RemOf(side, id)
  {
    var i := LevelOf(side, id);
    var k := IndexOf(side[i].queue, id);
    TotalSplit(side[i].queue, k);
    TotalPutQueue(side, i, RemoveAt(side[i].queue, k));
  }

  lemma ModifyConserves(side: seq<Level>, id: nat, qty: nat, stamp: nat)
    requires Holds(side, id)
    ensures SideTotal(ModifyIn(side, id, qty, stamp)) == SideTotal(side) - RemOf(side, id) + qty
  {
    var i := LevelOf(side, id);
    var q := side[i].queue;
    var k := IndexOf(q, id);
    TotalSplit(q, k);
    TotalUpdate(q, k, q[k].(rem := qty));
    TotalAppend(RemoveAt(q, k), q[k].(rem := qty, stamp := stamp));
    TotalPutQueue(side, i, ModifyQueue(q, k, qty, stamp));
  }

  lemma SidesTotal(b: RefBook, dir: Direction, passive: seq<Level>, own: seq<Level>)
    ensures RestingTotal(WithOwn(WithPassive(b, dir, passive), dir, own)) == SideTotal(passive) + SideTotal(own)
    ensures RestingTotal(WithPassive(b, dir, passive)) == SideTotal(passive) + SideTotal(Own(b, dir))
    ensures RestingTotal(b) == SideTotal(Passive(b, dir)) + SideTotal(Own(b, dir))
  {
  }

  lemma RestTotals(b: RefBook, o: Order, s: SweepResult, clock: nat)
    requires s == Sweep(o, o.qty, Passive(b, o.dir))
    ensures var own' := Rest(o.dir.Buy?, Own(b, o.dir), o.price, RefOrder(o.id, s.rem, o.account, clock));
            RestingTotal(WithOwn(WithPassive(b, o.dir, s.side), o.dir, own'))
            == RestingTotal(b) + o.qty - 2 * FilledQty(s.fills)
    ensures RestingTotal(WithPassive(b, o.dir, s.side)) == RestingTotal(b) - FilledQty(s.fills)
    ensures s.rem == o.qty - FilledQty(s.fills)
  {
    var passive, own := Passive(b, o.dir), Own(b, o.dir);
    var ro := RefOrder(o.id, s.rem, o.account, clock);
    SweepConserves(o, o.qty, passive);
    SweepFills(o, o.qty, passive);
    TotalRest(o.dir.Buy?, own, o.price, ro);
    SidesTotal(b, o.dir, s.side, Rest(o.dir.Buy?, own, o.price, ro));
  }

  /** The book of an added order, by what became of its remainder. */
  lemma AddedBook(caps: Caps, b: RefBook, o: Order)
    ensures var r := AddOrder(caps, b, o); var s := Sweep(o, o.qty, Passive(b, o.dir));
            match r.disposition
            case Rejected => r.book == b && r.fills == []
            case Rested(rem) =>
              && r.fills == s.fills && rem == s.rem
              && r.book == WithOwn(WithPassive(b, o.dir, s.side), o.dir,
                                   Rest(o.dir.Buy?, Own(b, o.dir), o.price, RefOrder(o.id, s.rem, o.account, b.clock)))
            case _ => r.book == WithPassive(b, o.dir, s.side) && r.fills == s.fills
  {
  }

  /** An added order moves its fills out of the resting total and its rested part in. */
  lemma AddTotals(caps: Caps, b: RefBook, o: Order)
    ensures var r := AddOrder(caps, b, o);
            RestingTotal(r.book) == RestingTotal(b) - FilledQty(r.fills)
                                    + (if r.disposition.Rested? then o.qty - FilledQty(r.fills) else 0)
  {
    AddedBook(caps, b, o);
    RestTotals(b, o, Sweep(o, o.qty, Passive(b, o.dir)), b.clock);
  }

  lemma AddConserves(l: Ledger, caps: Caps, b: RefBook, o: Order)
    requires Balanced(l, b)
    ensures Balanced(Book(l, caps, b, Add(o)), Apply(caps, b, Add(o)))
  {
    AddTotals(caps, b, o);
  }

  /** Every event keeps the ledger balanced. */
  lemma EventConserves(l: Ledger, caps: Caps, b: RefBook, e: Event)
    requires Balanced(l, b)
    ensures Balanced(Book(l, caps, b, e), Apply(caps, b, e))
  {
    match e
    case Add(o) => AddConserves(l, caps, b, o);
    case Cancel(id) =>
      if Holds(b.bids, id) {
        EraseConserves(b.bids, id);
      } else if Holds(b.asks, id) {
        EraseConserves(b.asks, id);
      }
    case Modify(id, qty) =>
      if Holds(b.bids, id) {
        ModifyConserves(b.bids, id, qty, b.clock);
      } else if Holds(b.asks, id) {
        ModifyConserves(b.asks, id, qty, b.clock);
      }
  }

  /** Submitted = 2 * filled + resting + cancelled + rejected + expired, after every event of every run. */
  lemma {:induction false} RunConserves(l: Ledger, caps: Caps, b: RefBook, es: seq<Event>)
    requires Balanced(l, b)
    ensures Balanced(Books(l, caps, b, es), Run(caps, b, es))
  {
    if es != [] {
      var init := es[..|es| - 1];
      RunConserves(l, caps, b, init);
      EventConserves(Books(l, caps, b, init), caps, Run(caps, b, init), es[|es| - 1]);
    }
  }

  /** A new ledger balances with the empty book, so that every run from there stays balanced. */
  lemma EmptyBalanced(l: Ledger)
    ensures Balanced(l, EMPTY_BOOK) <==> l.submitted == 2 * l.filled + l.cancelled + l.rejected + l.expired
  {
  }
}
