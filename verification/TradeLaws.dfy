/** What a trader can rely on, in every reachable book, said in prices, quantities, accounts and ids. */
module TradeLaws {
  import opened Types
  import opened RefModel
  import opened RefLaws
  import opened Priority
  import opened Verdicts

  /**
   Every fill of every order of every run: it is within the order's limit, which only a market order does not have,
   and hits an order resting on the opposite side at that price, for no more than its quantity, and of another
   account unless the aggressor has none.
   */
  lemma FillLaw(caps: Caps, es: seq<Event>, o: Order, j: nat)
    requires j < |AddOrder(caps, Run(caps, EMPTY_BOOK, es), o).fills|
    ensures var b := Run(caps, EMPTY_BOOK, es);
            var f, side := AddOrder(caps, b, o).fills[j], Opposite(b, o);
            && f.aggr == o.id
            && (o.kind == Market || (if o.dir.Buy? then f.price <= o.price else f.price >= o.price))
            && exists i, k ::
                 && 0 <= i < |side| && 0 <= k < |side[i].queue|
                 && f.price == side[i].price && f.passive == side[i].queue[k].id && 0 < f.qty <= side[i].queue[k].rem
                 && (o.account == 0 || side[i].queue[k].account != o.account)
  {
    var b := Run(caps, EMPTY_BOOK, es);
    PriceTimePriority(caps, es, o, j);
    var x := Offers(Opposite(b, o))[j];
    OfferOf(Opposite(b, o), x);
  }

  /**
   An order that is not fill-or-kill stops short of its quantity only for a reason: the opposite side is empty, or
   the best order left there is of its own account, or the order has a limit and the best price left is beyond it.
   */
  lemma StopLaw(caps: Caps, es: seq<Event>, o: Order)
    requires o.kind != FOK
    ensures var b := Run(caps, EMPTY_BOOK, es);
            var r := AddOrder(caps, b, o);
            var left, side := o.qty - FilledQty(r.fills), Opposite(r.book, o);
            && left >= 0
            && (left > 0 && side != [] ==>
                  && side[0].queue != []
                  && (|| (o.account != 0 && side[0].queue[0].account == o.account)
                      || (o.kind != Market && o.dir.Buy? && o.price < side[0].price)
                      || (o.kind != Market && o.dir.Sell? && o.price > side[0].price)))
  {
    var b := Run(caps, EMPTY_BOOK, es);
    RunKeeps(caps, EMPTY_BOOK, es);
    var side := Opposite(b, o);
    SweepFills(o, o.qty, side);
    SweepStop(o, o.qty, o.dir.Sell?, side, b.clock);
    RestedElsewhere(caps, b, o);
  }

  /** Resting does not touch the opposite side. */
  lemma RestedElsewhere(caps: Caps, b: RefBook, o: Order)
    requires o.kind != FOK
    ensures Opposite(AddOrder(caps, b, o).book, o) == Sweep(o, o.qty, Opposite(b, o)).side
    ensures AddOrder(caps, b, o).fills == Sweep(o, o.qty, Opposite(b, o)).fills
  {
  }

  /** Where a sweep stops: the first order left is one of the aggressor's own account, or its price is refused. */
  lemma {:induction false} SweepStop(o: Order, qty: nat, desc: bool, side: seq<Level>, clock: nat)
    requires Sorted(desc, side) && TailFull(side) && QueuesOk(side, clock)
    ensures var r := Sweep(o, qty, side);
            && (r.side != [] ==> r.side[0].queue != [])
            && (r.rem > 0 && r.side != [] ==>
                  || (o.account != 0 && r.side[0].queue[0].account == o.account)
                  || (o.kind != Market && o.dir.Buy? && o.price < r.side[0].price)
                  || (o.kind != Market && o.dir.Sell? && o.price > r.side[0].price))
    decreases |side|, if side == [] then 0 else |side[0].queue|
  {
    if side != [] {
      assert QueueAt(side, clock, 0);
      if side[0].queue == [] {
        TailQueues(side, clock);
        SweepStop(o, qty, desc, side[1..], clock);
      } else if qty > 0 && !Beyond(o, side[0].price) {
        var head := side[0].queue[0];
        if !SelfTrade(o, head.account) && qty >= head.rem {
          HeadQueue(side, clock, Popped(side)[0]);
          SweepStop(o, qty - head.rem, desc, Popped(side), clock);
        }
      }
    }
  }

  /** Every reachable book: bids fall, asks rise, best bid below best ask, and within a level arrivals in order. */
  lemma ShapeLaw(caps: Caps, es: seq<Event>, i: nat, j: nat)
    ensures var b := Run(caps, EMPTY_BOOK, es);
            && (i < j < |b.bids| ==> b.bids[i].price > b.bids[j].price)
            && (i < j < |b.asks| ==> b.asks[i].price < b.asks[j].price)
            && (b.bids != [] && b.asks != [] ==> b.bids[0].price < b.asks[0].price)
            && (i < |b.bids| ==> b.bids[i].queue != []) && (i < |b.asks| ==> b.asks[i].queue != [])
            && (i < |b.bids| && j < |b.bids[i].queue| ==> b.bids[i].queue[j].rem > 0)
            && (i < |b.asks| && j < |b.asks[i].queue| ==> b.asks[i].queue[j].rem > 0)
  {
    RunKeeps(caps, EMPTY_BOOK, es);
    var b := Run(caps, EMPTY_BOOK, es);
    WellFormedPositive(true, b.bids, b.clock);
    WellFormedPositive(false, b.asks, b.clock);
  }

  // ----- resting, cancelling and modifying add, remove and replace one offer

  lemma {:induction false} RestOffers(desc: bool, side: seq<Level>, price: int, ro: RefOrder)
    ensures multiset(Offers(Rest(desc, side, price, ro))) == multiset(Offers(side)) + multiset{Offer(price, ro)}
  {
    var x, r := Offer(price, ro), Rest(desc, side, price, ro);
    assert QueueOffers(price, [ro]) == [x];
    if side == [] {
      assert Offers(r) == QueueOffers(price, [ro]) + Offers([]);
    } else if side[0].price == price {
      assert r[1..] == side[1..];
      QueueOffersSnoc(price, side[0].queue, ro);
    } else if Before(desc, side[0].price, price) {
      assert r[1..] == Rest(desc, side[1..], price, ro);
      RestOffers(desc, side[1..], price, ro);
    } else {
      assert r[1..] == side;
    }
  }

  lemma QueueOffersSnoc(price: int, q: seq<RefOrder>, ro: RefOrder)
    ensures QueueOffers(price, q + [ro]) == QueueOffers(price, q) + [Offer(price, ro)]
  {
  }

  lemma RestedBook(caps: Caps, b: RefBook, o: Order)
    requires AddOrder(caps, b, o).disposition.Rested?
    ensures var s, r := Sweep(o, o.qty, Opposite(b, o)), AddOrder(caps, b, o);
            && s.rem > 0 && r.fills == s.fills
            && Same(r.book, o) == Rest(o.dir.Buy?, Same(b, o), o.price, RefOrder(o.id, s.rem, o.account, b.clock))
  {
  }

  lemma RemainderIs(caps: Caps, b: RefBook, o: Order) returns (left: nat)
    requires AddOrder(caps, b, o).disposition.Rested?
    ensures left > 0 && left == o.qty - FilledQty(AddOrder(caps, b, o).fills)
    ensures Same(AddOrder(caps, b, o).book, o)
            == Rest(o.dir.Buy?, Same(b, o), o.price, RefOrder(o.id, left, o.account, b.clock))
  {
    SweepFills(o, o.qty, Opposite(b, o));
    RestedBook(caps, b, o);
    left := Sweep(o, o.qty, Opposite(b, o)).rem;
  }

  /** A remainder rests as one offer: the order's own id, price and account, and what its fills left of it. */
  lemma RestLaw(caps: Caps, b: RefBook, o: Order)
    requires AddOrder(caps, b, o).disposition.Rested?
    ensures FilledQty(AddOrder(caps, b, o).fills) < o.qty
    ensures var r := AddOrder(caps, b, o);
            var x := Offer(o.price, RefOrder(o.id, o.qty - FilledQty(r.fills), o.account, b.clock));
            multiset(Offers(Same(r.book, o))) == multiset(Offers(Same(b, o))) + multiset{x}
  {
    var left := RemainderIs(caps, b, o);
    RestOffers(o.dir.Buy?, Same(b, o), o.price, RefOrder(o.id, left, o.account, b.clock));
  }

  lemma PutQueueOffers(side: seq<Level>, i: nat, q: seq<RefOrder>)
    requires i < |side|
    ensures Offers(PutQueue(side, i, q)) == Offers(side[..i]) + QueueOffers(side[i].price, q) + Offers(side[i + 1..])
  {
    var r := PutQueue(side, i, q);
    if q == [] {
      OffersConcat(side[..i], side[i + 1..]);
      assert Offers(side[..i]) + QueueOffers(side[i].price, []) == Offers(side[..i]);
    } else {
      OffersAt(r, i);
      assert r[..i] == side[..i] && r[i + 1..] == side[i + 1..];
    }
  }

  /** Erasing takes exactly the order found under the id out of the ranked offers; the others keep their order. */
  lemma EraseLaw(side: seq<Level>, id: nat)
    requires Holds(side, id)
    ensures var j := RankOf(side, id);
            && j < |Offers(side)| && Offers(side)[j].order.id == id
            && Offers(EraseFrom(side, id)) == RemoveAt(Offers(side), j)
  {
    var i := LevelOf(side, id);
    var q, k := side[i].queue, IndexOf(side[i].queue, id);
    OffersAt(side, i);
    PutQueueOffers(side, i, RemoveAt(q, k));
    assert QueueOffers(side[i].price, RemoveAt(q, k)) == RemoveAt(QueueOffers(side[i].price, q), k);
    RemoveMiddle(Offers(side[..i]), QueueOffers(side[i].price, q), Offers(side[i + 1..]), k);
  }

  lemma RemoveMiddle<T>(a: seq<T>, b: seq<T>, c: seq<T>, k: nat)
    requires k < |b|
    ensures (a + b + c)[|a| + k] == b[k]
    ensures RemoveAt(a + b + c, |a| + k) == a + RemoveAt(b, k) + c
  {
  }

  /** Cancelling erases on the side that holds the id, bids first, and leaves the other side alone. */
  lemma CancelLaw(b: RefBook, id: nat)
    ensures var b' := CancelOrder(b, id);
            && (Holds(b.bids, id) ==>
                  b'.asks == b.asks && Offers(b'.bids) == RemoveAt(Offers(b.bids), RankAmong(b.bids, id)))
            && (!Holds(b.bids, id) && Holds(b.asks, id) ==>
                  b'.bids == b.bids && Offers(b'.asks) == RemoveAt(Offers(b.asks), RankAmong(b.asks, id)))
            && (!Holds(b.bids, id) && !Holds(b.asks, id) ==> b' == b)
  {
    if Holds(b.bids, id) {
      EraseLaw(b.bids, id);
    } else if Holds(b.asks, id) {
      EraseLaw(b.asks, id);
    }
  }

  /** The rank of the order a side holds under an id. */
  ghost function RankAmong(side: seq<Level>, id: nat): (j: nat)
    requires Holds(side, id)
    ensures j < |Offers(side)| && Offers(side)[j].order.id == id
  {
    EraseLaw(side, id);
    RankOf(side, id)
  }

  /** Modifying to zero is cancelling. */
  lemma ModifyToZero(b: RefBook, id: nat)
    ensures ModifyOrder(b, id, 0) == CancelOrder(b, id)
  {
  }

  /** A side holds an id if and only if one of its queues has an order of that id. */
  lemma HoldsLaw(side: seq<Level>, id: nat)
    ensures Holds(side, id) <==> exists i, k :: 0 <= i < |side| && 0 <= k < |side[i].queue| && side[i].queue[k].id == id
  {
    if Holds(side, id) {
      var i := LevelOf(side, id);
      assert side[i].queue[IndexOf(side[i].queue, id)].id == id;
    } else {
      forall i, k | 0 <= i < |side| && 0 <= k < |side[i].queue|
        ensures side[i].queue[k].id != id
      {
        assert IndexOf(side[i].queue, id) == |side[i].queue|;
      }
    }
  }
}
