/** Price-time priority, self-trade prevention and fill-or-kill, for every order of every run. */
module Priority {
  import opened Types
  import opened RefModel
  import opened RefLaws
  import opened Liquidity

  // ----- a side as one list of offers, best first

  datatype Offer = Offer(price: int, order: RefOrder)

  function Offers(side: seq<Level>): seq<Offer> {
    if side == [] then []
    else QueueOffers(side[0].price, side[0].queue) + Offers(side[1..])
  }

  function QueueOffers(price: int, q: seq<RefOrder>): (r: seq<Offer>)
    ensures |r| == |q| && forall k :: 0 <= k < |q| ==> r[k] == Offer(price, q[k])
  {
    seq(|q|, k requires 0 <= k < |q| => Offer(price, q[k]))
  }

  /** x is to be executed before y: better price, or same price and earlier arrival. */
  predicate Outranks(desc: bool, x: Offer, y: Offer) {
    Before(desc, x.price, y.price) || (x.price == y.price && x.order.stamp < y.order.stamp)
  }

  ghost predicate Ranked(desc: bool, offers: seq<Offer>) {
    forall i, j :: 0 <= i < j < |offers| ==> Outranks(desc, offers[i], offers[j])
  }

  lemma {:induction false} OfferOf(side: seq<Level>, x: Offer)
    requires x in Offers(side)
    ensures exists i, k :: 0 <= i < |side| && 0 <= k < |side[i].queue| && x == Offer(side[i].price, side[i].queue[k])
  {
    var head := QueueOffers(side[0].price, side[0].queue);
    if x in head {
      var k :| 0 <= k < |head| && head[k] == x;
      assert x == Offer(side[0].price, side[0].queue[k]);
    } else {
      OfferOf(side[1..], x);
      var tail := side[1..];
      var i, k :| 0 <= i < |tail| && 0 <= k < |tail[i].queue| && x == Offer(tail[i].price, tail[i].queue[k]);
      assert side[1..][i] == side[i + 1];
    }
  }

  /** The offers of a well-formed side are strictly ranked by price and arrival, and positive. */
  lemma {:induction false} OffersRanked(desc: bool, side: seq<Level>, clock: nat)
    requires SideWellFormed(desc, side, clock)
    ensures Ranked(desc, Offers(side))
    ensures forall j :: 0 <= j < |Offers(side)| ==> Offers(side)[j].order.rem > 0
  {
    if side != [] {
      assert QueueAt(side, clock, 0);
      TailQueues(side, clock);
      OffersRanked(desc, side[1..], clock);
      var head, tail := QueueOffers(side[0].price, side[0].queue), Offers(side[1..]);
      forall j | 0 <= j < |tail|
        ensures Before(desc, side[0].price, tail[j].price)
      {
        OfferOf(side[1..], tail[j]);
      }
    }
  }

  // ----- the sweep takes offers from the front

  predicate Hits(o: Order, x: Offer, f: FillRec) {
    && f.aggr == o.id && f.passive == x.order.id && f.price == x.price && 0 < f.qty <= x.order.rem
    && !Beyond(o, x.price) && !SelfTrade(o, x.order.account)
  }

  /** The offers left when the fills took the front ones; only the last fill may be partial. */
  function Left(offers: seq<Offer>, fills: seq<FillRec>): seq<Offer>
    requires |fills| <= |offers|
  {
    var n := |fills|;
    if n == 0 || fills[n - 1].qty >= offers[n - 1].order.rem then offers[n..]
    else
      var ro := offers[n - 1].order;
      [offers[n - 1].(order := ro.(rem := ro.rem - fills[n - 1].qty))] + offers[n..]
  }

  /** Offer n is where an aggressor with something left stops. */
  predicate StopsAt(o: Order, offers: seq<Offer>, n: nat, walled: bool) {
    if walled then n < |offers| && !Beyond(o, offers[n].price) && SelfTrade(o, offers[n].order.account)
    else n >= |offers| || Beyond(o, offers[n].price)
  }

  /** The greedy outcome of matching qty against ranked offers. */
  ghost predicate Greedy(o: Order, qty: nat, offers: seq<Offer>, fills: seq<FillRec>, rem: nat, walled: bool) {
    var n := |fills|;
    && n <= |offers|
    && (forall j :: 0 <= j < n ==> Hits(o, offers[j], fills[j]))
    && (forall j :: 0 <= j < n && (j < n - 1 || rem > 0) ==> fills[j].qty == offers[j].order.rem)
    && qty == FilledQty(fills) + rem
    && (rem > 0 ==> StopsAt(o, offers, n, walled))
    && (rem == 0 ==> !walled)
  }

  lemma {:induction false} FilledCons(f: FillRec, fs: seq<FillRec>)
    ensures FilledQty([f] + fs) == f.qty + FilledQty(fs)
  {
    if fs != [] {
      FilledCons(f, fs[..|fs| - 1]);
      assert ([f] + fs)[..|fs|] == [f] + fs[..|fs| - 1];
    } else {
      assert ([f] + fs)[..0] == [];
    }
  }

  lemma GreedyCons(o: Order, qty: nat, offers: seq<Offer>, f: FillRec, fills: seq<FillRec>, rem: nat, walled: bool)
    requires offers != [] && Hits(o, offers[0], f) && f.qty == offers[0].order.rem <= qty
    requires Greedy(o, qty - f.qty, offers[1..], fills, rem, walled)
    ensures Greedy(o, qty, offers, [f] + fills, rem, walled)
  {
    FilledCons(f, fills);
    var fs := [f] + fills;
    assert forall j :: 1 <= j < |fs| ==> fs[j] == fills[j - 1] && offers[j] == offers[1..][j - 1];
    assert rem > 0 && |fs| < |offers| ==> offers[|fs|] == offers[1..][|fills|];
  }

  lemma LeftCons(offers: seq<Offer>, f: FillRec, fills: seq<FillRec>)
    requires offers != [] && f.qty == offers[0].order.rem && |fills| < |offers|
    ensures Left(offers, [f] + fills) == Left(offers[1..], fills)
  {
    var n := |fills| + 1;
    assert offers[1..][n - 1..] == offers[n..];
    if n > 1 {
      assert offers[1..][n - 2] == offers[n - 1] && ([f] + fills)[n - 1] == fills[n - 2];
    }
  }

  lemma GreedyPartial(o: Order, qty: nat, offers: seq<Offer>, f: FillRec)
    requires offers != [] && Hits(o, offers[0], f) && f.qty == qty < offers[0].order.rem
    ensures Greedy(o, qty, offers, [f], 0, false)
    ensures Left(offers, [f]) == [offers[0].(order := offers[0].order.(rem := offers[0].order.rem - qty))] + offers[1..]
  {
    FilledCons(f, []);
    assert [f] + [] == [f];
  }

  lemma GreedyNone(o: Order, qty: nat, offers: seq<Offer>, walled: bool)
    requires qty > 0 ==> StopsAt(o, offers, 0, walled)
    requires qty == 0 ==> !walled
    ensures Greedy(o, qty, offers, [], qty, walled) && Left(offers, []) == offers
  {
  }

  lemma Assoc<T>(a: seq<T>, b: seq<T>, c: seq<T>)
    ensures a + (b + c) == (a + b) + c
  {
  }

  lemma TailOfCons<T>(x: T, s: seq<T>)
    ensures ([x] + s)[1..] == s
  {
  }

  lemma SplitAt<T>(s: seq<T>, i: nat)
    requires i < |s|
    ensures s == s[..i] + s[i..] && s[i..] != [] && s[i..][0] == s[i] && s[i..][1..] == s[i + 1..]
  {
  }

  lemma QueueOffersFirst(price: int, q: seq<RefOrder>)
    requires q != []
    ensures QueueOffers(price, q) == [Offer(price, q[0])] + QueueOffers(price, q[1..])
  {
  }

  lemma PoppedOffers(side: seq<Level>)
    requires side != [] && side[0].queue != []
    ensures Offers(side) == [Offer(side[0].price, side[0].queue[0])] + Offers(Popped(side))
  {
    var q, first := side[0].queue, Offer(side[0].price, side[0].queue[0]);
    assert Popped(side)[1..] == side[1..];
    QueueOffersFirst(side[0].price, q);
    Assoc([first], QueueOffers(side[0].price, q[1..]), Offers(side[1..]));
  }

  lemma ReducedOffers(side: seq<Level>, qty: nat)
    requires side != [] && side[0].queue != [] && qty <= side[0].queue[0].rem
    ensures var h := side[0].queue[0];
            Offers(Reduced(side, qty)) == [Offer(side[0].price, h.(rem := h.rem - qty))] + Offers(Popped(side))
  {
    PoppedOffers(Reduced(side, qty));
    assert Popped(Reduced(side, qty)) == Popped(side);
  }

  /** The outcome of a sweep for qty that met these offers: greedy, and the other offers are left. */
  ghost predicate GreedyOutcome(o: Order, qty: nat, offers: seq<Offer>, r: SweepResult) {
    && Greedy(o, qty, offers, r.fills, r.rem, r.walled)
    && Offers(r.side) == Left(offers, r.fills)
  }

  lemma OutcomeCons(o: Order, qty: nat, x: Offer, offers: seq<Offer>, f: FillRec, r: SweepResult)
    requires Hits(o, x, f) && f.qty == x.order.rem <= qty && GreedyOutcome(o, qty - f.qty, offers, r)
    ensures GreedyOutcome(o, qty, [x] + offers, r.After([f]))
  {
    TailOfCons(x, offers);
    GreedyCons(o, qty, [x] + offers, f, r.fills, r.rem, r.walled);
    LeftCons([x] + offers, f, r.fills);
  }

  /** The sweep of qty executes offers in rank order, each completely before the next, and leaves the others. */
  ghost predicate SweptGreedily(o: Order, qty: nat, side: seq<Level>) {
    GreedyOutcome(o, qty, Offers(side), Sweep(o, qty, side))
  }

  /** An exhausted level has nothing to execute. */
  lemma GreedySkip(o: Order, qty: nat, side: seq<Level>)
    requires side != [] && side[0].queue == [] && SweptGreedily(o, qty, side[1..])
    ensures SweptGreedily(o, qty, side)
  {
    assert Offers(side) == Offers(side[1..]);
  }

  /** Nothing is executed: the order or the side is exhausted, or the first offer is refused. */
  lemma GreedyStop(o: Order, qty: nat, side: seq<Level>)
    requires side != [] ==> side[0].queue != []
    requires side == [] || qty == 0 || Beyond(o, side[0].price) || SelfTrade(o, side[0].queue[0].account)
    ensures SweptGreedily(o, qty, side)
  {
    if side != [] {
      PoppedOffers(side);
    }
    GreedyNone(o, qty, Offers(side), Sweep(o, qty, side).walled);
  }

  /** The first offer is more than enough. */
  lemma GreedyPart(o: Order, qty: nat, side: seq<Level>)
    requires side != [] && side[0].queue != [] && 0 < qty < side[0].queue[0].rem
    requires !Beyond(o, side[0].price) && !SelfTrade(o, side[0].queue[0].account)
    ensures SweptGreedily(o, qty, side)
  {
    PoppedOffers(side);
    ReducedOffers(side, qty);
    GreedyPartial(o, qty, Offers(side), FillRec(o.id, side[0].queue[0].id, side[0].price, qty));
  }

  /** The first offer is executed completely, and the sweep goes on. */
  lemma GreedyWhole(o: Order, qty: nat, side: seq<Level>)
    requires side != [] && side[0].queue != [] && 0 < side[0].queue[0].rem <= qty
    requires !Beyond(o, side[0].price) && !SelfTrade(o, side[0].queue[0].account)
    requires SweptGreedily(o, qty - side[0].queue[0].rem, Popped(side))
    ensures SweptGreedily(o, qty, side)
  {
    var h := side[0].queue[0];
    PoppedOffers(side);
    OutcomeCons(o, qty, Offer(side[0].price, h), Offers(Popped(side)), FillRec(o.id, h.id, side[0].price, h.rem),
                Sweep(o, qty - h.rem, Popped(side)));
  }

  /** Every sweep is greedy. */
  lemma {:induction false} SweepIsGreedy(o: Order, qty: nat, side: seq<Level>)
    requires AllPositive(side)
    ensures SweptGreedily(o, qty, side)
    decreases |side|, if side == [] then 0 else |side[0].queue|
  {
    if side != [] && side[0].queue == [] {
      SweepIsGreedy(o, qty, side[1..]);
      GreedySkip(o, qty, side);
    } else if side == [] || qty == 0 || Beyond(o, side[0].price) || SelfTrade(o, side[0].queue[0].account) {
      GreedyStop(o, qty, side);
    } else if qty < side[0].queue[0].rem {
      GreedyPart(o, qty, side);
    } else {
      SweepIsGreedy(o, qty - side[0].queue[0].rem, Popped(side));
      GreedyWhole(o, qty, side);
    }
  }

  // ----- laws of every run

  /** For an aggressor of that direction: a lower ask or a higher bid, or the same price and an earlier arrival. */
  predicate Better(dir: Direction, x: Offer, y: Offer) {
    || (if dir.Buy? then x.price < y.price else x.price > y.price)
    || (x.price == y.price && x.order.stamp < y.order.stamp)
  }

  /**
   In every reachable book, every fill of an incoming order hits an offer such that each offer that outranks
   it has been executed completely by an earlier fill of the same order; the price is the offer's and within
   the order's limit, and the two accounts are not the same tracked account.
   */
  lemma PriceTimePriority(caps: Caps, es: seq<Event>, o: Order, j: nat)
    requires j < |AddOrder(caps, Run(caps, EMPTY_BOOK, es), o).fills|
    ensures var b := Run(caps, EMPTY_BOOK, es);
            var offers := Offers(Passive(b, o.dir));
            var fills := AddOrder(caps, b, o).fills;
            && |fills| <= |offers| && Hits(o, offers[j], fills[j])
            && forall x :: x in offers && Better(o.dir, x, offers[j]) ==>
                 exists i :: 0 <= i < j && offers[i] == x && fills[i].qty == x.order.rem
  {
    var b := Run(caps, EMPTY_BOOK, es);
    RunKeeps(caps, EMPTY_BOOK, es);
    FillsFollowRank(o.dir.Sell?, Passive(b, o.dir), b.clock, o, j);
  }

  lemma FillsFollowRank(desc: bool, side: seq<Level>, clock: nat, o: Order, j: nat)
    requires SideWellFormed(desc, side, clock) && j < |Sweep(o, o.qty, side).fills|
    ensures var offers := Offers(side); var fills := Sweep(o, o.qty, side).fills;
            && |fills| <= |offers| && Hits(o, offers[j], fills[j])
            && forall x :: x in offers && Outranks(desc, x, offers[j]) ==>
                 exists i :: 0 <= i < j && offers[i] == x && fills[i].qty == x.order.rem
  {
    WellFormedPositive(desc, side, clock);
    SweepIsGreedy(o, o.qty, side);
    OffersRanked(desc, side, clock);
    var r := Sweep(o, o.qty, side);
    EarlierFilled(desc, o, Offers(side), r.fills, r.rem, r.walled, j);
  }

  lemma EarlierFilled(desc: bool, o: Order, offers: seq<Offer>, fills: seq<FillRec>, rem: nat, walled: bool, j: nat)
    requires Ranked(desc, offers) && Greedy(o, o.qty, offers, fills, rem, walled) && j < |fills|
    ensures forall x :: x in offers && Outranks(desc, x, offers[j]) ==>
              exists i :: 0 <= i < j && offers[i] == x && fills[i].qty == x.order.rem
  {
    forall x | x in offers && Outranks(desc, x, offers[j])
      ensures exists i :: 0 <= i < j && offers[i] == x && fills[i].qty == x.order.rem
    {
      var i :| 0 <= i < |offers| && offers[i] == x;
      assert i < j;
    }
  }

  /** An order with an account trades a prefix of what it would trade untracked; without a wall, exactly that. */
  lemma {:induction false} WallCutsPrefix(o: Order, qty: nat, side: seq<Level>)
    ensures Sweep(o, qty, side).fills <= Sweep(o.(account := 0), qty, side).fills
    ensures !Sweep(o, qty, side).walled ==> Sweep(o, qty, side) == Sweep(o.(account := 0), qty, side)
    ensures Sweep(o, qty, side).walled ==> o.account != 0 && Sweep(o, qty, side).rem > 0
    decreases |side|, if side == [] then 0 else |side[0].queue|
  {
    if side != [] {
      if side[0].queue == [] {
        WallCutsPrefix(o, qty, side[1..]);
      } else if qty > 0 && !Beyond(o, side[0].price) {
        var h := side[0].queue[0];
        if !SelfTrade(o, h.account) && qty >= h.rem {
          WallCutsPrefix(o, qty - h.rem, Popped(side));
        }
      }
    }
  }

  /** A walled order is accepted, but its remainder rests nowhere. */
  lemma WalledNeverRests(caps: Caps, b: RefBook, o: Order)
    requires Sweep(o, o.qty, Passive(b, o.dir)).walled && o.kind != FOK
    ensures var r := AddOrder(caps, b, o);
            && r.disposition.Expired? && r.disposition.lost > 0
            && Own(r.book, o.dir) == Own(b, o.dir)
            && r.fills <= Sweep(o.(account := 0), o.qty, Passive(b, o.dir)).fills
  {
    WallCutsPrefix(o, o.qty, Passive(b, o.dir));
  }

  /** A sweep obtains exactly the obtainable quantity, as far as it is wanted. */
  lemma {:induction false} SweepTakesAvailable(o: Order, qty: nat, side: seq<Level>)
    requires TailFull(side) && (side != [] && side[0].queue == [] ==> !Beyond(o, side[0].price))
    ensures Sweep(o, qty, side).rem == qty - Min(qty, SideLiquidity(o, side))
    decreases |side|, if side == [] then 0 else |side[0].queue|
  {
    if side != [] {
      LevelStep(o, side[0].queue, side[1..]);
      if side[0].queue == [] {
        SweepTakesAvailable(o, qty, side[1..]);
      } else if qty > 0 && !Beyond(o, side[0].price) {
        var h := side[0].queue[0];
        if !SelfTrade(o, h.account) && qty >= h.rem {
          SweepTakesAvailable(o, qty - h.rem, Popped(side));
          assert Popped(side)[1..] == side[1..];
        }
      }
    }
  }

  lemma Killed(caps: Caps, b: RefBook, o: Order)
    requires o.kind == FOK
    ensures SideLiquidity(o, Passive(b, o.dir)) < o.qty ==> AddOrder(caps, b, o) == AddResult(b, [], Rejected)
    ensures SideLiquidity(o, Passive(b, o.dir)) >= o.qty ==>
              var s := Sweep(o, o.qty, Passive(b, o.dir));
              AddOrder(caps, b, o) == AddResult(WithPassive(b, o.dir, s.side), s.fills, Expired(s.rem))
  {
    AvailableIsClamped(o, Passive(b, o.dir), 0);
  }

  /**
   Fill-or-kill is all or nothing, walls included: it is rejected, with no fill and the book untouched,
   exactly when less than the order is obtainable; otherwise it fills completely and meets no wall.
   */
  lemma FillOrKill(caps: Caps, b: RefBook, o: Order)
    requires o.kind == FOK && NoEmptyLevel(Passive(b, o.dir))
    ensures var r := AddOrder(caps, b, o); var passive := Passive(b, o.dir);
            if SideLiquidity(o, passive) < o.qty then r == AddResult(b, [], Rejected)
            else && r.disposition == Expired(0) && FilledQty(r.fills) == o.qty
                 && !Sweep(o, o.qty, passive).walled && Own(r.book, o.dir) == Own(b, o.dir)
  {
    var passive := Passive(b, o.dir);
    Killed(caps, b, o);
    SweepTakesAvailable(o, o.qty, passive);
    WallCutsPrefix(o, o.qty, passive);
    SweepFills(o, o.qty, passive);
  }

  /** Fills and remainder together are the order. */
  lemma {:induction false} SweepFills(o: Order, qty: nat, side: seq<Level>)
    ensures qty == FilledQty(Sweep(o, qty, side).fills) + Sweep(o, qty, side).rem
    decreases |side|, if side == [] then 0 else |side[0].queue|
  {
    if side != [] {
      if side[0].queue == [] {
        SweepFills(o, qty, side[1..]);
      } else if qty > 0 && !Beyond(o, side[0].price) {
        var h := side[0].queue[0];
        if !SelfTrade(o, h.account) {
          if qty < h.rem {
            FilledCons(FillRec(o.id, h.id, side[0].price, qty), []);
          } else {
            SweepFills(o, qty - h.rem, Popped(side));
            FilledCons(FillRec(o.id, h.id, side[0].price, h.rem), Sweep(o, qty - h.rem, Popped(side)).fills);
          }
        }
      }
    }
  }

  // ----- modifying and rank

  lemma {:induction false} OffersConcat(a: seq<Level>, b: seq<Level>)
    ensures Offers(a + b) == Offers(a) + Offers(b)
  {
    if a == [] {
      assert a + b == b;
    } else {
      OffersConcat(a[1..], b);
      assert (a + b)[0] == a[0] && (a + b)[1..] == a[1..] + b;
      Assoc(QueueOffers(a[0].price, a[0].queue), Offers(a[1..]), Offers(b));
    }
  }

  lemma OffersAt(side: seq<Level>, i: nat)
    requires i < |side|
    ensures Offers(side) == Offers(side[..i]) + QueueOffers(side[i].price, side[i].queue) + Offers(side[i + 1..])
  {
    OffersConcat(side[..i], side[i..]);
    SplitAt(side, i);
    Assoc(Offers(side[..i]), QueueOffers(side[i].price, side[i].queue), Offers(side[i + 1..]));
  }

  /** The place in the ranked offers of the order a side holds under an id. */
  function RankOf(side: seq<Level>, id: nat): nat
    requires Holds(side, id)
  {
    var i := LevelOf(side, id);
    |Offers(side[..i])| + IndexOf(side[i].queue, id)
  }

  lemma MiddleUpdate<T>(a: seq<T>, b: seq<T>, c: seq<T>, k: nat, x: T)
    requires k < |b|
    ensures (a + b + c)[|a| + k] == b[k]
    ensures (a + b + c)[|a| + k := x] == a + b[k := x] + c
  {
  }

  lemma QueueOffersUpdate(price: int, q: seq<RefOrder>, k: nat, ro: RefOrder)
    requires k < |q|
    ensures QueueOffers(price, q[k := ro]) == QueueOffers(price, q)[k := Offer(price, ro)]
  {
  }

  /** Replacing the k-th order of level i replaces one offer. */
  lemma EditOffer(side: seq<Level>, i: nat, k: nat, ro: RefOrder)
    requires i < |side| && k < |side[i].queue|
    ensures var j := |Offers(side[..i])| + k;
            && j < |Offers(side)| && Offers(side)[j] == Offer(side[i].price, side[i].queue[k])
            && Offers(side[i := side[i].(queue := side[i].queue[k := ro])])
               == Offers(side)[j := Offer(side[i].price, ro)]
  {
    var price, q := side[i].price, side[i].queue;
    var side' := side[i := side[i].(queue := q[k := ro])];
    OffersAt(side, i);
    OffersAt(side', i);
    assert side'[..i] == side[..i] && side'[i + 1..] == side[i + 1..];
    QueueOffersUpdate(price, q, k, ro);
    MiddleUpdate(Offers(side[..i]), QueueOffers(price, q), Offers(side[i + 1..]), k, Offer(price, ro));
  }

  /** A decrease that leaves something keeps the order's rank and every other offer. */
  lemma DecreaseKeepsRank(side: seq<Level>, id: nat, qty: nat, stamp: nat)
    requires Holds(side, id)
    requires var i := LevelOf(side, id); 0 < qty <= side[i].queue[IndexOf(side[i].queue, id)].rem
    ensures var j := RankOf(side, id); var offers := Offers(side);
            && j < |offers| && offers[j].order.id == id
            && Offers(ModifyIn(side, id, qty, stamp)) == offers[j := offers[j].(order := offers[j].order.(rem := qty))]
  {
    var i := LevelOf(side, id);
    var q := side[i].queue;
    var k := IndexOf(q, id);
    EditOffer(side, i, k, q[k].(rem := qty));
  }

  /** The k-th order of level i is among the offers. */
  lemma OfferIn(side: seq<Level>, i: nat, k: nat)
    requires i < |side| && k < |side[i].queue|
    ensures Offer(side[i].price, side[i].queue[k]) in Offers(side)
  {
    OffersAt(side, i);
    assert Offer(side[i].price, side[i].queue[k]) == QueueOffers(side[i].price, side[i].queue)[k];
  }

  /** The order that an increase requeues, and the level it goes to. */
  function Requeued(side: seq<Level>, id: nat, qty: nat, clock: nat): Offer
    requires Holds(side, id)
  {
    var i := LevelOf(side, id);
    Offer(side[i].price, side[i].queue[IndexOf(side[i].queue, id)].(rem := qty, stamp := clock))
  }

  /** An increase moves the order to the back of its level, with a new stamp. */
  lemma IncreasedSide(side: seq<Level>, id: nat, qty: nat, clock: nat)
    requires Holds(side, id)
    requires var i := LevelOf(side, id); qty > side[i].queue[IndexOf(side[i].queue, id)].rem
    ensures var i := LevelOf(side, id); var q := side[i].queue;
            ModifyIn(side, id, qty, clock)
            == side[i := side[i].(queue := RemoveAt(q, IndexOf(q, id)) + [Requeued(side, id, qty, clock).order])]
  {
  }

  /** An increase keeps the order among the offers and puts it behind every other offer of its price. */
  lemma IncreaseLosesRank(desc: bool, side: seq<Level>, id: nat, qty: nat, clock: nat, y: Offer)
    requires SideWellFormed(desc, side, clock) && Holds(side, id)
    requires var i := LevelOf(side, id); qty > side[i].queue[IndexOf(side[i].queue, id)].rem
    requires y in Offers(ModifyIn(side, id, qty, clock))
    ensures Requeued(side, id, qty, clock) in Offers(ModifyIn(side, id, qty, clock))
    ensures var x := Requeued(side, id, qty, clock); y == x || y.price != x.price || Outranks(desc, y, x)
  {
    var i := LevelOf(side, id);
    var after := ModifyIn(side, id, qty, clock);
    IncreasedSide(side, id, qty, clock);
    OfferIn(after, i, |after[i].queue| - 1);
    OfferOf(after, y);
    var i', k' :| 0 <= i' < |after| && 0 <= k' < |after[i'].queue| && y == Offer(after[i'].price, after[i'].queue[k']);
    if y.price == side[i].price {
      assert i' == i && QueueAt(side, clock, i);
    }
  }

  // ----- reports

  /** Report j takes its quantity off what the one before it left. */
  ghost predicate GoesOn(rs: seq<ExecutionReport>, qty: int, j: nat)
    requires j < |rs|
  {
    rs[j].leaves == (if j == 0 then qty else rs[j - 1].leaves) - rs[j].qty
  }

  /** What a receiver can rely on in the reports of one order. */
  ghost predicate ReportsLaw(o: Order, qty: int, rs: seq<ExecutionReport>) {
    && (forall j :: 0 <= j < |rs| ==> rs[j].qty > 0 && rs[j].leaves >= 0 && rs[j].orderId == o.id && rs[j].dir == o.dir)
    && (forall i, j :: 0 <= i < j < |rs| ==> rs[i].leaves > rs[j].leaves)
    && (forall j {:trigger GoesOn(rs, qty, j)} :: 0 <= j < |rs| ==> GoesOn(rs, qty, j))
    && (forall j :: 0 <= j < |rs| ==> (rs[j].exec == Fill <==> rs[j].leaves == 0))
  }

  /** A further report that starts where the last one left off. */
  lemma ReportsSnocLaw(o: Order, qty: int, rs: seq<ExecutionReport>, r: ExecutionReport)
    requires ReportsLaw(o, qty, rs) && r.qty > 0 && r.leaves >= 0 && r.orderId == o.id && r.dir == o.dir
    requires r.leaves == (if rs == [] then qty else rs[|rs| - 1].leaves) - r.qty && (r.exec == Fill <==> r.leaves == 0)
    ensures ReportsLaw(o, qty, rs + [r])
  {
    forall i | 0 <= i < |rs|
      ensures rs[i].leaves > r.leaves
    {
      assert i == |rs| - 1 || rs[i].leaves > rs[|rs| - 1].leaves;
    }
    forall j | 0 <= j <= |rs|
      ensures GoesOn(rs + [r], qty, j)
    {
      assert j < |rs| ==> GoesOn(rs, qty, j);
    }
  }

  lemma {:induction false} ReportsOfLaw(o: Order, qty: int, fills: seq<FillRec>)
    requires FilledQty(fills) <= qty && forall j :: 0 <= j < |fills| ==> fills[j].qty > 0
    ensures ReportsLaw(o, qty, ReportsOf(o, qty, fills))
    ensures fills != [] ==> ReportsOf(o, qty, fills)[|fills| - 1].leaves == qty - FilledQty(fills)
  {
    if fills != [] {
      var n := |fills| - 1;
      ReportsOfLaw(o, qty, fills[..n]);
      ReportsSnocLaw(o, qty, ReportsOf(o, qty, fills[..n]), ReportFor(o, qty - FilledQty(fills), fills[n]));
    }
  }

  /**
   The reports of an order: positive, strictly falling leaves that account for every unit; only the last can be a
   Fill.
   */
  lemma OrderReports(caps: Caps, b: RefBook, o: Order)
    requires AllPositive(Passive(b, o.dir))
    ensures var rs := ReportsOf(o, o.qty, AddOrder(caps, b, o).fills);
            && ReportsLaw(o, o.qty, rs)
            && forall j :: 0 <= j < |rs| - 1 ==> rs[j].exec == PartialFill
  {
    SweepIsGreedy(o, o.qty, Passive(b, o.dir));
    var fills := AddOrder(caps, b, o).fills;
    ReportsOfLaw(o, o.qty, fills);
    var rs := ReportsOf(o, o.qty, fills);
    forall j | 0 <= j < |rs| - 1
      ensures rs[j].exec == PartialFill
    {
      assert rs[j].leaves > rs[|rs| - 1].leaves;
    }
  }
}
