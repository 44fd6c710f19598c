/** Whole runs: an array-based book, whatever its hash and layout, behaves as the reference book on every event list. */
module Replay {
  import opened Types
  import opened RefModel
  import opened HalfBook
  import opened OrderBooks

  /** What the driver keeps of an execution report. */
  function FillOf(r: ExecutionReport): FillRec {
    FillRec(r.orderId, r.contraId, r.price, r.qty)
  }

  function FillsOf(rs: seq<ExecutionReport>): seq<FillRec> {
    seq(|rs|, i requires 0 <= i < |rs| => FillOf(rs[i]))
  }

  predicate AllBy(fills: seq<FillRec>, id: nat) {
    forall i :: 0 <= i < |fills| ==> fills[i].aggr == id
  }

  /** The reports of an order's fills carry exactly those fills. */
  lemma {:induction false} ReportsCarryFills(o: Order, qty: int, fills: seq<FillRec>)
    requires AllBy(fills, o.id)
    ensures FillsOf(ReportsOf(o, qty, fills)) == fills
  {
    if fills != [] {
      ReportsCarryFills(o, qty, fills[..|fills| - 1]);
    }
  }

  lemma {:induction false} SweepAggressor(o: Order, qty: nat, side: seq<Level>)
    ensures AllBy(Sweep(o, qty, side).fills, o.id)
    decreases |side|, if side == [] then 0 else |side[0].queue|
  {
    if side != [] {
      if side[0].queue == [] {
        SweepAggressor(o, qty, side[1..]);
      } else if qty > 0 && !Beyond(o, side[0].price) {
        var head := side[0].queue[0];
        if !SelfTrade(o, head.account) && qty >= head.rem {
          SweepAggressor(o, qty - head.rem, Popped(side));
        }
      }
    }
  }

  lemma AddReports(caps: Caps, b: RefBook, o: Order)
    ensures FillsOf(ReportsOf(o, o.qty, AddOrder(caps, b, o).fills)) == AddOrder(caps, b, o).fills
  {
    SweepAggressor(o, o.qty, Passive(b, o.dir));
    ReportsCarryFills(o, o.qty, AddOrder(caps, b, o).fills);
  }

  /** Add an order and collect its fills from the reports. */
  method StepAdd(book: OrderBook, o: Order, ghost caps: Caps, ghost b: RefBook) returns (ok: bool, fills: seq<FillRec>)
    requires book.Valid() && book.Capacity() == caps && book.Model() == b
    modifies book, book.bids, book.bids.prices, book.bids.qtys, book.bids.counts, book.bids.heads, book.bids.tails
    modifies book.asks, book.asks.prices, book.asks.qtys, book.asks.counts, book.asks.heads, book.asks.tails
    modifies book.slots, book.slots.ids, book.slots.accounts, book.slots.qtys, book.slots.prices
    modifies book.slots.nexts, book.slots.prevs, book.slots.freeNexts, book.index, book.index.table
    ensures book.Sound() && book.Model() == Apply(caps, b, Add(o)) && (book.Valid() <==> Admissible(caps, b, Add(o)))
    ensures ok == AddOrder(caps, b, o).Ok() && fills == AddOrder(caps, b, o).fills
    ensures book.reports == old(book.reports) + EventReports(caps, b, Add(o))
  {
    var n := |book.reports|;
    ok := book.AddOrder(o);
    AddReports(caps, b, o);
    assert book.reports[n..] == EventReports(caps, b, Add(o));
    fills := FillsOf(book.reports[n..]);
  }

  /** Apply one event to the book and collect what a caller observes. */
  method Step(book: OrderBook, e: Event, ghost caps: Caps, ghost b: RefBook) returns (ok: bool, fills: seq<FillRec>)
    requires book.Valid() && book.Capacity() == caps && book.Model() == b
    modifies book, book.bids, book.bids.prices, book.bids.qtys, book.bids.counts, book.bids.heads, book.bids.tails
    modifies book.asks, book.asks.prices, book.asks.qtys, book.asks.counts, book.asks.heads, book.asks.tails
    modifies book.slots, book.slots.ids, book.slots.accounts, book.slots.qtys, book.slots.prices
    modifies book.slots.nexts, book.slots.prevs, book.slots.freeNexts, book.index, book.index.table
    ensures book.Sound() && book.Model() == Apply(caps, b, e) && (book.Valid() <==> Admissible(caps, b, e))
    ensures ok == Observe(caps, b, e).ok && fills == Observe(caps, b, e).fills
    ensures book.reports == old(book.reports) + EventReports(caps, b, e)
  {
    fills := [];
    assert book.reports + [] == book.reports;
    match e
    case Add(o) =>
      ok, fills := StepAdd(book, o, caps, b);
    case Cancel(id) =>
      ok := book.CancelOrder(id);
    case Modify(id, q) =>
      ok := book.ModifyOrder(id, q);
  }

  /** One event and the quote after it. */
  method StepAndQuote(book: OrderBook, e: Event, ghost caps: Caps, ghost b: RefBook) returns (out: Outcome)
    requires book.Valid() && book.Capacity() == caps && book.Model() == b
    modifies book, book.bids, book.bids.prices, book.bids.qtys, book.bids.counts, book.bids.heads, book.bids.tails
    modifies book.asks, book.asks.prices, book.asks.qtys, book.asks.counts, book.asks.heads, book.asks.tails
    modifies book.slots, book.slots.ids, book.slots.accounts, book.slots.qtys, book.slots.prices
    modifies book.slots.nexts, book.slots.prevs, book.slots.freeNexts, book.index, book.index.table
    ensures book.Sound() && book.Model() == Apply(caps, b, e) && (book.Valid() <==> Admissible(caps, b, e))
    ensures out == Observe(caps, b, e) && book.reports == old(book.reports) + EventReports(caps, b, e)
  {
    var ok, fills := Step(book, e, caps, b);
    out := Outcome(ok, fills, book.Quote());
  }

  lemma RunSnoc(caps: Caps, b: RefBook, es: seq<Event>, n: nat)
    requires n < |es|
    ensures Run(caps, b, es[..n + 1]) == Apply(caps, Run(caps, b, es[..n]), es[n])
    ensures Outcomes(caps, b, es[..n + 1]) == Outcomes(caps, b, es[..n]) + [Observe(caps, Run(caps, b, es[..n]), es[n])]
    ensures RunReports(caps, b, es[..n + 1])
            == RunReports(caps, b, es[..n]) + EventReports(caps, Run(caps, b, es[..n]), es[n])
  {
    assert es[..n + 1][..n] == es[..n];
  }

  lemma ReportsSnoc(caps: Caps, b: RefBook, es: seq<Event>, n: nat, was: seq<ExecutionReport>)
    requires n < |es|
    ensures was + RunReports(caps, b, es[..n]) + EventReports(caps, Run(caps, b, es[..n]), es[n])
            == was + RunReports(caps, b, es[..n + 1])
  {
    RunSnoc(caps, b, es, n);
  }

  /** All events before the last are admissible, so that every event meets a book whose index agrees with its lists. */
  ghost predicate Replayable(caps: Caps, b: RefBook, es: seq<Event>) {
    es != [] ==> AdmissibleTo(caps, b, es, |es| - 1)
  }

  lemma StillReplayable(caps: Caps, b: RefBook, es: seq<Event>, n: nat)
    requires Replayable(caps, b, es) && n < |es|
    ensures AdmissibleTo(caps, b, es, n)
  {
  }

  lemma AdmissibleSnoc(caps: Caps, b: RefBook, es: seq<Event>, n: nat)
    requires n < |es| && AdmissibleTo(caps, b, es, n)
    ensures AdmissibleTo(caps, b, es, n + 1) <==> Admissible(caps, Run(caps, b, es[..n]), es[n])
  {
    if Admissible(caps, Run(caps, b, es[..n]), es[n]) {
      assert AdmissibleTo(caps, b, es, n + 1);
    } else {
      assert !AdmissibleAt(caps, b, es, n);
    }
  }

  /** Feed event n of a list to a book that has seen the ones before it. */
  method Feed(book: OrderBook, es: seq<Event>, n: nat, ghost caps: Caps, ghost b: RefBook,
              ghost was: seq<ExecutionReport>)
    returns (out: Outcome)
    requires book.Valid() && book.Capacity() == caps && n < |es| && book.Model() == Run(caps, b, es[..n])
    requires book.reports == was + RunReports(caps, b, es[..n]) && AdmissibleTo(caps, b, es, n)
    modifies book, book.bids, book.bids.prices, book.bids.qtys, book.bids.counts, book.bids.heads, book.bids.tails
    modifies book.asks, book.asks.prices, book.asks.qtys, book.asks.counts, book.asks.heads, book.asks.tails
    modifies book.slots, book.slots.ids, book.slots.accounts, book.slots.qtys, book.slots.prices
    modifies book.slots.nexts, book.slots.prevs, book.slots.freeNexts, book.index, book.index.table
    ensures book.Sound() && book.Model() == Run(caps, b, es[..n + 1])
    ensures book.Valid() <==> AdmissibleTo(caps, b, es, n + 1)
    ensures Outcomes(caps, b, es[..n + 1]) == Outcomes(caps, b, es[..n]) + [out]
    ensures book.reports == was + RunReports(caps, b, es[..n + 1])
  {
    RunSnoc(caps, b, es, n);
    AdmissibleSnoc(caps, b, es, n);
    ReportsSnoc(caps, b, es, n, was);
    out := StepAndQuote(book, es[n], caps, Run(caps, b, es[..n]));
  }

  /** Feed a list of events to a book. */
  method RunEvents(book: OrderBook, es: seq<Event>, ghost caps: Caps, ghost b: RefBook) returns (outs: seq<Outcome>)
    requires book.Valid() && book.Capacity() == caps && book.Model() == b && Replayable(caps, b, es)
    modifies book, book.bids, book.bids.prices, book.bids.qtys, book.bids.counts, book.bids.heads, book.bids.tails
    modifies book.asks, book.asks.prices, book.asks.qtys, book.asks.counts, book.asks.heads, book.asks.tails
    modifies book.slots, book.slots.ids, book.slots.accounts, book.slots.qtys, book.slots.prices
    modifies book.slots.nexts, book.slots.prevs, book.slots.freeNexts, book.index, book.index.table
    ensures book.Sound() && book.Model() == Run(caps, b, es) && (book.Valid() <==> AdmissibleRun(caps, b, es))
    ensures outs == Outcomes(caps, b, es) && book.reports == old(book.reports) + RunReports(caps, b, es)
  {
    outs := [];
    assert es[..0] == [];
    for n := 0 to |es|
      invariant book.Sound() && book.Model() == Run(caps, b, es[..n])
      invariant book.Valid() <==> AdmissibleTo(caps, b, es, n)
      invariant outs == Outcomes(caps, b, es[..n])
      invariant book.reports == old(book.reports) + RunReports(caps, b, es[..n])
    {
      StillReplayable(caps, b, es, n);
      var out := Feed(book, es, n, caps, b, old(book.reports));
      outs := outs + [out];
    }
    assert es[..|es|] == es;
  }

  /**
   From an empty book, every event list gives the return values, fills and best quotes of the reference book, for
   all capacities and all hash functions, up to and including the first order that rests under a resting id.
   */
  method ReplayFromEmpty(maxLevels: nat, maxOrders: nat, hash: nat -> nat, es: seq<Event>) returns (outs: seq<Outcome>)
    requires 0 < maxOrders <= NULL_IDX && Replayable(Caps(maxLevels, maxOrders), EMPTY_BOOK, es)
    ensures outs == Outcomes(Caps(maxLevels, maxOrders), EMPTY_BOOK, es)
  {
    var book := new OrderBook(maxLevels, maxOrders, hash);
    outs := RunEvents(book, es, Caps(maxLevels, maxOrders), EMPTY_BOOK);
  }

  /** A limit buy at price 10, without an account. */
  function Bid(id: nat, qty: Qty): Order {
    Order(id, 10, qty, Buy, Limit, 0)
  }

  function OneBid(): RefBook {
    RefBook([Level(10, [RefOrder(1, 5, 0, 0)])], [], 1)
  }

  function TwoBids(): RefBook {
    RefBook([Level(10, [RefOrder(1, 5, 0, 0), RefOrder(1, 7, 0, 1)])], [], 2)
  }

  lemma FirstBid(caps: Caps)
    requires caps.maxLevels > 0 && caps.maxOrders > 0
    ensures Apply(caps, EMPTY_BOOK, Add(Bid(1, 5))) == OneBid()
    ensures Admissible(caps, EMPTY_BOOK, Add(Bid(1, 5)))
  {
    assert AddOrder(caps, EMPTY_BOOK, Bid(1, 5)).disposition == Rested(5);
  }

  lemma SecondBid(caps: Caps)
    requires caps.maxLevels > 0 && caps.maxOrders > 1
    ensures Apply(caps, OneBid(), Add(Bid(1, 7))) == TwoBids() && !Admissible(caps, OneBid(), Add(Bid(1, 7)))
    ensures AddOrder(caps, OneBid(), Bid(1, 7)).disposition == Rested(7)
  {
    var b := OneBid();
    assert b.bids[0].price == 10;
    assert OrderCount(b.bids) == 1 + OrderCount(b.bids[1..]);
    assert b.bids[0].queue + [RefOrder(1, 7, 0, 1)] == TwoBids().bids[0].queue;
    assert IndexOf(b.bids[0].queue, 1) == 0 && LevelOf(b.bids, 1) == 0;
  }

  lemma CancelFirst()
    ensures CancelOrder(TwoBids(), 1).bids == [Level(10, [RefOrder(1, 7, 0, 1)])]
  {
    var bids := TwoBids().bids;
    assert IndexOf(bids[0].queue, 1) == 0 && LevelOf(bids, 1) == 0;
    assert RemoveAt(bids[0].queue, 0) == [RefOrder(1, 7, 0, 1)];
  }

  /** The second buy under id 1 rests, and the index leads to it. */
  method BidAgain(book: OrderBook)
    requires book.Valid() && book.Model() == OneBid()
    requires book.Capacity().maxLevels > 0 && book.Capacity().maxOrders > 1
    modifies book, book.bids, book.bids.prices, book.bids.qtys, book.bids.counts, book.bids.heads, book.bids.tails
    modifies book.asks, book.asks.prices, book.asks.qtys, book.asks.counts, book.asks.heads, book.asks.tails
    modifies book.slots, book.slots.ids, book.slots.accounts, book.slots.qtys, book.slots.prices
    modifies book.slots.nexts, book.slots.prevs, book.slots.freeNexts, book.index, book.index.table
    ensures book.Sound() && !book.Valid() && book.Model() == TwoBids()
    ensures BoundTo(book.slots, book.index, true, 10, RefOrder(1, 7, 0, 1))
  {
    SecondBid(book.Capacity());
    var _ := book.AddOrder(Bid(1, 7));
  }

  /**
   Why the index must agree with the lists: two buys rest at one price under id 1. Cancelling id 1, the reference
   keeps the one for 7, which is the one that the index leads to, so that the program would keep the one for 5.
   */
  method ReusedId(maxLevels: nat, maxOrders: nat, hash: nat -> nat) returns (book: OrderBook)
    requires 0 < maxLevels && 1 < maxOrders <= NULL_IDX
    ensures book.Sound() && !book.Valid() && book.Model() == TwoBids()
    ensures CancelOrder(TwoBids(), 1).bids == [Level(10, [RefOrder(1, 7, 0, 1)])]
    ensures BoundTo(book.slots, book.index, true, 10, RefOrder(1, 7, 0, 1))
  {
    FirstBid(Caps(maxLevels, maxOrders));
    CancelFirst();
    book := new OrderBook(maxLevels, maxOrders, hash);
    var _ := book.AddOrder(Bid(1, 5));
    BidAgain(book);
  }
}
