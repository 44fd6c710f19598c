/**
 The reference book: per side an ordered map from price to a FIFO queue, written as the sequence of its
 (price, queue) pairs in iteration order, best price first. Every operation is a pure function.

 Each resting order carries an arrival stamp. Stamps are bookkeeping: no operation reads one.
 */
module RefModel {
  import opened Types

  datatype RefOrder = RefOrder(id: nat, rem: nat, account: nat, stamp: nat)

  datatype Level = Level(price: int, queue: seq<RefOrder>)

  /** `clock` counts the events applied so far and is the stamp given to an order that is (re)queued. */
  datatype RefBook = RefBook(bids: seq<Level>, asks: seq<Level>, clock: nat)

  datatype FillRec = FillRec(aggr: nat, passive: nat, price: int, qty: nat)

  const EMPTY_BOOK := RefBook([], [], 0)

  function Own(b: RefBook, dir: Direction): seq<Level> {
    if dir.Buy? then b.bids else b.asks
  }

  function Passive(b: RefBook, dir: Direction): seq<Level> {
    if dir.Buy? then b.asks else b.bids
  }

  function WithOwn(b: RefBook, dir: Direction, side: seq<Level>): RefBook {
    if dir.Buy? then b.(bids := side) else b.(asks := side)
  }

  function WithPassive(b: RefBook, dir: Direction, side: seq<Level>): RefBook {
    if dir.Buy? then b.(asks := side) else b.(bids := side)
  }

  /** Iteration order of a side: bids are descending, asks ascending. */
  predicate Before(desc: bool, p: int, q: int) {
    if desc then p > q else p < q
  }

  predicate Sorted(desc: bool, side: seq<Level>) {
    forall i, j :: 0 <= i < j < |side| ==> Before(desc, side[i].price, side[j].price)
  }

  predicate NoEmptyLevel(side: seq<Level>) {
    forall i :: 0 <= i < |side| ==> side[i].queue != []
  }

  // ----- matching

  /** The aggressor's limit refuses to trade at price px; a market order never refuses. */
  predicate Beyond(o: Order, px: int) {
    o.kind != Market && if o.dir.Buy? then o.price < px else o.price > px
  }

  predicate SelfTrade(o: Order, account: nat) {
    o.account != 0 && o.account == account
  }

  datatype SweepResult = SweepResult(side: seq<Level>, fills: seq<FillRec>, rem: nat, walled: bool) {
    function After(fs: seq<FillRec>): SweepResult {
      this.(fills := fs + fills)
    }
  }

  /** Sweep the passive side from its best price, oldest order first, for up to `qty`. */
  function Sweep(o: Order, qty: nat, side: seq<Level>): SweepResult
    decreases |side|, if side == [] then 0 else |side[0].queue|
  {
    if side == [] then SweepResult(side, [], qty, false)
    else if side[0].queue == [] then Sweep(o, qty, side[1..])
    else if qty == 0 || Beyond(o, side[0].price) then SweepResult(side, [], qty, false)
    else
      var head := side[0].queue[0];
      if SelfTrade(o, head.account) then SweepResult(side, [], qty, true)
      else if qty < head.rem then
        SweepResult(Reduced(side, qty), [FillRec(o.id, head.id, side[0].price, qty)], 0, false)
      else
        Sweep(o, qty - head.rem, Popped(side)).After([FillRec(o.id, head.id, side[0].price, head.rem)])
  }

  /** The side after its first order lost `qty`. */
  function Reduced(side: seq<Level>, qty: nat): seq<Level>
    requires side != [] && side[0].queue != [] && qty <= side[0].queue[0].rem
  {
    var head := side[0].queue[0];
    side[0 := side[0].(queue := side[0].queue[0 := head.(rem := head.rem - qty)])]
  }

  /** The side after its first order left; its level stays, possibly empty. */
  function Popped(side: seq<Level>): seq<Level>
    requires side != [] && side[0].queue != []
  {
    side[0 := side[0].(queue := side[0].queue[1..])]
  }

  function FilledQty(fills: seq<FillRec>): nat {
    if fills == [] then 0 else FilledQty(fills[..|fills| - 1]) + fills[|fills| - 1].qty
  }

  /** The report of a fill that leaves the aggressor `leaves`. */
  function ReportFor(o: Order, leaves: int, f: FillRec): ExecutionReport {
    ExecutionReport(o.id, f.passive, f.price, f.qty, leaves, o.dir, if leaves == 0 then Fill else PartialFill)
  }

  /** The reports of a sequence of fills of an order for qty, each with what is left after it. */
  function ReportsOf(o: Order, qty: int, fills: seq<FillRec>): (rs: seq<ExecutionReport>)
    ensures |rs| == |fills|
  {
    if fills == [] then []
    else ReportsOf(o, qty, fills[..|fills| - 1]) + [ReportFor(o, qty - FilledQty(fills), fills[|fills| - 1])]
  }

  /** Quantity obtainable before the limit or an own order is met, clamped to 32 bits as it is added up. */
  function Available(o: Order, side: seq<Level>, total: nat): nat
    decreases |side|
  {
    if side == [] || Beyond(o, side[0].price) then total
    else
      var k := WallIn(o, side[0].queue);
      var t := ClampedSum(side[0].queue[..k], total);
      if k < |side[0].queue| then t else Available(o, side[1..], t)
  }

  /** Position of the first order of the aggressor's own account, or the length of the queue. */
  function WallIn(o: Order, q: seq<RefOrder>): (k: nat)
    ensures k <= |q|
    ensures forall j :: 0 <= j < k ==> !SelfTrade(o, q[j].account)
    ensures k < |q| ==> SelfTrade(o, q[k].account)
  {
    if q == [] || SelfTrade(o, q[0].account) then 0 else 1 + WallIn(o, q[1..])
  }

  function ClampedSum(q: seq<RefOrder>, total: nat): nat {
    if q == [] then total else ClampedSum(q[1..], Min(total + q[0].rem, UINT32_MAX))
  }

  // ----- resting

  function OrderCount(side: seq<Level>): nat {
    if side == [] then 0 else |side[0].queue| + OrderCount(side[1..])
  }

  function RestingCount(b: RefBook): nat {
    OrderCount(b.bids) + OrderCount(b.asks)
  }

  predicate HasLevel(side: seq<Level>, price: int) {
    exists i :: 0 <= i < |side| && side[i].price == price
  }

  /** Append an order to the queue of its price, creating the price level where the iteration order puts it. */
  function Rest(desc: bool, side: seq<Level>, price: int, ro: RefOrder): seq<Level> {
    if side == [] then [Level(price, [ro])]
    else if side[0].price == price then [Level(price, side[0].queue + [ro])] + side[1..]
    else if Before(desc, side[0].price, price) then [side[0]] + Rest(desc, side[1..], price, ro)
    else [Level(price, [ro])] + side
  }

  // ----- adding

  /** What became of an order's unfilled part. */
  datatype Disposition = Rejected | CapacityRejected | Rested(rem: nat) | Expired(lost: nat)

  datatype AddResult = AddResult(book: RefBook, fills: seq<FillRec>, disposition: Disposition) {
    predicate Ok() {
      disposition.Rested? || disposition.Expired?
    }
  }

  function AddOrder(caps: Caps, b: RefBook, o: Order): AddResult {
    if o.kind == FOK && Available(o, Passive(b, o.dir), 0) < o.qty then AddResult(b, [], Rejected)
    else
      var s := Sweep(o, o.qty, Passive(b, o.dir));
      var b1 := WithPassive(b, o.dir, s.side);
      if s.rem == 0 || o.kind != Limit || s.walled then AddResult(b1, s.fills, Expired(s.rem))
      else if !HasLevel(Own(b1, o.dir), o.price) && |Own(b1, o.dir)| >= caps.maxLevels then
        AddResult(b1, s.fills, CapacityRejected)
      else if RestingCount(b1) >= caps.maxOrders then AddResult(b1, s.fills, CapacityRejected)
      else
        var side := Rest(o.dir.Buy?, Own(b1, o.dir), o.price, RefOrder(o.id, s.rem, o.account, b.clock));
        AddResult(WithOwn(b1, o.dir, side), s.fills, Rested(s.rem))
  }

  /** The part of an order that comes to rest. */
  function Remainder(caps: Caps, b: RefBook, o: Order): RefOrder
    requires AddOrder(caps, b, o).disposition.Rested?
  {
    RefOrder(o.id, AddOrder(caps, b, o).disposition.rem, o.account, b.clock)
  }

  // ----- cancelling and modifying

  function IndexOf(q: seq<RefOrder>, id: nat): (k: nat)
    ensures k <= |q|
    ensures k < |q| ==> q[k].id == id
    ensures forall j :: 0 <= j < k ==> q[j].id != id
  {
    if q == [] || q[0].id == id then 0 else 1 + IndexOf(q[1..], id)
  }

  /** The first level whose queue holds the id, or the length of the side. */
  function LevelOf(side: seq<Level>, id: nat): (i: nat)
    ensures i <= |side|
    ensures i < |side| ==> IndexOf(side[i].queue, id) < |side[i].queue|
    ensures forall j {:trigger IndexOf(side[j].queue, id)} ::
              0 <= j < i ==> IndexOf(side[j].queue, id) == |side[j].queue|
  {
    if side == [] || IndexOf(side[0].queue, id) < |side[0].queue| then 0 else 1 + LevelOf(side[1..], id)
  }

  predicate Holds(side: seq<Level>, id: nat) {
    LevelOf(side, id) < |side|
  }

  predicate Resting(b: RefBook, id: nat) {
    Holds(b.bids, id) || Holds(b.asks, id)
  }

  function RemoveAt<T>(s: seq<T>, k: nat): (r: seq<T>)
    requires k < |s|
    ensures |r| == |s| - 1
    ensures forall j :: 0 <= j < |r| ==> r[j] == s[if j < k then j else j + 1]
  {
    s[..k] + s[k + 1..]
  }

  /** Give level i a new queue; a level whose queue became empty disappears. */
  function PutQueue(side: seq<Level>, i: nat, q: seq<RefOrder>): seq<Level>
    requires i < |side|
  {
    if q == [] then RemoveAt(side, i) else side[i := side[i].(queue := q)]
  }

  /** A quantity increase requeues the order at the back; a decrease keeps its place, down to leaving at 0. */
  function ModifyQueue(q: seq<RefOrder>, k: nat, qty: nat, stamp: nat): seq<RefOrder>
    requires k < |q|
  {
    if qty > q[k].rem then RemoveAt(q, k) + [q[k].(rem := qty, stamp := stamp)]
    else if qty == 0 then RemoveAt(q, k)
    else q[k := q[k].(rem := qty)]
  }

  function EraseFrom(side: seq<Level>, id: nat): seq<Level>
    requires Holds(side, id)
  {
    var i := LevelOf(side, id);
    PutQueue(side, i, RemoveAt(side[i].queue, IndexOf(side[i].queue, id)))
  }

  function ModifyIn(side: seq<Level>, id: nat, qty: nat, stamp: nat): seq<Level>
    requires Holds(side, id)
  {
    var i := LevelOf(side, id);
    PutQueue(side, i, ModifyQueue(side[i].queue, IndexOf(side[i].queue, id), qty, stamp))
  }

  function CancelOrder(b: RefBook, id: nat): RefBook {
    if Holds(b.bids, id) then b.(bids := EraseFrom(b.bids, id))
    else if Holds(b.asks, id) then b.(asks := EraseFrom(b.asks, id))
    else b
  }

  function ModifyOrder(b: RefBook, id: nat, qty: nat): RefBook {
    if Holds(b.bids, id) then b.(bids := ModifyIn(b.bids, id, qty, b.clock))
    else if Holds(b.asks, id) then b.(asks := ModifyIn(b.asks, id, qty, b.clock))
    else b
  }

  // ----- observing

  function QueueTotal(q: seq<RefOrder>): nat {
    if q == [] then 0 else QueueTotal(q[..|q| - 1]) + q[|q| - 1].rem
  }

  function BestOf(side: seq<Level>): int {
    if side == [] then PRICE_INVALID else side[0].price
  }

  /** The quantity shown at the top of a side: its total, wrapped to 32 bits. */
  function BestQtyOf(side: seq<Level>): nat {
    if side == [] then 0 else QueueTotal(side[0].queue) % U32
  }

  function Best(b: RefBook): BestQuote {
    BestQuote(BestOf(b.bids), BestOf(b.asks), BestQtyOf(b.bids), BestQtyOf(b.asks))
  }

  // ----- runs

  /** What a caller can observe of one event. */
  datatype Outcome = Outcome(ok: bool, fills: seq<FillRec>, quote: BestQuote)

  function Tick(b: RefBook): RefBook {
    b.(clock := b.clock + 1)
  }

  function Apply(caps: Caps, b: RefBook, e: Event): RefBook {
    Tick(match e
         case Add(o) => AddOrder(caps, b, o).book
         case Cancel(id) => CancelOrder(b, id)
         case Modify(id, q) => ModifyOrder(b, id, q))
  }

  function Observe(caps: Caps, b: RefBook, e: Event): Outcome {
    var quote := Best(Apply(caps, b, e));
    match e
    case Add(o) => var r := AddOrder(caps, b, o); Outcome(r.Ok(), r.fills, quote)
    case Cancel(id) => Outcome(Resting(b, id), [], quote)
    case Modify(id, _) => Outcome(Resting(b, id), [], quote)
  }

  function Run(caps: Caps, b: RefBook, es: seq<Event>): RefBook {
    if es == [] then b
    else Apply(caps, Run(caps, b, es[..|es| - 1]), es[|es| - 1])
  }

  function Outcomes(caps: Caps, b: RefBook, es: seq<Event>): (outs: seq<Outcome>)
    ensures |outs| == |es|
  {
    if es == [] then []
    else
      var init := es[..|es| - 1];
      Outcomes(caps, b, init) + [Observe(caps, Run(caps, b, init), es[|es| - 1])]
  }

  /** The reports that an event hands to the match callback. */
  function EventReports(caps: Caps, b: RefBook, e: Event): seq<ExecutionReport> {
    if e.Add? then ReportsOf(e.order, e.order.qty, AddOrder(caps, b, e.order).fills) else []
  }

  function RunReports(caps: Caps, b: RefBook, es: seq<Event>): seq<ExecutionReport> {
    if es == [] then []
    else
      var init := es[..|es| - 1];
      RunReports(caps, b, init) + EventReports(caps, Run(caps, b, init), es[|es| - 1])
  }

  /** The book after an order was matched and before its remainder rests. */
  function Swept(b: RefBook, o: Order): RefBook {
    WithPassive(b, o.dir, Sweep(o, o.qty, Passive(b, o.dir)).side)
  }

  /** An order that comes to rest does so under an id that no order is resting under at that moment. */
  predicate Admissible(caps: Caps, b: RefBook, e: Event) {
    e.Add? && AddOrder(caps, b, e.order).disposition.Rested? ==> !Resting(Swept(b, e.order), e.order.id)
  }

  /** Event n of the run is admissible when it comes. */
  predicate AdmissibleAt(caps: Caps, b: RefBook, es: seq<Event>, n: nat)
    requires n < |es|
  {
    Admissible(caps, Run(caps, b, es[..n]), es[n])
  }

  /** The first n events of the run are admissible. */
  predicate AdmissibleTo(caps: Caps, b: RefBook, es: seq<Event>, n: nat)
    requires n <= |es|
  {
    forall k {:trigger AdmissibleAt(caps, b, es, k)} :: 0 <= k < n ==> AdmissibleAt(caps, b, es, k)
  }

  predicate AdmissibleRun(caps: Caps, b: RefBook, es: seq<Event>) {
    AdmissibleTo(caps, b, es, |es|)
  }
}
