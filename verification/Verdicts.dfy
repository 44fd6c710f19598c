/** Which orders a book refuses, and what becomes of the others, said of the book and the order alone. */
module Verdicts {
  import opened Types
  import opened RefModel
  import opened Liquidity

  /** The side an order trades with, and the side it rests on. */
  function Opposite(b: RefBook, o: Order): seq<Level> {
    if o.dir.Buy? then b.asks else b.bids
  }

  function Same(b: RefBook, o: Order): seq<Level> {
    if o.dir.Buy? then b.bids else b.asks
  }

  /** A limit order of which something is left, and not because one of its own account's orders is next. */
  ghost predicate WantsToRest(b: RefBook, o: Order) {
    var s := Sweep(o, o.qty, Opposite(b, o));
    o.kind == Limit && s.rem > 0 && !s.walled
  }

  /** No level of its price and none to spare, or no slot to spare. */
  ghost predicate NoPlace(caps: Caps, b: RefBook, o: Order) {
    var own := Same(b, o);
    || (|own| >= caps.maxLevels && forall i :: 0 <= i < |own| ==> own[i].price != o.price)
    || OrderCount(Sweep(o, o.qty, Opposite(b, o)).side) + OrderCount(own) >= caps.maxOrders
  }

  /** A fill-or-kill order for more than it can obtain, or a remainder that wants to rest and has no place. */
  ghost predicate Refused(caps: Caps, b: RefBook, o: Order) {
    || (o.kind == FOK && SideLiquidity(o, Opposite(b, o)) < o.qty)
    || (WantsToRest(b, o) && NoPlace(caps, b, o))
  }

  /** An order is accepted if and only if it is not refused; its remainder rests if and only if it wants to and can. */
  lemma RefusedExactly(caps: Caps, b: RefBook, o: Order)
    ensures AddOrder(caps, b, o).Ok() <==> !Refused(caps, b, o)
    ensures AddOrder(caps, b, o).disposition.Rested? <==> WantsToRest(b, o) && !NoPlace(caps, b, o)
    ensures !AddOrder(caps, b, o).disposition.Rested? ==> Same(AddOrder(caps, b, o).book, o) == Same(b, o)
  {
    AvailableIsClamped(o, Opposite(b, o), 0);
  }
}
