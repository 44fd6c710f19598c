/** The fundamental types shared by the book, its reference model and the engine. */
module Types {

  /** 2^32: level totals are kept in a 32-bit unsigned counter and wrap at this value. */
  const U32 := 0x1_0000_0000

  const UINT32_MAX := 0xFFFF_FFFF

  /** The "no slot" index, also used by the hash index as its "empty cell" mark. */
  const NULL_IDX := 0xFFFF_FFFF

  const PRICE_INVALID := -0x8000_0000_0000_0000

  type Qty = q: int | 0 <= q < 0x1_0000_0000

  datatype Direction = Buy | Sell

  datatype OrderType = Limit | Market | IOC | FOK

  /** An incoming order; account 0 means "untracked" and never takes part in self-trade prevention. */
  datatype Order = Order(id: nat, price: int, qty: Qty, dir: Direction, kind: OrderType, account: nat)

  datatype ExecType = Fill | PartialFill

  datatype ExecutionReport =
    ExecutionReport(orderId: nat, contraId: nat, price: int, qty: nat, leaves: int, dir: Direction, exec: ExecType)

  datatype BestQuote = BestQuote(bidPrice: int, askPrice: int, bidQty: nat, askQty: nat)

  /** The two fixed capacities of a book. */
  datatype Caps = Caps(maxLevels: nat, maxOrders: nat)

  datatype Event = Add(order: Order) | Cancel(id: nat) | Modify(target: nat, qty: Qty)

  function Min(a: int, b: int): int {
    if a < b then a else b
  }
}
