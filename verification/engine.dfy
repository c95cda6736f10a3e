/**
 * The types this layer exchanges with the matching engine and with the
 * decimal library. Neither library is modelled: a book is an opaque handle,
 * and the engine's answers reach the handlers as parameters.
 */
module Engine {
  import opened Wrappers

  /** A reference to one matching-engine session (`*ob.OrderBook`). */
  type BookHandle(==)

  /** A decimal number as the decimal library stores it: coefficient * 10^exponent. */
  datatype Decimal = Decimal(coefficient: int, exponent: int)

  /** `decimal.New(0, 0)`, also the zero value of the decimal type. */
  const Zero: Decimal := Decimal(0, 0)

  /** `ob.Side`: an integer enumeration; `Undefined` is any other integer of that type. */
  datatype Side = Buy | Sell | Undefined(code: int)

  /** The part of `ob.Order` this layer reads (its id) and reports. */
  datatype Order = Order(id: string, side: Side, quantity: Decimal, price: Decimal)

  /** The zero `ob.Order{}` value. */
  const ZeroOrder: Order := Order("", Undefined(0), Zero, Zero)

  /** What `ProcessLimitOrder` returns: done orders, partial order, partial quantity, error. */
  datatype LimitOutcome = LimitOutcome(
    done: seq<Order>,
    partial: Option<Order>,
    partialQuantityProcessed: Decimal,
    err: Option<string>)

  /** What `ProcessMarketOrder` returns: as for a limit order, plus the quantity left. */
  datatype MarketOutcome = MarketOutcome(
    done: seq<Order>,
    partial: Option<Order>,
    partialQuantityProcessed: Decimal,
    quantityLeft: Decimal,
    err: Option<string>)

  /** A serialized JSON document produced outside this layer. */
  type Json = string
}
