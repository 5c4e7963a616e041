/**
 * Strong types and the order record (include/ordbk/core/types.hpp and
 * include/ordbk/orderbook/order.hpp). Integer widths are explicit subset
 * types, so every assignment to a field of such a type is checked not to wrap.
 */
module Types {
  const TWO_TO_32: int := 0x1_0000_0000
  const TWO_TO_63: int := 0x8000_0000_0000_0000
  const TWO_TO_64: int := 0x1_0000_0000_0000_0000

  type U8 = x: int | 0 <= x < 0x100
  type U16 = x: int | 0 <= x < 0x1_0000
  type U32 = x: int | 0 <= x < 0x1_0000_0000
  type U64 = x: int | 0 <= x < 0x1_0000_0000_0000_0000
  type I64 = x: int | -0x8000_0000_0000_0000 <= x < 0x8000_0000_0000_0000

  type Price = I64
  type Quantity = U64
  type OrderId = U64
  type InstrumentId = U32
  type ClientId = U32

  datatype Option<+T> = None | Some(value: T)

  datatype Side = Buy | Sell
  /** The last constructor of each stands for the bytes that name no enumerator; the source casts them unchecked. */
  datatype OrderType = Limit | Market | OtherType
  datatype TimeInForce = GTC | IOC | FOK | Day | OtherTif
  datatype OrderStatus = New | PartiallyFilled | Filled | Cancelled | Rejected

  function Opposite(s: Side): Side {
    if s == Buy then Sell else Buy
  }

  /** The data fields of an order; timestamps are not modelled. */
  datatype OrderRec = OrderRec(
    id: OrderId,
    price: Price,
    initial: Quantity,
    filled: Quantity,
    instrument: InstrumentId,
    client: ClientId,
    status: OrderStatus,
    side: Side,
    kind: OrderType,
    tif: TimeInForce)
  {
    /** The uint64 difference, wrap-around included. */
    function Remaining(): Quantity {
      if filled <= initial then initial - filled else initial - filled + TWO_TO_64
    }

    predicate IsFullyFilled() {
      filled == initial
    }

    predicate IsTerminal() {
      status == Filled || status == Cancelled || status == Rejected
    }
  }

  /** What a zeroed pool slot holds. */
  const BlankOrder: OrderRec := OrderRec(0, 0, 0, 0, 0, 0, New, Buy, Limit, GTC)
}
