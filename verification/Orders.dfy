/** Orders and trades (models/order.go, and the Trade record of engine/matching_engine.go).

    Prices and quantities are exact decimals in the source; they are `real` here, so that
    addition, subtraction and comparison mean the same.  `OrderRec` is the value of an order at
    one moment, `Order` the shared mutable object that the book, the engine and the caller hold.
 */
module Orders {

  type Decimal = real
  type Id = string

  datatype Option<+T> = None | Some(value: T)

  datatype OrderSide = Buy | Sell | OtherSide(text: string)
  datatype OrderType = Limit | Market | OtherType(text: string)
  datatype OrderStatus = Open | PartiallyFilled | Filled | Cancelled | Rejected

  datatype OrderRec = OrderRec(
    id: Id, clientId: string, instrument: string, side: OrderSide, kind: OrderType,
    price: Decimal, quantity: Decimal, filled: Decimal, status: OrderStatus, createdAt: int)
  {
    function Remaining(): Decimal { quantity - filled }

    predicate IsFilled() { filled == quantity }

    predicate IsPartiallyFilled() { 0.0 < filled < quantity }

    predicate CanBeFilled() { status == Open || status == PartiallyFilled }

    predicate IsValid() {
      && clientId != "" && instrument != ""
      && (side == Buy || side == Sell)
      && (kind == Limit || kind == Market)
      && quantity > 0.0
      && (kind == Limit ==> price > 0.0)
      && filled <= quantity
    }

    /** The status that a new cumulative filled quantity gives. */
    function StatusFor(newFilled: Decimal): OrderStatus {
      if newFilled == quantity then Filled
      else if 0.0 < newFilled < quantity then PartiallyFilled
      else status
    }

    function WithFilled(newFilled: Decimal): OrderRec {
      this.(filled := newFilled, status := StatusFor(newFilled))
    }

    function AfterFill(q: Decimal): OrderRec { WithFilled(filled + q) }

    /** What a resting order looks like between commands. */
    predicate IsResting() {
      kind == Limit && CanBeFilled() && 0.0 <= filled < quantity
    }
  }

  /** The other side of the book. */
  function Opposite(s: OrderSide): OrderSide {
    if s == Buy then Sell else Buy
  }

  datatype Trade = Trade(
    buyId: Id, sellId: Id, instrument: string, price: Decimal, quantity: Decimal,
    buyerPartial: bool, sellerPartial: bool,
    buyerFilled: Decimal, sellerFilled: Decimal,
    buyerRemaining: Decimal, sellerRemaining: Decimal)

  class Order {
    const id: Id
    const clientId: string
    const instrument: string
    const side: OrderSide
    const kind: OrderType
    const price: Decimal
    const quantity: Decimal
    const createdAt: int
    var filled: Decimal
    var status: OrderStatus

    constructor (r: OrderRec)
      ensures Rec() == r
    {
      id, clientId, instrument, side, kind := r.id, r.clientId, r.instrument, r.side, r.kind;
      price, quantity, createdAt := r.price, r.quantity, r.createdAt;
      filled, status := r.filled, r.status;
    }

    function Rec(): OrderRec
      reads this
    {
      OrderRec(id, clientId, instrument, side, kind, price, quantity, filled, status, createdAt)
    }

    method Fill(q: Decimal)
      modifies this
      ensures Rec() == old(Rec()).AfterFill(q)
      ensures filled == old(filled) + q
      ensures status == if filled == quantity then Filled
                        else if 0.0 < filled < quantity then PartiallyFilled
                        else old(status)
    {
      filled := filled + q;
      if Rec().IsFilled() {
        status := Filled;
      } else if Rec().IsPartiallyFilled() {
        status := PartiallyFilled;
      }
    }

    /** Sets the cumulative filled quantity, and the status it implies. */
    method SetFilled(newFilled: Decimal)
      modifies this
      ensures Rec() == old(Rec()).WithFilled(newFilled)
      ensures filled == newFilled
      ensures status == if filled == quantity then Filled
                        else if 0.0 < filled < quantity then PartiallyFilled
                        else old(status)
    {
      filled := newFilled;
      if Rec().IsFilled() {
        status := Filled;
      } else if Rec().IsPartiallyFilled() {
        status := PartiallyFilled;
      }
    }

    method SetStatus(s: OrderStatus)
      modifies this
      ensures Rec() == old(Rec()).(status := s)
    {
      status := s;
    }
  }
}
