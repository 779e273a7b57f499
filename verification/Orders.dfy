/** Values of the matching engine: an order as a snapshot, its life cycle, and a trade. */
module Orders {

  type Id = string

  /** Prices only need a total order; the engine never rounds them. */
  type Price = real

  /** A C++ uint32_t. */
  type Qty = n: nat | n < 0x1_0000_0000

  datatype Side = Buy | Sell

  datatype Kind = Limit | Market | Stop | StopLimit

  datatype Status = Pending | Partial | Filled | Canceled | Rejected

  /** One price level as shown to clients. */
  datatype PriceLevel = PriceLevel(price: Price, quantity: Qty, orderCount: nat)

  datatype Trade = Trade(buyId: Id, sellId: Id, price: Price, quantity: Qty)

  /** A snapshot of an order. `stamp` is history: how many trades the book had printed when it
      accepted the order. No decision of the engine looks at it. */
  datatype Ord = Ord(
    id: Id,
    side: Side,
    kind: Kind,
    price: Price,
    stopPrice: Price,
    quantity: Qty,
    remaining: Qty,
    status: Status,
    stamp: nat)
  {
    predicate IsStop() {
      kind.Stop? || kind.StopLimit?
    }

    predicate Open() {
      status.Pending? || status.Partial?
    }

    /** What a book may hold: something is left to fill and the order can still be filled. */
    predicate Live() {
      Open() && 0 < remaining <= quantity
    }

    /** What the engine may have in hand while matching: live, or just completely filled. */
    predicate InHand() {
      !IsStop() && remaining <= quantity && if remaining > 0 then Open() else status.Filled?
    }

    function Executed(): int {
      quantity - remaining
    }

    function Fill(q: Qty): (bool, Ord) {
      if status.Canceled? || status.Rejected? || status.Filled? then
        (false, this)
      else if q > remaining then
        (false, this)
      else
        var left := remaining - q;
        (true, this.(remaining := left, status := if left == 0 then Filled else Partial))
    }

    function Cancel(): (bool, Ord) {
      if status.Filled? || status.Canceled? || status.Rejected? then
        (false, this)
      else
        (true, this.(status := Canceled))
    }

    function Trigger(): (bool, Ord) {
      match kind
      case Stop => (true, this.(kind := Market))
      case StopLimit => (true, this.(kind := Limit))
      case _ => (false, this)
    }
  }

  function Min(a: int, b: int): int {
    if a <= b then a else b
  }

  function Max(a: int, b: int): int {
    if a <= b then b else a
  }
}
