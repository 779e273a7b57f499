/** The book as four price-time queues, and what matching one order against it does. */
module Matching {
  import opened Orders
  import opened Queues

  /** Bids best (highest) first, asks best (lowest) first, stops in the order rising (buys) or
      falling (sells) prices reach them. `closed` and `tape` are history: the orders that left
      the book, in their final state, and every trade printed. */
  datatype Book = Book(
    bids: seq<Ord>,
    asks: seq<Ord>,
    stopBuys: seq<Ord>,
    stopSells: seq<Ord>,
    closed: seq<Ord>,
    tape: seq<Trade>)

  const EMPTY_BOOK := Book([], [], [], [], [], [])

  /** The queue an order on side `s` trades against. */
  function Opposite(b: Book, s: Side): seq<Ord> {
    if s.Buy? then b.asks else b.bids
  }

  function WithOpposite(b: Book, s: Side, q: seq<Ord>): Book {
    if s.Buy? then b.(asks := q) else b.(bids := q)
  }

  /** A market order takes any price, a limit order its own or better. */
  predicate Eligible(inc: Ord, resting: Ord) {
    inc.kind.Market? || if inc.side.Buy? then resting.price <= inc.price else inc.price <= resting.price
  }

  ghost predicate Shaped(b: Book) {
    && Held(b.bids, Buy, false) && Sorted(b.bids)
    && Held(b.asks, Sell, false) && Sorted(b.asks)
    && Held(b.stopBuys, Buy, true) && Sorted(b.stopBuys)
    && Held(b.stopSells, Sell, true) && Sorted(b.stopSells)
  }

  // ---------- One trade ----------

  predicate CanTrade(b: Book, inc: Ord) {
    var q := Opposite(b, inc.side);
    inc.remaining > 0 && q != [] && Eligible(inc, q[0])
  }

  function TradeBetween(inc: Ord, resting: Ord, n: Qty): Trade {
    if inc.side.Buy? then Trade(inc.id, resting.id, resting.price, n)
    else Trade(resting.id, inc.id, resting.price, n)
  }

  /** The incoming order trades with the head of the opposite queue, at the head's price. */
  function TradeStep(b: Book, inc: Ord): (Book, Ord)
    requires CanTrade(b, inc)
  {
    var q := Opposite(b, inc.side);
    var n := Min(inc.remaining, q[0].remaining);
    var head := q[0].Fill(n).1;
    var traded := b.(tape := b.tape + [TradeBetween(inc, q[0], n)]);
    var after := if head.remaining == 0
                 then WithOpposite(traded, inc.side, q[1..]).(closed := b.closed + [head])
                 else WithOpposite(traded, inc.side, [head] + q[1..]);
    (after, inc.Fill(n).1)
  }

  /** Neither `Fill` of a trade is refused, the book keeps its shape, and the measure drops. */
  lemma TradeStepKeeps(b: Book, inc: Ord)
    requires Shaped(b) && inc.InHand() && CanTrade(b, inc)
    ensures var q, n := Opposite(b, inc.side), Min(inc.remaining, Opposite(b, inc.side)[0].remaining);
            0 < n && q[0].Fill(n).0 && inc.Fill(n).0
    ensures var (b', inc') := TradeStep(b, inc);
            Shaped(b') && inc'.InHand() && TradesLeft(b', inc') < TradesLeft(b, inc)
  {
    var q := Opposite(b, inc.side);
    var side := if inc.side.Buy? then Sell else Buy;
    assert q[0].Live();
    var n := Min(inc.remaining, q[0].remaining);
    var head := q[0].Fill(n).1;
    if head.remaining == 0 {
      TailKeeps(q, side, false);
    } else {
      assert Held([head], side, false);
      HeadKeeps(q, head, side, false);
    }
  }

  /** Bounds the trades an order in hand can still make. */
  function TradesLeft(b: Book, inc: Ord): nat {
    |Opposite(b, inc.side)| + if inc.remaining > 0 then 1 else 0
  }

  /** Trades with the best price first, oldest first within a price, until the order is filled
      or nothing acceptable is left. */
  function Cross(b: Book, inc: Ord): (r: (Book, Ord))
    requires Shaped(b) && inc.InHand()
    ensures Shaped(r.0) && r.1.InHand() && !CanTrade(r.0, r.1)
    decreases TradesLeft(b, inc)
  {
    if CanTrade(b, inc) then
      TradeStepKeeps(b, inc);
      var (b', inc') := TradeStep(b, inc);
      Cross(b', inc')
    else
      (b, inc)
  }

  // ---------- What becomes of an order that cannot trade ----------

  function WithResting(b: Book, o: Ord): Book {
    if o.side.Buy? then b.(bids := Insert(b.bids, o)) else b.(asks := Insert(b.asks, o))
  }

  /** A filled order leaves, a market remainder is canceled, a limit remainder rests. */
  function Place(b: Book, inc: Ord): Book {
    if inc.remaining > 0 && !inc.status.Filled? && !inc.status.Canceled? then
      if inc.kind.Market? then b.(closed := b.closed + [inc.Cancel().1])
      else WithResting(b, inc)
    else
      b.(closed := b.closed + [inc])
  }

  lemma PlaceKeeps(b: Book, inc: Ord)
    requires Shaped(b) && inc.InHand()
    ensures Shaped(Place(b, inc))
  {
    if inc.remaining > 0 && inc.kind.Limit? {
      var own := if inc.side.Buy? then b.bids else b.asks;
      InsertSorted(own, inc);
      InsertHeld(own, inc, inc.side, false);
    }
  }

  /** Match, then rest, cancel or drop what is left. */
  function Settle(b: Book, inc: Ord): (r: Book)
    requires Shaped(b) && inc.InHand()
    ensures Shaped(r)
  {
    var (b', inc') := Cross(b, inc);
    PlaceKeeps(b', inc');
    Place(b', inc')
  }
}
