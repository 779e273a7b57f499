/** The order book object: four ordered maps of queues and an index, updated in place. */
module OrderBooks {
  import opened Orders
  import opened OrderObject
  import opened Queues
  import opened Matching
  import opened Engine
  import opened Ladders
  import opened Registry
  import opened Batches
  import opened PriceSets
  import opened Safety
  import opened Depths
  import Announcements
  import Canceling

  /** The updates list both parties of each trade, buyer first. */
  ghost predicate Notifies(us: seq<Order>, ts: seq<Trade>) {
    |us| == 2 * |ts| && forall k :: 0 <= k < |ts| ==> us[2 * k].id == ts[k].buyId && us[2 * k + 1].id == ts[k].sellId
  }

  class OrderBook {
    var ordersById: map<Id, Order>
    var bids: seq<Level>
    var asks: seq<Level>
    var stopBuys: seq<Level>
    var stopSells: seq<Level>

    /** History: the orders that left the book, and every trade. */
    ghost var closed: seq<Order>
    ghost var tape: seq<Trade>

    ghost function Bids(): seq<Order>
      reads this
    { Down(bids) }

    ghost function Asks(): seq<Order>
      reads this
    { Up(asks) }

    ghost function StopBuys(): seq<Order>
      reads this
    { Up(stopBuys) }

    ghost function StopSells(): seq<Order>
      reads this
    { Down(stopSells) }

    /** All orders held in one of the four maps or in hand. */
    ghost function Pool(hand: seq<Order>): multiset<Order>
      reads this
    {
      PoolOf(Bids(), Asks(), StopBuys(), StopSells(), hand)
    }

    /** The book as a value. */
    ghost function Abs(): Book
      reads this, Bids(), Asks(), StopBuys(), StopSells(), closed
    {
      Book(Vals(Bids()), Vals(Asks()), Vals(StopBuys()), Vals(StopSells()), Vals(closed), tape)
    }

    /** How the objects are linked. Orders in hand are accepted, hence indexed, but in no map. */
    ghost predicate Linked(hand: seq<Order>)
      reads this
    {
      && Ladder(bids, false) && Ladder(asks, false) && Ladder(stopBuys, true) && Ladder(stopSells, true)
      && Registered(ordersById, Pool(hand), closed)
    }

    ghost predicate NoEmpty()
      reads this
    {
      NoEmptyLevel(bids) && NoEmptyLevel(asks) && NoEmptyLevel(stopBuys) && NoEmptyLevel(stopSells)
    }

    /** While `order` is being matched and `hand` waits. */
    ghost predicate Working(order: Order, hand: seq<Order>)
      reads this, Bids(), Asks(), StopBuys(), StopSells(), closed, order
    {
      Linked([order] + hand) && Shaped(Abs()) && order.Val().InHand()
    }

    // ---------- Trading ----------

    /** Fills both parties, prints the trade, and notes both for notification. */
    method ExecuteTrade(buy: Order, sell: Order, quantity: Qty, price: Price, ts: seq<Trade>, us: seq<Order>)
      returns (trades: seq<Trade>, updates: seq<Order>)
      requires buy != sell && Notifies(us, ts)
      modifies this`tape, buy, sell
      ensures buy.Val() == old(buy.Val()).Fill(quantity).1
      ensures sell.Val() == old(sell.Val()).Fill(quantity).1
      ensures tape == old(tape) + [Trade(buy.id, sell.id, price, quantity)]
      ensures trades == ts + [Trade(buy.id, sell.id, price, quantity)]
      ensures updates == us + [buy, sell] && Notifies(updates, trades)
    {
      var _ := buy.Fill(quantity);
      var _ := sell.Fill(quantity);
      var trade := Trade(buy.id, sell.id, price, quantity);
      tape := tape + [trade];
      trades := ts + [trade];
      updates := us + [buy, sell];
    }

    /** What holding a value-level queue means for the objects in it. */
    lemma HeldRefs(s: seq<Order>, side: Side, stop: bool)
      requires Held(Vals(s), side, stop)
      ensures forall o :: o in s ==>
                o.side == side && o.Val().Live() && (if stop then o.IsStop() else o.kind.Limit?)
    {
      forall o | o in s
        ensures o.side == side && o.Val().Live() && (if stop then o.IsStop() else o.kind.Limit?)
      {
        var i :| 0 <= i < |s| && s[i] == o;
        assert Vals(s)[i] == o.Val();
      }
    }

    lemma AreVals(s: seq<Order>, r: seq<Ord>)
      requires |s| == |r| && forall i :: 0 <= i < |s| ==> s[i].Val() == r[i]
      ensures Vals(s) == r
    {
    }

    ghost function OppositeRefs(side: Side): seq<Order>
      reads this
    {
      if side.Buy? then Asks() else Bids()
    }

    ghost function OwnRefs(side: Side): seq<Order>
      reads this
    {
      if side.Buy? then Bids() else Asks()
    }

    /** `x` occurs nowhere in the book, and `y` only in front of the queue `x` trades against. */
    ghost predicate OnlyFront(x: Order, y: Order)
      reads this
    {
      && OppositeRefs(x.side) != [] && OppositeRefs(x.side)[0] == y && x != y
      && Without(OppositeRefs(x.side)[1..], x, y)
      && Without(OwnRefs(x.side), x, y) && Without(StopBuys(), x, y) && Without(StopSells(), x, y)
      && Without(closed, x, y)
    }

    lemma PoolBySide(side: Side, hand: seq<Order>)
      ensures Pool(hand) == PoolOf(OwnRefs(side), OppositeRefs(side), StopBuys(), StopSells(), hand)
    {
    }

    lemma FrontApart(order: Order, hand: seq<Order>)
      requires Linked([order] + hand) && OppositeRefs(order.side) != []
      ensures OnlyFront(order, OppositeRefs(order.side)[0])
      ensures Without(hand, order, OppositeRefs(order.side)[0])
    {
      var q, h := OppositeRefs(order.side), [order] + hand;
      PoolBySide(order.side, h);
      FrontOnce(OwnRefs(order.side), q, StopBuys(), StopSells(), h);
      assert h[1..] == hand;
      assert q[0] in Pool(h) && order in Pool(h);
    }

    lemma FrontLive(side: Side)
      requires Shaped(Abs()) && OppositeRefs(side) != []
      ensures var front := OppositeRefs(side)[0];
              front.side != side && front.Val() == Opposite(Abs(), side)[0] && front.Val().Live()
    {
    }

    /** The order in hand trades `n` with the order in front of the other side. */
    method ExecuteFront(order: Order, front: Order, n: Qty, ts: seq<Trade>, us: seq<Order>)
      returns (trades: seq<Trade>, updates: seq<Order>)
      requires OnlyFront(order, front) && Notifies(us, ts) && order.side != front.side
      modifies this`tape, order, front
      ensures var b, inc := old(Abs()), old(order.Val());
              var q := Opposite(b, order.side);
              && Abs() == WithOpposite(b, order.side, [q[0].Fill(n).1] + q[1..])
                          .(tape := b.tape + [TradeBetween(inc, q[0], n)])
              && order.Val() == inc.Fill(n).1
              && front.Val() == q[0].Fill(n).1
      ensures tape == old(tape) + [TradeBetween(order.Val(), front.Val(), n)]
      ensures trades == ts + [TradeBetween(order.Val(), front.Val(), n)]
      ensures Notifies(updates, trades)
    {
      hide Notifies, Up, Down, Vals;
      ghost var b, p, q := Abs(), OwnRefs(order.side), OppositeRefs(order.side);
      ghost var r, s := StopBuys(), StopSells();
      assert allocated(p) && allocated(q) && allocated(r) && allocated(s);
      var buy, sell := order, front;
      if order.side == Sell {
        buy, sell := front, order;
      }
      trades, updates := ExecuteTrade(buy, sell, n, front.price, ts, us);
      AreVals(p, if order.side.Buy? then b.bids else b.asks);
      AreVals(r, b.stopBuys);
      AreVals(s, b.stopSells);
      AreVals(closed, b.closed);
      assert forall i :: 0 < i < |q| ==> q[i] == q[1..][i - 1];
      AreVals(q, [front.Val()] + Opposite(b, order.side)[1..]);
    }

    lemma FrontAsk()
      requires asks != [] && asks[0].orders != []
      ensures Asks() == [asks[0].orders[0]] + Up(Popped(asks, 0))
    {
      assert Popped(asks, 0)[1..] == asks[1..];
    }

    lemma FrontBid()
      requires bids != [] && Last(bids).orders != []
      ensures Bids() == [Last(bids).orders[0]] + Down(Popped(bids, |bids| - 1))
    {
      assert Popped(bids, |bids| - 1)[..|bids| - 1] == Init(bids);
    }

    lemma UnlinkedAsk(q: seq<Order>, index: map<Id, Order>, gone: seq<Order>, hand: seq<Order>)
      requires q != [] && Asks() == q[1..]
      requires Registered(index, PoolOf(Bids(), q, StopBuys(), StopSells(), hand), gone)
      requires ordersById == index - {q[0].id} && closed == gone + [q[0]]
      ensures Registered(ordersById, Pool(hand), closed)
    {
      PoolWithoutAsk(Bids(), q, StopBuys(), StopSells(), hand);
      HeadBag(q);
      Unregister(index, PoolOf(Bids(), q, StopBuys(), StopSells(), hand), gone, q[0]);
    }

    /** Takes the filled order off the front of the lowest ask level, and out of the index. */
    method PopFrontAsk(ghost hand: seq<Order>)
      requires Linked(hand) && asks != [] && asks[0].orders != []
      modifies this`ordersById, this`asks, this`closed
      ensures Abs() == old(Abs()).(asks := old(Abs()).asks[1..], closed := old(Abs()).closed + [old(Abs()).asks[0]])
      ensures Asks() == old(Asks())[1..] && closed == old(closed) + [old(Asks())[0]]
      ensures asks == Popped(old(asks), 0)
      ensures Linked(hand)
    {
      hide Registered, PoolOf, Ladder;
      PopLadder(asks, 0);
      FrontAsk();
      ghost var b, q := Abs(), Asks();
      var front := asks[0].orders[0];
      ordersById := ordersById - {front.id};
      asks := Popped(asks, 0);
      closed := closed + [front];
      AreVals(Asks(), b.asks[1..]);
      AreVals(closed, b.closed + [b.asks[0]]);
      UnlinkedAsk(q, old(ordersById), old(closed), hand);
    }

    lemma UnlinkedBid(q: seq<Order>, index: map<Id, Order>, gone: seq<Order>, hand: seq<Order>)
      requires q != [] && Bids() == q[1..]
      requires Registered(index, PoolOf(q, Asks(), StopBuys(), StopSells(), hand), gone)
      requires ordersById == index - {q[0].id} && closed == gone + [q[0]]
      ensures Registered(ordersById, Pool(hand), closed)
    {
      PoolWithoutBid(q, Asks(), StopBuys(), StopSells(), hand);
      HeadBag(q);
      Unregister(index, PoolOf(q, Asks(), StopBuys(), StopSells(), hand), gone, q[0]);
    }

    /** Takes the filled order off the front of the highest bid level, and out of the index. */
    method PopFrontBid(ghost hand: seq<Order>)
      requires Linked(hand) && bids != [] && Last(bids).orders != []
      modifies this`ordersById, this`bids, this`closed
      ensures Abs() == old(Abs()).(bids := old(Abs()).bids[1..], closed := old(Abs()).closed + [old(Abs()).bids[0]])
      ensures Bids() == old(Bids())[1..] && closed == old(closed) + [old(Bids())[0]]
      ensures bids == Popped(old(bids), |old(bids)| - 1)
      ensures Linked(hand)
    {
      hide Registered, PoolOf, Ladder;
      PopLadder(bids, |bids| - 1);
      FrontBid();
      ghost var b, q := Abs(), Bids();
      var front := Last(bids).orders[0];
      ordersById := ordersById - {front.id};
      bids := Popped(bids, |bids| - 1);
      closed := closed + [front];
      AreVals(Bids(), b.bids[1..]);
      AreVals(closed, b.closed + [b.bids[0]]);
      UnlinkedBid(q, old(ordersById), old(closed), hand);
    }

    /** One pass of the inner loop against the asks: trade, then take the front order off if
        that filled it. */
    method TradeFrontAsk(order: Order, ts: seq<Trade>, us: seq<Order>, ghost hand: seq<Order>)
      returns (trades: seq<Trade>, updates: seq<Order>)
      requires Working(order, hand) && Notifies(us, ts)
      requires order.side == Buy && asks != [] && asks[0].orders != [] && CanTrade(Abs(), order.Val())
      modifies this`ordersById, this`asks, this`closed, this`tape, order, asks[0].orders[0]
      ensures (Abs(), order.Val()) == TradeStep(old(Abs()), old(order.Val()))
      ensures Working(order, hand)
      ensures Notifies(updates, trades) && old(tape) <= tape && trades == ts + tape[|old(tape)|..]
      ensures Asks() == if old(asks[0].orders[0]).remaining == 0 then old(Asks())[1..] else old(Asks())
      ensures |asks| == |old(asks)| && asks[0].price == old(asks)[0].price && asks[1..] == old(asks)[1..]
      ensures old(asks[0].orders[0]).remaining == 0 || asks == old(asks)
    {
      hide Registered, PoolOf, Ladder, Notifies, Held, Sorted, Vals, Up, Down;
      FrontApart(order, hand);
      FrontLive(order.side);
      ghost var b, inc := Abs(), order.Val();
      TradeStepKeeps(b, inc);
      var front := asks[0].orders[0];
      assert Asks()[0] == front by { FrontAsk(); }
      var n := Min(order.remaining, front.remaining);
      trades, updates := ts, us;
      if n > 0 {
        trades, updates := ExecuteFront(order, front, n, ts, us);
      }
      if front.remaining == 0 {
        PopFrontAsk([order] + hand);
      }
    }

    /** One pass of the inner loop against the bids: trade, then take the front order off if
        that filled it. */
    method TradeFrontBid(order: Order, ts: seq<Trade>, us: seq<Order>, ghost hand: seq<Order>)
      returns (trades: seq<Trade>, updates: seq<Order>)
      requires Working(order, hand) && Notifies(us, ts)
      requires order.side == Sell && bids != [] && Last(bids).orders != [] && CanTrade(Abs(), order.Val())
      modifies this`ordersById, this`bids, this`closed, this`tape, order, Last(bids).orders[0]
      ensures (Abs(), order.Val()) == TradeStep(old(Abs()), old(order.Val()))
      ensures Working(order, hand)
      ensures Notifies(updates, trades) && old(tape) <= tape && trades == ts + tape[|old(tape)|..]
      ensures Bids() == if old(Last(bids).orders[0]).remaining == 0 then old(Bids())[1..] else old(Bids())
      ensures |bids| == |old(bids)| && Last(bids).price == Last(old(bids)).price && Init(bids) == Init(old(bids))
      ensures old(Last(bids).orders[0]).remaining == 0 || bids == old(bids)
    {
      hide Registered, PoolOf, Ladder, Notifies, Held, Sorted, Vals, Up, Down, Popped;
      FrontApart(order, hand);
      FrontLive(order.side);
      ghost var b, inc := Abs(), order.Val();
      TradeStepKeeps(b, inc);
      PoppedLast(bids);
      var front := Last(bids).orders[0];
      assert Bids()[0] == front by { FrontBid(); }
      var n := Min(order.remaining, front.remaining);
      trades, updates := ts, us;
      if n > 0 {
        trades, updates := ExecuteFront(order, front, n, ts, us);
      }
      if front.remaining == 0 {
        PopFrontBid([order] + hand);
      }
    }

    lemma CrossStep(b: Book, inc: Ord)
      requires Shaped(b) && inc.InHand() && CanTrade(b, inc)
      ensures var (b', inc') := TradeStep(b, inc);
              && Shaped(b') && inc'.InHand()
              && Cross(b, inc) == Cross(b', inc')
              && TradesLeft(b', inc') < TradesLeft(b, inc)
              && inc' == inc.(remaining := inc'.remaining, status := inc'.status)
    {
      TradeStepKeeps(b, inc);
    }

    lemma DropNoEmpty()
      ensures asks != [] && NoEmptyLevel(asks) ==> asks[0].orders != [] && NoEmptyLevel(asks[1..])
      ensures bids != [] && NoEmptyLevel(bids)
              ==> Last(bids).orders != [] && NoEmptyLevel(Init(bids))
    {
    }

    predicate AcceptsAsk(order: Order)
      requires asks != []
      reads this, order
    {
      order.kind.Market? || asks[0].price <= order.price
    }

    /** The price of the lowest ask level decides whether the order in hand can trade. */
    lemma AskDecides(order: Order, hand: seq<Order>)
      requires Working(order, hand) && asks != [] && asks[0].orders != [] && order.side == Buy
      ensures Asks() != [] && Asks()[0] == asks[0].orders[0]
      ensures CanTrade(Abs(), order.Val()) <==> order.remaining > 0 && AcceptsAsk(order)
    {
      FrontAsk();
      assert AtPrice(asks[0].orders, asks[0].price, false);
      assert KeyOf(Asks()[0], false) == asks[0].price;
    }

    /** Trades the order with the queue of the lowest ask level, oldest first, and drops the level when
        it is used up. */
    method FillBestAsk(order: Order, ts: seq<Trade>, us: seq<Order>, ghost hand: seq<Order>)
      returns (trades: seq<Trade>, updates: seq<Order>)
      requires Working(order, hand) && Notifies(us, ts) && NoEmptyLevel(asks)
      requires order.side == Buy && order.remaining > 0 && asks != [] && AcceptsAsk(order)
      modifies this`ordersById, this`asks, this`closed, this`tape, order, AsSet(Asks())
      ensures Working(order, hand) && NoEmptyLevel(asks)
      ensures Cross(Abs(), order.Val()) == Cross(old(Abs()), old(order.Val()))
      ensures TradesLeft(Abs(), order.Val()) < TradesLeft(old(Abs()), old(order.Val()))
      ensures order.kind == old(order.kind) && order.stamp == old(order.stamp)
      ensures AsSet(Asks()) <= old(AsSet(Asks()))
      ensures Notifies(updates, trades) && old(tape) <= tape && trades == ts + tape[|old(tape)|..]
    {
      DropNoEmpty();
      hide Abs, Linked, Notifies, Shaped, Cross, TradeStep, CanTrade, TradesLeft, Up, Down, NoEmptyLevel;
      trades, updates := ts, us;
      ghost var b, inc := Abs(), order.Val();
      ghost var started := false;
      while asks[0].orders != [] && order.remaining > 0
        invariant asks != [] && asks[1..] == old(asks)[1..] && NoEmptyLevel(asks[1..])
        invariant asks[0].price == old(asks[0].price)
        invariant Working(order, hand)
        invariant Cross(Abs(), order.Val()) == Cross(b, inc)
        invariant order.kind == inc.kind && order.stamp == inc.stamp
        invariant if started then TradesLeft(Abs(), order.Val()) < TradesLeft(b, inc)
                  else (Abs(), order.Val()) == (b, inc) && asks == old(asks)
        invariant AsSet(Asks()) <= old(AsSet(Asks()))
        invariant Notifies(updates, trades) && old(tape) <= tape && trades == ts + tape[|old(tape)|..]
        decreases TradesLeft(Abs(), order.Val())
      {
        AskDecides(order, hand);
        CrossStep(Abs(), order.Val());
        var front := asks[0].orders[0];
        assert front in Asks();
        trades, updates := TradeFrontAsk(order, trades, updates, hand);
        started := true;
        if front.remaining != 0 {
          break;
        }
      }
      DropEmptyAsk(order, hand);
    }

    /** Drops the lowest ask level if it is used up. */
    method DropEmptyAsk(order: Order, ghost hand: seq<Order>)
      requires asks != [] && NoEmptyLevel(asks[1..]) && Working(order, hand)
      modifies this`asks
      ensures NoEmptyLevel(asks) && Working(order, hand)
      ensures Abs() == old(Abs()) && Asks() == old(Asks())
    {
      hide Registered, PoolOf, Held, Sorted, Up, Down, Vals, Ladder, NoEmptyLevel;
      EmptyEnds(asks);
      DropLevel(asks, false);
      if asks[0].orders == [] {
        asks := asks[1..];
        assert Abs() == old(Abs());
      }
    }

    predicate AcceptsBid(order: Order)
      requires bids != []
      reads this, order
    {
      order.kind.Market? || order.price <= Last(bids).price
    }

    /** The price of the highest bid level decides whether the order in hand can trade. */
    lemma BidDecides(order: Order, hand: seq<Order>)
      requires Working(order, hand) && bids != [] && Last(bids).orders != [] && order.side == Sell
      ensures Bids() != [] && Bids()[0] == Last(bids).orders[0]
      ensures CanTrade(Abs(), order.Val()) <==> order.remaining > 0 && AcceptsBid(order)
    {
      FrontBid();
      assert AtPrice(Last(bids).orders, Last(bids).price, false);
      assert KeyOf(Bids()[0], false) == Last(bids).price;
    }

    /** Trades the order with the queue of the highest bid level, oldest first, and drops the level when
        it is used up. */
    method FillBestBid(order: Order, ts: seq<Trade>, us: seq<Order>, ghost hand: seq<Order>)
      returns (trades: seq<Trade>, updates: seq<Order>)
      requires Working(order, hand) && Notifies(us, ts) && NoEmptyLevel(bids)
      requires order.side == Sell && order.remaining > 0 && bids != [] && AcceptsBid(order)
      modifies this`ordersById, this`bids, this`closed, this`tape, order, AsSet(Bids())
      ensures Working(order, hand) && NoEmptyLevel(bids)
      ensures Cross(Abs(), order.Val()) == Cross(old(Abs()), old(order.Val()))
      ensures TradesLeft(Abs(), order.Val()) < TradesLeft(old(Abs()), old(order.Val()))
      ensures order.kind == old(order.kind) && order.stamp == old(order.stamp)
      ensures AsSet(Bids()) <= old(AsSet(Bids()))
      ensures Notifies(updates, trades) && old(tape) <= tape && trades == ts + tape[|old(tape)|..]
    {
      DropNoEmpty();
      hide Abs, Linked, Notifies, Shaped, Cross, TradeStep, CanTrade, TradesLeft, Up, Down, NoEmptyLevel;
      trades, updates := ts, us;
      ghost var b, inc := Abs(), order.Val();
      ghost var started := false;
      while Last(bids).orders != [] && order.remaining > 0
        invariant bids != [] && Init(bids) == Init(old(bids)) && NoEmptyLevel(Init(bids))
        invariant Last(bids).price == old(Last(bids).price)
        invariant Working(order, hand)
        invariant Cross(Abs(), order.Val()) == Cross(b, inc)
        invariant order.kind == inc.kind && order.stamp == inc.stamp
        invariant if started then TradesLeft(Abs(), order.Val()) < TradesLeft(b, inc)
                  else (Abs(), order.Val()) == (b, inc) && bids == old(bids)
        invariant AsSet(Bids()) <= old(AsSet(Bids()))
        invariant Notifies(updates, trades) && old(tape) <= tape && trades == ts + tape[|old(tape)|..]
        decreases TradesLeft(Abs(), order.Val())
      {
        BidDecides(order, hand);
        CrossStep(Abs(), order.Val());
        var front := Last(bids).orders[0];
        assert front in Bids();
        trades, updates := TradeFrontBid(order, trades, updates, hand);
        started := true;
        if front.remaining != 0 {
          break;
        }
      }
      DropEmptyBid(order, hand);
    }

    /** Drops the highest bid level if it is used up. */
    method DropEmptyBid(order: Order, ghost hand: seq<Order>)
      requires bids != [] && NoEmptyLevel(Init(bids)) && Working(order, hand)
      modifies this`bids
      ensures NoEmptyLevel(bids) && Working(order, hand)
      ensures Abs() == old(Abs()) && Bids() == old(Bids())
    {
      hide Registered, PoolOf, Held, Sorted, Up, Down, Vals, Ladder, NoEmptyLevel;
      EmptyEnds(bids);
      DropLevel(bids, false);
      if Last(bids).orders == [] {
        bids := Init(bids);
        assert Abs() == old(Abs());
      }
    }

    lemma NoneLeft(order: Order)
      requires order.remaining == 0 || (if order.side.Buy? then asks == [] else bids == [])
      ensures !CanTrade(Abs(), order.Val())
    {
    }

    /** Matches a buy order with the asks, lowest price first. */
    method MatchAsks(order: Order, ts: seq<Trade>, us: seq<Order>, ghost hand: seq<Order>)
      returns (trades: seq<Trade>, updates: seq<Order>)
      requires Working(order, hand) && Notifies(us, ts) && NoEmptyLevel(asks) && order.side == Buy
      modifies this`ordersById, this`asks, this`closed, this`tape, order, AsSet(Asks())
      ensures Working(order, hand) && NoEmptyLevel(asks)
      ensures (Abs(), order.Val()) == Cross(old(Abs()), old(order.Val()))
      ensures order.kind == old(order.kind) && order.stamp == old(order.stamp)
      ensures AsSet(Asks()) <= old(AsSet(Asks()))
      ensures Notifies(updates, trades) && old(tape) <= tape && trades == ts + tape[|old(tape)|..]
    {
      hide Abs, Linked, Notifies, Shaped, TradeStep, CanTrade, TradesLeft, Up, Down;
      trades, updates := ts, us;
      ghost var b, inc := Abs(), order.Val();
      while order.remaining > 0 && asks != []
        invariant Working(order, hand) && NoEmptyLevel(asks)
        invariant Cross(Abs(), order.Val()) == Cross(b, inc)
        invariant order.kind == inc.kind && order.stamp == inc.stamp
        invariant AsSet(Asks()) <= old(AsSet(Asks()))
        invariant Notifies(updates, trades) && old(tape) <= tape && trades == ts + tape[|old(tape)|..]
        decreases TradesLeft(Abs(), order.Val())
      {
        if order.kind != Market && order.price < asks[0].price {
          break;
        }
        trades, updates := FillBestAsk(order, trades, updates, hand);
      }
      if order.remaining > 0 && asks != [] {
        AskDecides(order, hand);
      } else {
        NoneLeft(order);
      }
    }

    /** Matches a sell order with the bids, highest price first. */
    method MatchBids(order: Order, ts: seq<Trade>, us: seq<Order>, ghost hand: seq<Order>)
      returns (trades: seq<Trade>, updates: seq<Order>)
      requires Working(order, hand) && Notifies(us, ts) && NoEmptyLevel(bids) && order.side == Sell
      modifies this`ordersById, this`bids, this`closed, this`tape, order, AsSet(Bids())
      ensures Working(order, hand) && NoEmptyLevel(bids)
      ensures (Abs(), order.Val()) == Cross(old(Abs()), old(order.Val()))
      ensures order.kind == old(order.kind) && order.stamp == old(order.stamp)
      ensures AsSet(Bids()) <= old(AsSet(Bids()))
      ensures Notifies(updates, trades) && old(tape) <= tape && trades == ts + tape[|old(tape)|..]
    {
      hide Abs, Linked, Notifies, Shaped, TradeStep, CanTrade, TradesLeft, Up, Down;
      trades, updates := ts, us;
      ghost var b, inc := Abs(), order.Val();
      while order.remaining > 0 && bids != []
        invariant Working(order, hand) && NoEmptyLevel(bids)
        invariant Cross(Abs(), order.Val()) == Cross(b, inc)
        invariant order.kind == inc.kind && order.stamp == inc.stamp
        invariant AsSet(Bids()) <= old(AsSet(Bids()))
        invariant Notifies(updates, trades) && old(tape) <= tape && trades == ts + tape[|old(tape)|..]
        decreases TradesLeft(Abs(), order.Val())
      {
        if order.kind != Market && order.price > Last(bids).price {
          break;
        }
        trades, updates := FillBestBid(order, trades, updates, hand);
      }
      if order.remaining > 0 && bids != [] {
        BidDecides(order, hand);
      } else {
        NoneLeft(order);
      }
    }

    /** Matches the order against the other side. */
    method MatchOrder(order: Order, ts: seq<Trade>, us: seq<Order>, ghost hand: seq<Order>)
      returns (trades: seq<Trade>, updates: seq<Order>)
      requires Working(order, hand) && Notifies(us, ts) && NoEmptyLevel(bids) && NoEmptyLevel(asks)
      modifies this`ordersById, this`bids, this`asks, this`closed, this`tape, order, AsSet(Bids()), AsSet(Asks())
      ensures Working(order, hand) && NoEmptyLevel(bids) && NoEmptyLevel(asks)
      ensures (Abs(), order.Val()) == Cross(old(Abs()), old(order.Val()))
      ensures AsSet(Bids()) <= old(AsSet(Bids()))
      ensures AsSet(Asks()) <= old(AsSet(Asks()))
      ensures Notifies(updates, trades) && old(tape) <= tape && trades == ts + tape[|old(tape)|..]
    {
      hide Abs, Linked, Notifies, Shaped, Cross, Up, Down;
      if order.side == Buy {
        trades, updates := MatchAsks(order, ts, us, hand);
      } else {
        trades, updates := MatchBids(order, ts, us, hand);
      }
    }

    // ---------- Resting ----------

    lemma InsertLands(q: seq<Order>, o: Order, k: nat)
      requires k <= |q|
      requires forall i :: 0 <= i < k ==> Rank(q[i].Val()) <= Rank(o.Val())
      requires forall i :: k <= i < |q| ==> Rank(o.Val()) < Rank(q[i].Val())
      ensures Vals(q[..k] + [o] + q[k..]) == Insert(Vals(q), o.Val())
    {
      hide Vals;
      var v := Vals(q);
      PosUnique(v, Rank(o.Val()), k);
      AreVals(q[..k] + [o] + q[k..], v[..k] + [o.Val()] + v[k..]);
    }

    lemma SplicedIn(q: seq<Order>, o: Order, k: nat)
      requires k <= |q|
      ensures multiset(q[..k] + [o] + q[k..]) == multiset(q) + multiset{o}
      ensures AsSet(q[..k] + [o] + q[k..]) == AsSet(q) + {o}
    {
      assert q == q[..k] + q[k..];
    }

    /** What the ranks of a queue's orders are, in terms of the map it flattens. */
    lemma RankIsKey(o: Order, side: Side, stop: bool)
      requires Held([o.Val()], side, stop)
      ensures Rank(o.Val()) == if stop == side.Buy? then KeyOf(o, stop) else -KeyOf(o, stop)
    {
      assert [o.Val()][0] == o.Val();
    }

    /** A pushed order lands where price-time priority puts it. */
    lemma PushLands(m: seq<Level>, o: Order, stop: bool, up: bool)
      requires Ladder(m, stop) && Held(Vals(Flat(m, up)), o.side, stop) && Held([o.Val()], o.side, stop)
      requires up == (stop == o.side.Buy?)
      ensures Vals(Flat(PushBack(m, KeyOf(o, stop), o), up)) == Insert(Vals(Flat(m, up)), o.Val())
      ensures multiset(Flat(PushBack(m, KeyOf(o, stop), o), up)) == multiset(Flat(m, up)) + multiset{o}
      ensures AsSet(Flat(PushBack(m, KeyOf(o, stop), o), up)) == AsSet(Flat(m, up)) + {o}
    {
      hide Ladder, Flat, PushBack, Insert, AsSet;
      var q, p := Flat(m, up), KeyOf(o, stop);
      var k := Landing(m, p, up);
      PushBackFlat(m, o, stop, up);
      PushBackKeys(m, p, stop, up);
      RankIsKey(o, o.side, stop);
      forall i | 0 <= i < |q|
        ensures Rank(q[i].Val()) == if up then KeyOf(q[i], stop) else -KeyOf(q[i], stop)
      {
        assert Vals(q)[i] == q[i].Val();
        assert Held([q[i].Val()], o.side, stop);
        RankIsKey(q[i], o.side, stop);
      }
      InsertLands(q, o, k);
      SplicedIn(q, o, k);
    }

    /** Rests the limit order in hand at the end of its price level. */
    method AddOrderToBook(order: Order, ghost hand: seq<Order>)
      requires Working(order, hand) && order.remaining > 0 && order.kind == Limit
      requires NoEmptyLevel(bids) && NoEmptyLevel(asks)
      modifies this`bids, this`asks
      ensures Abs() == WithResting(old(Abs()), order.Val()) && Linked(hand)
      ensures NoEmptyLevel(bids) && NoEmptyLevel(asks)
      ensures AsSet(Bids()) <= old(AsSet(Bids())) + {order} && AsSet(Asks()) <= old(AsSet(Asks())) + {order}
    {
      hide Registered, PoolOf, Ladder, Sorted, PushBack, NoEmptyLevel, Insert, AsSet, Up, Down, Vals;
      ghost var p, q := Bids(), Asks();
      assert Held([order.Val()], order.side, false);
      if order.side == Buy {
        PushLands(bids, order, false, false);
        PushBackLadder(bids, order, false);
        bids := PushBack(bids, order.price, order);
        PoolMoves(p, q, StopBuys(), StopSells(), hand, order, Bids(), q, StopBuys(), StopSells());
      } else {
        PushLands(asks, order, false, true);
        PushBackLadder(asks, order, false);
        asks := PushBack(asks, order.price, order);
        PoolMoves(p, q, StopBuys(), StopSells(), hand, order, p, Asks(), StopBuys(), StopSells());
      }
    }

    /** Leaves the stop in hand to wait at the end of its stop price level. */
    method AddStopOrder(order: Order, ghost hand: seq<Order>)
      requires Linked([order] + hand) && Shaped(Abs()) && order.Val().Live() && order.IsStop()
      requires NoEmptyLevel(stopBuys) && NoEmptyLevel(stopSells)
      modifies this`stopBuys, this`stopSells
      ensures Abs() == WithStop(old(Abs()), order.Val()) && Linked(hand)
      ensures NoEmptyLevel(stopBuys) && NoEmptyLevel(stopSells)
      ensures AsSet(StopBuys()) <= old(AsSet(StopBuys())) + {order}
      ensures AsSet(StopSells()) <= old(AsSet(StopSells())) + {order}
    {
      hide Registered, PoolOf, Ladder, Sorted, PushBack, NoEmptyLevel, Insert, AsSet, Up, Down, Vals;
      ghost var p, q := StopBuys(), StopSells();
      assert Held([order.Val()], order.side, true);
      var sp := order.stopPrice;
      if order.side == Buy {
        PushLands(stopBuys, order, true, true);
        PushBackLadder(stopBuys, order, true);
        stopBuys := PushBack(stopBuys, sp, order);
        PoolMoves(Bids(), Asks(), p, q, hand, order, Bids(), Asks(), StopBuys(), q);
      } else {
        PushLands(stopSells, order, true, false);
        PushBackLadder(stopSells, order, true);
        stopSells := PushBack(stopSells, sp, order);
        PoolMoves(Bids(), Asks(), p, q, hand, order, Bids(), Asks(), p, StopSells());
      }
    }

    // ---------- Settling ----------

    /** No order is in two places. */
    lemma AllApart(hand: seq<Order>)
      requires Linked(hand)
      ensures NoDup(Bids()) && NoDup(Asks()) && NoDup(StopBuys()) && NoDup(StopSells()) && NoDup(hand)
      ensures Apart(Bids(), Asks()) && Apart(Bids(), StopBuys()) && Apart(Bids(), StopSells()) && Apart(Bids(), hand)
      ensures Apart(Asks(), StopBuys()) && Apart(Asks(), StopSells()) && Apart(Asks(), hand)
      ensures Apart(StopBuys(), StopSells()) && Apart(StopBuys(), hand) && Apart(StopSells(), hand)
      ensures Apart(closed, Bids()) && Apart(closed, Asks()) && Apart(closed, StopBuys())
      ensures Apart(closed, StopSells()) && Apart(closed, hand)
    {
      hide NoDup, Apart, Up, Down;
      PoolApart(Bids(), Asks(), StopBuys(), StopSells(), hand);
      GoneApart(closed, Pool(hand), Bids());
      GoneApart(closed, Pool(hand), Asks());
      GoneApart(closed, Pool(hand), StopBuys());
      GoneApart(closed, Pool(hand), StopSells());
      GoneApart(closed, Pool(hand), hand);
    }

    /** The order in hand leaves the book as it is. */
    method Close(order: Order, ghost hand: seq<Order>)
      requires Linked([order] + hand)
      modifies this`ordersById, this`closed
      ensures Abs() == old(Abs()).(closed := old(Abs()).closed + [order.Val()])
      ensures Linked(hand)
    {
      hide Ladder, PoolOf, Registered, Vals;
      ghost var b := Abs();
      UnlinkedHand(order, hand);
      ordersById := ordersById - {order.id};
      closed := closed + [order];
      AreVals(closed, b.closed + [order.Val()]);
    }

    lemma UnlinkedHand(order: Order, hand: seq<Order>)
      requires Linked([order] + hand)
      ensures Registered(ordersById - {order.id}, Pool(hand), closed + [order])
    {
      hide PoolOf;
      assert order in Pool([order] + hand) by { InHandPool(order, hand); }
      PoolWithoutHead(Bids(), Asks(), StopBuys(), StopSells(), hand, order);
      Unregister(ordersById, Pool([order] + hand), closed, order);
    }

    lemma InHandPool(order: Order, hand: seq<Order>)
      ensures order in Pool([order] + hand)
    {
      HeadBag([order] + hand);
    }

    /** The market order in hand is canceled and leaves. */
    method CancelRemainder(order: Order, ghost hand: seq<Order>)
      requires Linked([order] + hand)
      modifies this`ordersById, this`closed, order
      ensures Abs() == old(Abs()).(closed := old(Abs()).closed + [old(order.Val()).Cancel().1])
      ensures Linked(hand)
    {
      hide Ladder, PoolOf, Registered;
      AllApart([order] + hand);
      assert ([order] + hand)[0] == order;
      ghost var b, p, q, r, s := Abs(), Bids(), Asks(), StopBuys(), StopSells();
      assert allocated(p) && allocated(q) && allocated(r) && allocated(s);
      var _ := order.Cancel();
      AreVals(p, b.bids);
      AreVals(q, b.asks);
      AreVals(r, b.stopBuys);
      AreVals(s, b.stopSells);
      AreVals(closed, b.closed);
      Close(order, hand);
    }

    /** Matches the order, then rests it, cancels the market remainder, or drops it. */
    method SettleOrder(order: Order, ts: seq<Trade>, us: seq<Order>, ghost hand: seq<Order>)
      returns (trades: seq<Trade>, updates: seq<Order>)
      requires Working(order, hand) && Notifies(us, ts) && NoEmptyLevel(bids) && NoEmptyLevel(asks)
      modifies this`ordersById, this`bids, this`asks, this`closed, this`tape, order, AsSet(Bids()), AsSet(Asks())
      ensures Linked(hand) && NoEmptyLevel(bids) && NoEmptyLevel(asks)
      ensures Abs() == Settle(old(Abs()), old(order.Val()))
      ensures AsSet(Bids()) <= old(AsSet(Bids())) + {order} && AsSet(Asks()) <= old(AsSet(Asks())) + {order}
      ensures Notifies(updates, trades) && old(tape) <= tape && trades == ts + tape[|old(tape)|..]
    {
      hide Linked, Notifies, Cross, Held, Sorted, WithResting, NoEmptyLevel;
      trades, updates := MatchOrder(order, ts, us, hand);
      if order.remaining > 0 && order.status != Filled && order.status != Canceled {
        if order.kind == Market {
          CancelRemainder(order, hand);
        } else {
          AddOrderToBook(order, hand);
        }
      } else {
        Close(order, hand);
      }
    }

    // ---------- Triggering ----------

    /** Triggers the orders of a level; sequences that share no order with it keep their values. */
    method TriggerAll(level: seq<Order>, ghost others: seq<seq<Order>>)
      requires NoDup(level) && forall k :: 0 <= k < |others| ==> Apart(others[k], level)
      modifies AsSet(level)
      ensures Vals(level) == Triggered(old(Vals(level)))
      ensures forall k :: 0 <= k < |others| ==> Vals(others[k]) == old(Vals(others[k]))
    {
      for i := 0 to |level|
        invariant forall j :: 0 <= j < i ==> level[j].Val() == old(level[j].Val()).Trigger().1
        invariant forall j :: i <= j < |level| ==> level[j].Val() == old(level[j].Val())
        invariant forall k :: 0 <= k < |others| ==> Vals(others[k]) == old(Vals(others[k]))
      {
        label before:
        var _ := level[i].Trigger();
        forall k | 0 <= k < |others| ensures Vals(others[k]) == old@before(Vals(others[k])) {
          assert forall j :: 0 <= j < |others[k]| ==> others[k][j] != level[i];
        }
      }
    }

    /** Triggers the lowest level of buy stops, oldest first, and takes the level out of its map. */
    method TriggerBuyLevel(hand: seq<Order>) returns (triggered: seq<Order>)
      requires Linked(hand) && stopBuys != [] && NoEmptyLevel(stopBuys)
      modifies this`stopBuys, AsSet(StopBuys())
      ensures stopBuys == old(stopBuys)[1..] && NoEmptyLevel(stopBuys)
      ensures Took(Buy, |old(stopBuys)[0].orders|, old(Abs()), old(StopBuys()), old(Batch(hand, Vals(hand))),
                   Abs(), StopBuys(), Batch(triggered, Vals(triggered)))
      ensures Linked(triggered)
    {
      hide Registered, PoolOf, Ladder, NoDup, Apart, Up, Down, Triggered, Vals;
      ghost var b, p, q, r, s, v := Abs(), Bids(), Asks(), StopBuys(), StopSells(), Vals(hand);
      assert allocated(p) && allocated(q) && allocated(r) && allocated(s);
      AllApart(hand);
      var level, left := stopBuys[0].orders, stopBuys[1..];
      ghost var n := |level|;
      FirstLevel(stopBuys);
      DropLevel(stopBuys, true);
      AreVals(level, b.stopBuys[..n]);
      AreVals(r[n..], b.stopBuys[n..]);
      ghost var others := [p, q, s, closed, hand];
      Registry.FrontApart(r, n, others);
      others := others + [r[n..]];
      TriggerAll(level, others);
      assert Vals(others[0]) == b.bids && Vals(others[1]) == b.asks && Vals(others[2]) == b.stopSells;
      assert Vals(others[3]) == b.closed && Vals(others[4]) == v && Vals(others[5]) == b.stopBuys[n..];
      triggered := hand + level;
      stopBuys := left;
      AreVals(triggered, v + Triggered(b.stopBuys[..n]));
      PoolTriggersBuys(p, q, r, s, hand, n);
      assert StopBuys() == r[n..] && Abs() == b.(stopBuys := b.stopBuys[n..]);
    }

    /** Triggers the highest level of sell stops, oldest first, and takes the level out of its map. */
    method TriggerSellLevel(hand: seq<Order>) returns (triggered: seq<Order>)
      requires Linked(hand) && stopSells != [] && NoEmptyLevel(stopSells)
      modifies this`stopSells, AsSet(StopSells())
      ensures stopSells == Init(old(stopSells)) && NoEmptyLevel(stopSells)
      ensures Took(Sell, |Last(old(stopSells)).orders|, old(Abs()), old(StopSells()), old(Batch(hand, Vals(hand))),
                   Abs(), StopSells(), Batch(triggered, Vals(triggered)))
      ensures Linked(triggered)
    {
      hide Registered, PoolOf, Ladder, NoDup, Apart, Up, Down, Triggered, Vals;
      ghost var b, p, q, r, s, v := Abs(), Bids(), Asks(), StopSells(), StopBuys(), Vals(hand);
      assert allocated(p) && allocated(q) && allocated(r) && allocated(s);
      AllApart(hand);
      var level, left := Last(stopSells).orders, Init(stopSells);
      ghost var n := |level|;
      FirstLevel(stopSells);
      DropLevel(stopSells, true);
      AreVals(level, b.stopSells[..n]);
      AreVals(r[n..], b.stopSells[n..]);
      ghost var others := [p, q, s, closed, hand];
      Registry.FrontApart(r, n, others);
      others := others + [r[n..]];
      TriggerAll(level, others);
      assert Vals(others[0]) == b.bids && Vals(others[1]) == b.asks && Vals(others[2]) == b.stopBuys;
      assert Vals(others[3]) == b.closed && Vals(others[4]) == v && Vals(others[5]) == b.stopSells[n..];
      triggered := hand + level;
      stopSells := left;
      AreVals(triggered, v + Triggered(b.stopSells[..n]));
      PoolTriggersSells(p, q, s, r, hand, n);
      assert StopSells() == r[n..] && Abs() == b.(stopSells := b.stopSells[n..]);
    }

    /** The first level's orders all rank at its price. */
    lemma StopBuysRanked(r: real, hand: seq<Order>)
      requires Linked(hand) && Shaped(Abs()) && NoEmptyLevel(stopBuys)
      ensures stopBuys == [] ==> Abs().stopBuys == []
      ensures stopBuys != [] && stopBuys[0].price <= r ==> AllUpTo(Abs().stopBuys, |stopBuys[0].orders|, r)
      ensures stopBuys != [] && r < stopBuys[0].price ==> Abs().stopBuys != [] && r < Rank(Abs().stopBuys[0])
    {
      if stopBuys != [] {
        FirstLevel(stopBuys);
        var level := stopBuys[0];
        forall i | 0 <= i < |level.orders| ensures Rank(Abs().stopBuys[i]) == stopBuys[0].price {
          assert StopBuys()[i] == StopBuys()[..|level.orders|][i] == level.orders[i];
          assert AtPrice(level.orders, level.price, true);
          assert Abs().stopBuys[i] == level.orders[i].Val();
        }
      }
    }

    /** So far the first `k` buy stops, all ranked at or before `r`, were taken. */
    ghost predicate BuysTaken(k: nat, r: real, b: Book, q: seq<Order>, start: Batch, triggered: seq<Order>)
      reads this, Bids(), Asks(), StopBuys(), StopSells(), closed, triggered
    {
      && Took(Buy, k, b, q, start, Abs(), StopBuys(), Batch(triggered, Vals(triggered)))
      && AllUpTo(b.stopBuys, k, r)
      && Linked(triggered) && NoEmptyLevel(stopBuys) && Shaped(Abs())
    }

    /** Takes one more level of buy stops. */
    method TriggerBuyStep(ghost k: nat, ghost r: real, ghost b: Book, ghost q: seq<Order>, ghost start: Batch,
                           hand: seq<Order>) returns (triggered: seq<Order>, ghost k': nat)
      requires BuysTaken(k, r, b, q, start, hand) && stopBuys != [] && stopBuys[0].price <= r
      modifies this`stopBuys, AsSet(StopBuys())
      ensures BuysTaken(k', r, b, q, start, triggered)
      ensures AsSet(StopBuys()) <= old(AsSet(StopBuys())) && stopBuys == old(stopBuys)[1..]
    {
      hide Linked, NoEmptyLevel, Shaped, Abs, Vals, Triggered, Up, Down, Took, AllUpTo, AsSet, Last;
      StopBuysRanked(r, hand);
      ghost var n := |stopBuys[0].orders|;
      ghost var b1, q1, t1 := Abs(), StopBuys(), Batch(hand, Vals(hand));
      triggered := TriggerBuyLevel(hand);
      TookStep(Buy, k, n, r, b, q, start, b1, q1, t1, Abs(), StopBuys(), Batch(triggered, Vals(triggered)));
      k' := k + n;
    }

    lemma BuysTakenNone(r: real, hand: seq<Order>)
      requires Linked(hand) && Shaped(Abs()) && NoEmptyLevel(stopBuys)
      ensures BuysTaken(0, r, Abs(), StopBuys(), Batch(hand, Vals(hand)), hand)
    {
      TookNone(Buy, Abs(), StopBuys(), Batch(hand, Vals(hand)));
    }

    /** Triggers every buy stop at or below the price, level by level. */
    method TriggerBuysUpTo(price: Price, hand: seq<Order>) returns (triggered: seq<Order>)
      requires Linked(hand) && Shaped(Abs()) && NoEmptyLevel(stopBuys)
      modifies this`stopBuys, AsSet(StopBuys())
      ensures Linked(triggered) && NoEmptyLevel(stopBuys) && Shaped(Abs())
      ensures AsSet(StopBuys()) <= old(AsSet(StopBuys()))
      ensures Took(Buy, Pos(old(Abs()).stopBuys, price), old(Abs()), old(StopBuys()), old(Batch(hand, Vals(hand))),
                   Abs(), StopBuys(), Batch(triggered, Vals(triggered)))
    {
      triggered := hand;
      ghost var b, q, start := Abs(), StopBuys(), Batch(hand, Vals(hand));
      ghost var k: nat, r := 0, price;
      BuysTakenNone(r, hand);
      hide BuysTaken, NoEmptyLevel, AsSet;
      while stopBuys != [] && stopBuys[0].price <= price
        invariant BuysTaken(k, r, b, q, start, triggered)
        invariant AsSet(StopBuys()) <= old(AsSet(StopBuys()))
        decreases |stopBuys|
      {
        triggered, k := TriggerBuyStep(k, r, b, q, start, triggered);
      }
      BuysAllTaken(k, r, b, q, start, triggered);
    }

    lemma BuysAllTaken(k: nat, r: real, b: Book, q: seq<Order>, start: Batch, triggered: seq<Order>)
      requires BuysTaken(k, r, b, q, start, triggered) && Shaped(b)
      requires stopBuys == [] || !(stopBuys[0].price <= r)
      ensures k == Pos(b.stopBuys, r) && Linked(triggered) && NoEmptyLevel(stopBuys) && Shaped(Abs())
      ensures Took(Buy, k, b, q, start, Abs(), StopBuys(), Batch(triggered, Vals(triggered)))
    {
      StopBuysRanked(r, triggered);
      UpToIsPos(Buy, b, q, start, Abs(), StopBuys(), Batch(triggered, Vals(triggered)), k, r);
    }

    /** The first level's orders all rank at its price. */
    lemma StopSellsRanked(r: real, hand: seq<Order>)
      requires Linked(hand) && Shaped(Abs()) && NoEmptyLevel(stopSells)
      ensures stopSells == [] ==> Abs().stopSells == []
      ensures stopSells != [] && -Last(stopSells).price <= r ==> AllUpTo(Abs().stopSells, |Last(stopSells).orders|, r)
      ensures stopSells != [] && r < -Last(stopSells).price ==> Abs().stopSells != [] && r < Rank(Abs().stopSells[0])
    {
      if stopSells != [] {
        FirstLevel(stopSells);
        var level := Last(stopSells);
        forall i | 0 <= i < |level.orders| ensures Rank(Abs().stopSells[i]) == -Last(stopSells).price {
          assert StopSells()[i] == StopSells()[..|level.orders|][i] == level.orders[i];
          assert AtPrice(level.orders, level.price, true);
          assert Abs().stopSells[i] == level.orders[i].Val();
        }
      }
    }

    /** So far the first `k` sell stops, all priced at or above `p`, were taken. */
    ghost predicate SellsTaken(k: nat, p: Price, b: Book, q: seq<Order>, start: Batch, triggered: seq<Order>)
      reads this, Bids(), Asks(), StopBuys(), StopSells(), closed, triggered
    {
      && Took(Sell, k, b, q, start, Abs(), StopSells(), Batch(triggered, Vals(triggered)))
      && AllUpTo(b.stopSells, k, -p)
      && Linked(triggered) && NoEmptyLevel(stopSells) && Shaped(Abs())
    }

    /** Takes one more level of sell stops. */
    method TriggerSellStep(ghost k: nat, ghost p: Price, ghost b: Book, ghost q: seq<Order>, ghost start: Batch,
                           hand: seq<Order>) returns (triggered: seq<Order>, ghost k': nat)
      requires SellsTaken(k, p, b, q, start, hand) && stopSells != [] && p <= Last(stopSells).price
      modifies this`stopSells, AsSet(StopSells())
      ensures SellsTaken(k', p, b, q, start, triggered)
      ensures AsSet(StopSells()) <= old(AsSet(StopSells())) && stopSells == Init(old(stopSells))
    {
      hide Linked, NoEmptyLevel, Shaped, Abs, Vals, Triggered, Up, Down, Took, AllUpTo, AsSet, Last;
      StopSellsRanked(-p, hand);
      ghost var n := |Last(stopSells).orders|;
      ghost var b1, q1, t1 := Abs(), StopSells(), Batch(hand, Vals(hand));
      triggered := TriggerSellLevel(hand);
      TookStep(Sell, k, n, -p, b, q, start, b1, q1, t1, Abs(), StopSells(), Batch(triggered, Vals(triggered)));
      k' := k + n;
    }

    lemma SellsTakenNone(p: Price, hand: seq<Order>)
      requires Linked(hand) && Shaped(Abs()) && NoEmptyLevel(stopSells)
      ensures SellsTaken(0, p, Abs(), StopSells(), Batch(hand, Vals(hand)), hand)
    {
      TookNone(Sell, Abs(), StopSells(), Batch(hand, Vals(hand)));
    }

    /** Triggers every sell stop at or above the price, level by level. */
    method TriggerSellsDownTo(price: Price, hand: seq<Order>) returns (triggered: seq<Order>)
      requires Linked(hand) && Shaped(Abs()) && NoEmptyLevel(stopSells)
      modifies this`stopSells, AsSet(StopSells())
      ensures Linked(triggered) && NoEmptyLevel(stopSells) && Shaped(Abs())
      ensures AsSet(StopSells()) <= old(AsSet(StopSells()))
      ensures Took(Sell, Pos(old(Abs()).stopSells, -price), old(Abs()), old(StopSells()), old(Batch(hand, Vals(hand))),
                   Abs(), StopSells(), Batch(triggered, Vals(triggered)))
    {
      triggered := hand;
      ghost var b, q, start := Abs(), StopSells(), Batch(hand, Vals(hand));
      ghost var k: nat := 0;
      SellsTakenNone(price, hand);
      hide SellsTaken, NoEmptyLevel, AsSet, Last;
      while stopSells != []
        invariant SellsTaken(k, price, b, q, start, triggered)
        invariant AsSet(StopSells()) <= old(AsSet(StopSells()))
        decreases |stopSells|
      {
        if Last(stopSells).price < price {
          break;
        }
        triggered, k := TriggerSellStep(k, price, b, q, start, triggered);
      }
      SellsAllTaken(k, price, b, q, start, triggered);
    }

    lemma SellsAllTaken(k: nat, p: Price, b: Book, q: seq<Order>, start: Batch, triggered: seq<Order>)
      requires SellsTaken(k, p, b, q, start, triggered) && Shaped(b)
      requires stopSells == [] || !(p <= Last(stopSells).price)
      ensures k == Pos(b.stopSells, -p) && Linked(triggered) && NoEmptyLevel(stopSells) && Shaped(Abs())
      ensures Took(Sell, k, b, q, start, Abs(), StopSells(), Batch(triggered, Vals(triggered)))
    {
      StopSellsRanked(-p, triggered);
      UpToIsPos(Sell, b, q, start, Abs(), StopSells(), Batch(triggered, Vals(triggered)), k, -p);
    }

    /** How far a round has come: the stops reached between `lo` and `hi` are in hand, triggered. */
    ghost predicate RoundAt(b: Book, lo: Price, hi: Price, hand: seq<Order>)
      reads this, Bids(), Asks(), StopBuys(), StopSells(), closed, hand
    {
      && lo <= hi
      && Abs() == WithoutReached(b, lo, hi)
      && Vals(hand) == Triggered(Reached(b, lo, hi))
    }

    /** One price of a round: the buys it reaches, then the sells it reaches. */
    method TriggerAt(price: Price, hand: seq<Order>, ghost first: bool, ghost b: Book, ghost lo: Price, ghost hi: Price)
      returns (triggered: seq<Order>)
      requires Linked(hand) && Shaped(Abs()) && Shaped(b) && NoEmptyLevel(stopBuys) && NoEmptyLevel(stopSells)
      requires if first then hand == [] && Abs() == b && lo == price else RoundAt(b, lo, hi, hand) && hi <= price
      modifies this`stopBuys, this`stopSells, AsSet(StopBuys()), AsSet(StopSells())
      ensures Linked(triggered) && Shaped(Abs()) && NoEmptyLevel(stopBuys) && NoEmptyLevel(stopSells)
      ensures RoundAt(b, lo, price, triggered)
      ensures AsSet(StopBuys()) <= old(AsSet(StopBuys())) && AsSet(StopSells()) <= old(AsSet(StopSells()))
      ensures AsSet(triggered) <= AsSet(hand) + old(AsSet(StopBuys())) + old(AsSet(StopSells()))
    {
      ghost var b1, qb, qs, h1 := Abs(), StopBuys(), StopSells(), Batch(hand, Vals(hand));
      hide Linked, NoEmptyLevel, Shaped, Abs, Vals, Up, Down, Took, AsSet, Pos, Reached, WithoutReached;
      var buys := TriggerBuysUpTo(price, hand);
      ghost var b2, qb2, h2 := Abs(), StopBuys(), Batch(buys, Vals(buys));
      TookSets(Buy, Pos(b1.stopBuys, price), b1, qb, h1, b2, qb2, h2);
      triggered := TriggerSellsDownTo(price, buys);
      ghost var b3, qs3, h3 := Abs(), StopSells(), Batch(triggered, Vals(triggered));
      TookSets(Sell, Pos(b2.stopSells, -price), b2, qs, h2, b3, qs3, h3);
      if first {
        FirstPrice(price, b, qb, qs, b2, qb2, h2, b3, qs3, h3);
      } else {
        NextPrice(lo, hi, price, b, b1, qb, qs, h1, b2, qb2, h2, b3, qs3, h3);
      }
    }

    /** Triggers all stops that the trade prices reach, scanning the prices in ascending order. */
    method TriggerRound(prices: seq<Price>) returns (triggered: seq<Order>)
      requires Linked([]) && Shaped(Abs()) && NoEmptyLevel(stopBuys) && NoEmptyLevel(stopSells)
      requires Ascending(prices) && prices != []
      modifies this`stopBuys, this`stopSells, AsSet(StopBuys()), AsSet(StopSells())
      ensures Linked(triggered) && Shaped(Abs()) && NoEmptyLevel(stopBuys) && NoEmptyLevel(stopSells)
      ensures RoundAt(old(Abs()), prices[0], prices[|prices| - 1], triggered)
      ensures AsSet(StopBuys()) <= old(AsSet(StopBuys())) && AsSet(StopSells()) <= old(AsSet(StopSells()))
      ensures AsSet(triggered) <= old(AsSet(StopBuys())) + old(AsSet(StopSells()))
    {
      hide Linked, NoEmptyLevel, Shaped, Abs, Vals, Up, Down, AsSet, RoundAt;
      triggered := [];
      ghost var b, all := Abs(), AsSet(StopBuys()) + AsSet(StopSells());
      EmptySet();
      for i := 0 to |prices|
        invariant Linked(triggered) && Shaped(Abs()) && NoEmptyLevel(stopBuys) && NoEmptyLevel(stopSells)
        invariant if i == 0 then triggered == [] && Abs() == b else RoundAt(b, prices[0], prices[i - 1], triggered)
        invariant AsSet(StopBuys()) <= old(AsSet(StopBuys())) && AsSet(StopSells()) <= old(AsSet(StopSells()))
        invariant AsSet(triggered) <= all
      {
        triggered := TriggerAt(prices[i], triggered, i == 0, b, prices[0], if i == 0 then prices[0] else prices[i - 1]);
      }
    }

    // ---------- The cascade ----------

    /** Settles one triggered order; those still waiting keep their state. */
    method SettleNext(order: Order, ts: seq<Trade>, us: seq<Order>, ghost hand: seq<Order>)
      returns (trades: seq<Trade>, updates: seq<Order>)
      requires Working(order, hand) && Notifies(us, ts) && NoEmptyLevel(bids) && NoEmptyLevel(asks)
      modifies this`ordersById, this`bids, this`asks, this`closed, this`tape, order, AsSet(Bids()), AsSet(Asks())
      ensures Linked(hand) && NoEmptyLevel(bids) && NoEmptyLevel(asks)
      ensures Abs() == Settle(old(Abs()), old(order.Val())) && Vals(hand) == old(Vals(hand))
      ensures AsSet(Bids()) <= old(AsSet(Bids())) + {order} && AsSet(Asks()) <= old(AsSet(Asks())) + {order}
      ensures Notifies(updates, trades) && old(tape) <= tape && trades == ts + tape[|old(tape)|..]
    {
      hide Registered, Ladder, Pool, Shaped, NoEmptyLevel, Notifies, Settle, Up, Down;
      AllApart([order] + hand);
      ghost var v := Vals(hand);
      assert forall i :: 0 <= i < |hand| ==> ([order] + hand)[i + 1] == hand[i];
      assert ([order] + hand)[0] == order;
      trades, updates := SettleOrder(order, ts, us, hand);
      AreVals(hand, v);
    }

    /** `hand` still has to be settled, and settling it leads to `goal`. */
    ghost predicate SettlingTo(goal: Book, hand: seq<Order>)
      reads this, Bids(), Asks(), StopBuys(), StopSells(), closed, hand
    {
      && Linked(hand) && Shaped(Abs()) && Ready(Vals(hand))
      && NoEmptyLevel(bids) && NoEmptyLevel(asks)
      && SettleAll(Abs(), Vals(hand)) == goal
    }

    /** Whatever the book may hold once `hand` is settled. */
    ghost function Reach(hand: seq<Order>): set<Order>
      reads this
    {
      AsSet(Bids()) + AsSet(Asks()) + AsSet(hand)
    }

    /** Settles the first of the triggered orders. */
    method SettleStep(hand: seq<Order>, ts: seq<Trade>, us: seq<Order>, ghost goal: Book)
      returns (trades: seq<Trade>, updates: seq<Order>)
      requires hand != [] && SettlingTo(goal, hand) && Notifies(us, ts)
      modifies this`ordersById, this`bids, this`asks, this`closed, this`tape, Reach(hand)
      ensures SettlingTo(goal, hand[1..]) && Reach(hand[1..]) <= old(Reach(hand))
      ensures Notifies(updates, trades) && old(tape) <= tape && trades == ts + tape[|old(tape)|..]
    {
      hide Linked, Shaped, NoEmptyLevel, Notifies, Settle, Abs, Up, Down;
      var order := hand[0];
      ghost var rest := hand[1..];
      assert hand == [order] + rest;
      assert Vals(hand)[0] == order.Val() && Vals(hand)[1..] == Vals(rest);
      trades, updates := SettleNext(order, ts, us, rest);
    }

    /** Settles the triggered orders one after the other. */
    method SettleTriggered(triggered: seq<Order>, ts: seq<Trade>, us: seq<Order>)
      returns (trades: seq<Trade>, updates: seq<Order>)
      requires Linked(triggered) && Shaped(Abs()) && Ready(Vals(triggered)) && Notifies(us, ts)
      requires NoEmptyLevel(bids) && NoEmptyLevel(asks)
      modifies this`ordersById, this`bids, this`asks, this`closed, this`tape, Reach(triggered)
      ensures Linked([]) && NoEmptyLevel(bids) && NoEmptyLevel(asks)
      ensures Abs() == SettleAll(old(Abs()), old(Vals(triggered)))
      ensures Reach([]) <= old(Reach(triggered))
      ensures Notifies(updates, trades) && old(tape) <= tape && trades == ts + tape[|old(tape)|..]
    {
      hide SettleAll, SettlingTo, Reach, Notifies, Linked, Shaped, Abs, NoEmptyLevel, Ready, Vals;
      trades, updates := ts, us;
      ghost var goal := SettleAll(Abs(), Vals(triggered));
      NoneSettled(triggered);
      assert triggered[0..] == triggered && triggered[|triggered|..] == [];
      for i := 0 to |triggered|
        invariant SettlingTo(goal, triggered[i..]) && Reach(triggered[i..]) <= old(Reach(triggered))
        invariant Notifies(updates, trades) && old(tape) <= tape && trades == ts + tape[|old(tape)|..]
      {
        assert triggered[i..][1..] == triggered[i + 1..];
        trades, updates := SettleStep(triggered[i..], trades, updates, goal);
      }
      AllSettled(goal);
    }

    lemma NoneSettled(triggered: seq<Order>)
      requires Linked(triggered) && Shaped(Abs()) && Ready(Vals(triggered))
      requires NoEmptyLevel(bids) && NoEmptyLevel(asks)
      ensures SettlingTo(SettleAll(Abs(), Vals(triggered)), triggered)
    {
    }

    lemma AllSettled(goal: Book)
      requires SettlingTo(goal, [])
      ensures Linked([]) && NoEmptyLevel(bids) && NoEmptyLevel(asks) && Abs() == goal
    {
    }

    /** All orders held in one of the four maps. */
    ghost function Everyone(): set<Order>
      reads this
    {
      AsSet(Bids()) + AsSet(Asks()) + AsSet(StopBuys()) + AsSet(StopSells())
    }

    /** Between steps: nothing is in hand, and the maps have no empty level. */
    ghost predicate AtRest()
      reads this, Bids(), Asks(), StopBuys(), StopSells(), closed
    {
      Linked([]) && Shaped(Abs()) && NoEmpty()
    }

    lemma RoundIsFire(prices: seq<Price>, from: nat)
      requires AtRest() && from < |tape| && PricesOf(prices, tape[from..])
      ensures prices != [] && Ascending(prices) && from < |Abs().tape|
      ensures var b, lo, hi := Abs(), prices[0], prices[|prices| - 1];
              && lo <= hi
              && Fire(b, from) == (WithoutReached(b, lo, hi), Triggered(Reached(b, lo, hi)))
              && Shaped(Fire(b, from).0) && Ready(Fire(b, from).1)
    {
      Extremes(prices, tape[from..]);
      FireKeeps(Abs(), from);
    }

    /** A round of triggering is `Engine.Fire`. */
    method FireStops(prices: seq<Price>, ghost from: nat) returns (triggered: seq<Order>)
      requires AtRest() && from < |tape| && PricesOf(prices, tape[from..])
      modifies this`stopBuys, this`stopSells, AsSet(StopBuys()), AsSet(StopSells())
      ensures Linked(triggered) && Shaped(Abs()) && NoEmpty() && Ready(Vals(triggered))
      ensures (Abs(), Vals(triggered)) == Fire(old(Abs()), from)
      ensures Everyone() + AsSet(triggered) <= old(Everyone())
    {
      hide Linked, Shaped, NoEmptyLevel, Ready, AsSet, Abs, Reached, WithoutReached, Fire, PricesOf, Ascending, Vals,
           Triggered;
      RoundIsFire(prices, from);
      triggered := TriggerRound(prices);
    }

    /** One turn of the cascade: trigger, then settle everything triggered. */
    method CascadeStep(prices: seq<Price>, ts: seq<Trade>, us: seq<Order>, ghost from: nat)
      returns (any: bool, trades: seq<Trade>, updates: seq<Order>)
      requires AtRest() && Notifies(us, ts) && from < |tape| && PricesOf(prices, tape[from..])
      modifies this, Everyone()
      ensures AtRest() && Everyone() <= old(Everyone())
      ensures var (b, hand) := Fire(old(Abs()), from);
              && Shaped(b) && Ready(hand)
              && any == (hand != [])
              && Abs() == if any then SettleAll(b, hand) else b
      ensures Notifies(updates, trades) && old(tape) <= tape && trades == ts + tape[|old(tape)|..]
    {
      hide Linked, Shaped, NoEmptyLevel, Ready, AsSet, Abs, Fire, SettleAll, Notifies, PricesOf;
      trades, updates := ts, us;
      var triggered := FireStops(prices, from);
      assert |triggered| == |Vals(triggered)|;
      any := triggered != [];
      if any {
        trades, updates := SettleTriggered(triggered, ts, us);
      }
    }

    /** Triggers the stops the given prices reach, settles them, and goes on with the prices of the
        trades that printed, until a round prints none. */
    method ProcessStopOrders(prices: seq<Price>, ts: seq<Trade>, us: seq<Order>, ghost from: nat)
      returns (trades: seq<Trade>, updates: seq<Order>)
      requires AtRest() && Notifies(us, ts) && from < |tape| && PricesOf(prices, tape[from..])
      modifies this, Everyone()
      ensures AtRest() && Everyone() <= old(Everyone())
      ensures Abs() == Cascade(old(Abs()), from)
      ensures Notifies(updates, trades) && old(tape) <= tape && trades == ts + tape[|old(tape)|..]
      decreases Stops(Abs())
    {
      hide AtRest, Abs, Notifies, PricesOf, Fire, SettleAll, Cascade, Stops, Everyone;
      ghost var b := Abs();
      CascadeUnfolds(from);
      var any;
      any, trades, updates := CascadeStep(prices, ts, us, from);
      if any && |trades| > |ts| {
        assert trades[|ts|..] == tape[|old(tape)|..];
        TapeOfAbs();
        assert allocated(Bids()) && allocated(Asks()) && allocated(StopBuys()) && allocated(StopSells());
        var next := CollectPrices(trades[|ts|..]);
        trades, updates := ProcessStopOrders(next, trades, updates, |old(tape)|);
      } else {
        TapeOfAbs();
      }
    }

    lemma TapeOfAbs()
      ensures Abs().tape == tape
    {
    }

    lemma CascadeUnfolds(from: nat)
      requires AtRest() && from < |tape|
      ensures Shaped(Abs()) && Abs().tape == tape
      ensures var b := Abs();
              var (b1, hand) := Fire(b, from);
              && Shaped(b1) && Ready(hand)
              && (hand == [] ==> Cascade(b, from) == b1 && b1.tape == b.tape)
              && (hand != [] ==>
                    var b2 := SettleAll(b1, hand);
                    && Stops(b2) < Stops(b)
                    && Cascade(b, from) == if |b2.tape| > |b.tape| then Cascade(b2, |b.tape|) else b2)
    {
      FireKeeps(Abs(), from);
    }

    // ---------- Public calls ----------

    /** What holds between public calls. */
    ghost predicate Valid()
      reads this, Bids(), Asks(), StopBuys(), StopSells(), closed
    {
      AtRest() && Good(Abs())
    }

    /** An empty book. */
    constructor ()
      ensures Valid() && Abs() == EMPTY_BOOK && Everyone() == {}
    {
      ordersById := map[];
      bids, asks, stopBuys, stopSells := [], [], [], [];
      closed, tape := [], [];
      new;
      assert Abs() == EMPTY_BOOK;
      EmptyGood();
    }

    ghost function All(): seq<Order>
      reads this
    {
      Bids() + Asks() + StopBuys() + StopSells()
    }

    lemma AllResting()
      ensures Resting(Abs()) == Vals(All())
    {
    }

    lemma PoolIsAll(o: Order)
      ensures o in Pool([]) <==> o in All()
    {
    }

    /** The index knows exactly the ids of the orders the book holds. */
    lemma IndexIsBook(id: Id)
      requires Linked([])
      ensures id in ordersById <==> HasId(Resting(Abs()), id)
    {
      hide Abs, All, PoolOf, Pool, Resting, Ladder;
      AllResting();
      if id in ordersById {
        PoolIsAll(ordersById[id]);
        var i :| 0 <= i < |All()| && All()[i] == ordersById[id];
        assert Resting(Abs())[i].id == id;
      }
      if i :| 0 <= i < |Resting(Abs())| && Resting(Abs())[i].id == id {
        PoolIsAll(All()[i]);
        assert All()[i] in Pool([]);
      }
    }

    /** Indexes a new order; it is now in hand. */
    method Enter(order: Order)
      requires Linked([]) && order.id !in ordersById && order !in closed
      modifies this`ordersById, order`stamp
      ensures Linked([order]) && Abs() == old(Abs())
      ensures order.Val() == Accepted(old(Abs()), old(order.Val()))
    {
      hide Ladder, PoolOf, Registered;
      ghost var b, p, q, r, s := Abs(), Bids(), Asks(), StopBuys(), StopSells();
      assert allocated(p) && allocated(q) && allocated(r) && allocated(s);
      NotHeld(order);
      Registered1(order);
      ordersById := ordersById[order.id := order];
      order.stamp := |tape|;
      AreVals(p, b.bids);
      AreVals(q, b.asks);
      AreVals(r, b.stopBuys);
      AreVals(s, b.stopSells);
      AreVals(closed, b.closed);
    }

    lemma NotHeld(order: Order)
      requires Linked([]) && order.id !in ordersById
      ensures order !in Bids() && order !in Asks() && order !in StopBuys() && order !in StopSells()
    {
      hide Registered;
      assert order !in Pool([]) by { NotPooled(order); }
    }

    lemma NotPooled(order: Order)
      requires Linked([]) && order.id !in ordersById
      ensures order !in Pool([])
    {
    }

    lemma Registered1(order: Order)
      requires Linked([]) && order.id !in ordersById && order !in closed
      ensures Registered(ordersById[order.id := order], Pool([order]), closed)
    {
      Register(ordersById, Pool([]), closed, order);
      assert Pool([order]) == Pool([]) + multiset{order};
    }

    /** Takes in a live order under a new id, settles it, and runs the cascade it sets off. */
    method Admit(order: Order) returns (trades: seq<Trade>, updates: seq<Order>)
      requires AtRest() && order.Val().Live() && order.id !in ordersById && order !in closed
      modifies this, Everyone(), order
      ensures AtRest() && Everyone() <= old(Everyone()) + {order}
      ensures var b, a := old(Abs()), Accepted(old(Abs()), old(order.Val()));
              Abs() == if a.IsStop() then WithStop(b, a) else Process(b, a)
      ensures Notifies(updates, trades) && old(tape) <= tape && trades == tape[|old(tape)|..]
    {
      hide Linked, Abs, Notifies, WithStop, Settle, Cascade, NoEmptyLevel, AsSet, Shaped, PricesOf, Up, Down;
      ghost var b := Abs();
      TapeOfAbs();
      Enter(order);
      trades, updates := [], [];
      NotifiesNone();
      assert [order] + [] == [order];
      if order.IsStop() {
        WithStopKeeps(b, order.Val());
        AddStopOrder(order, []);
        TapeOfAbs();
      } else {
        trades, updates := SettleOrder(order, trades, updates, []);
        TapeOfAbs();
        if trades != [] {
          assert allocated(Bids()) && allocated(Asks()) && allocated(StopBuys()) && allocated(StopSells());
          var prices := CollectPrices(trades);
          assert NoEmpty() && trades == tape[|old(tape)|..];
          trades, updates := ProcessStopOrders(prices, trades, updates, |old(tape)|);
        }
      }
    }

    lemma NotifiesNone()
      ensures Notifies([], [])
    {
    }

    /** Lists the orders to announce: everybody who traded, except that the incoming order comes
        last, once. */
    method Announce(updates: seq<Order>, order: Order) returns (notified: seq<Order>)
      ensures notified == ExceptSubmitter(updates, order) + [order]
    {
      notified := [];
      for i := 0 to |updates|
        invariant notified == ExceptSubmitter(updates[..i], order)
      {
        assert updates[..i + 1][..i] == updates[..i];
        if updates[i] != order {
          notified := notified + [updates[i]];
        }
      }
      assert updates[..|updates|] == updates;
      notified := notified + [order];
    }

    lemma OverIsGone(order: Order)
      requires Over(Abs().closed) && order.Val().Live()
      ensures order !in closed
    {
      forall i | 0 <= i < |closed| ensures closed[i] != order {
        assert Abs().closed[i] == closed[i].Val();
      }
    }

    lemma Admitted(b: Book, o: Ord)
      requires Good(b) && o.Live() && !HasId(Resting(b), o.id)
      ensures var a := Accepted(b, o);
              Submit(b, o) == (true, if a.IsStop() then WithStop(b, a) else Process(b, a))
      ensures Good(Submit(b, o).1)
    {
      SubmitGood(b, o);
    }

    /** Submits an order. Refused, without a trace: no order, nothing left to fill, or an id that
        is already in use. */
    method AddOrder(order: Order?)
      returns (added: bool, trades: seq<Trade>, notified: seq<Order>, ghost updates: seq<Order>)
      requires Valid() && (order != null ==> Submittable(order.Val()))
      modifies this, Everyone(), if order == null then {} else {order}
      ensures Valid() && Everyone() <= old(Everyone()) + if order == null then {} else {order}
      ensures order == null ==> !added && Abs() == old(Abs())
      ensures order != null ==> (added, Abs()) == Submit(old(Abs()), old(order.Val()))
      ensures order != null && !added ==> order.Val() == old(order.Val())
      ensures added <==> order != null && old(order.remaining) > 0 && order.id !in old(ordersById)
      ensures !added ==> Abs() == old(Abs()) && trades == [] && updates == []
      ensures old(tape) <= tape && trades == tape[|old(tape)|..]
      ensures Notifies(updates, trades)
      ensures notified == if added then ExceptSubmitter(updates, order) + [order] else []
    {
      hide AtRest, Abs, Shaped, OneEach, Uncrossed, StopsQuiet, Notifies, Submit, ExceptSubmitter, AsSet, Process,
           WithStop, HasId;
      added, trades, updates, notified := false, [], [], [];
      NotifiesNone();
      if order == null || order.remaining == 0 {
        NothingToFill(order);
        return;
      }
      IndexedAtRest(order.id);
      if order.id in ordersById {
        InUse(Abs(), order.Val());
        return;
      }
      Admitted(Abs(), order.Val());
      OverIsGone(order);
      var us;
      trades, us := Admit(order);
      added, updates := true, us;
      assert allocated(Bids()) && allocated(Asks()) && allocated(StopBuys()) && allocated(StopSells());
      notified := Announce(us, order);
    }

    lemma IndexedAtRest(id: Id)
      requires AtRest()
      ensures id in ordersById <==> HasId(Resting(Abs()), id)
    {
      IndexIsBook(id);
    }

    lemma NothingToFill(order: Order?)
      requires Shaped(Abs()) && (order == null || order.remaining == 0)
      ensures order != null ==> Submit(Abs(), order.Val()) == (false, Abs())
    {
    }

    lemma InUse(b: Book, o: Ord)
      requires Shaped(b) && Submittable(o) && HasId(Resting(b), o.id)
      ensures Submit(b, o) == (false, b)
    {
    }

    // ---------- Canceling ----------

    /** The queue an order of this type and side rests in. */
    ghost function Home(order: Order): seq<Order>
      reads this, order
    {
      if order.IsStop() then (if order.side.Buy? then StopBuys() else StopSells())
      else (if order.side.Buy? then Bids() else Asks())
    }

    lemma AtHome(order: Order)
      requires Shaped(Abs()) && order in Pool([])
      ensures order in Home(order) && order.Val().Live()
    {
      hide Pool, Abs;
      PoolIsAll(order);
      hide PoolOf, Sorted;
      AllHeld();
    }

    lemma AllHeld()
      requires Shaped(Abs())
      ensures forall o :: o in Bids() ==> o.side == Buy && o.Val().Live() && o.kind.Limit?
      ensures forall o :: o in Asks() ==> o.side == Sell && o.Val().Live() && o.kind.Limit?
      ensures forall o :: o in StopBuys() ==> o.side == Buy && o.Val().Live() && o.IsStop()
      ensures forall o :: o in StopSells() ==> o.side == Sell && o.Val().Live() && o.IsStop()
    {
      HeldRefs(Bids(), Buy, false);
      HeldRefs(Asks(), Sell, false);
      HeldRefs(StopBuys(), Buy, true);
      HeldRefs(StopSells(), Sell, true);
    }

    /** What is left when an order is taken out of wherever it rests. */
    twostate predicate DroppedEverywhere(order: Order)
      reads this
    {
      && Bids() == Dropped(old(Bids()), order) && Asks() == Dropped(old(Asks()), order)
      && StopBuys() == Dropped(old(StopBuys()), order) && StopSells() == Dropped(old(StopSells()), order)
    }

    /** Takes the order out of the map its type and side say it is in. */
    method Unlist(order: Order)
      requires Linked([]) && NoEmpty() && order in Home(order)
      modifies this`bids, this`asks, this`stopBuys, this`stopSells
      ensures Linked([order]) && NoEmpty() && DroppedEverywhere(order)
    {
      hide Registered, PoolOf, Ladder, NoEmptyLevel, Dropped, Erased, Apart;
      ghost var p, q, r, s := Bids(), Asks(), StopBuys(), StopSells();
      AbsentElsewhere(order);
      if order.IsStop() {
        if order.side == Buy {
          ErasedFlat(stopBuys, order, true, true);
          ErasedLadder(stopBuys, order, true);
          DroppedMoves(r, order);
          stopBuys := Erased(stopBuys, order.stopPrice, order);
          PoolMoves(p, q, StopBuys(), s, [], order, p, q, r, s);
        } else {
          ErasedFlat(stopSells, order, true, false);
          ErasedLadder(stopSells, order, true);
          DroppedMoves(s, order);
          stopSells := Erased(stopSells, order.stopPrice, order);
          PoolMoves(p, q, r, StopSells(), [], order, p, q, r, s);
        }
      } else if order.side == Buy {
        ErasedFlat(bids, order, false, false);
        ErasedLadder(bids, order, false);
        DroppedMoves(p, order);
        bids := Erased(bids, order.price, order);
        PoolMoves(Bids(), q, r, s, [], order, p, q, r, s);
      } else {
        ErasedFlat(asks, order, false, true);
        ErasedLadder(asks, order, false);
        DroppedMoves(q, order);
        asks := Erased(asks, order.price, order);
        PoolMoves(p, Asks(), r, s, [], order, p, q, r, s);
      }
      assert [order] + [] == [order];
    }

    lemma AbsentElsewhere(order: Order)
      requires Linked([]) && order in Home(order)
      ensures (order.side.Buy? && !order.IsStop()) || Dropped(Bids(), order) == Bids()
      ensures (order.side.Sell? && !order.IsStop()) || Dropped(Asks(), order) == Asks()
      ensures (order.side.Buy? && order.IsStop()) || Dropped(StopBuys(), order) == StopBuys()
      ensures (order.side.Sell? && order.IsStop()) || Dropped(StopSells(), order) == StopSells()
    {
      hide Linked, Dropped, Pool;
      AllApart([]);
      if order !in Bids() { DroppedAbsent(Bids(), order); }
      if order !in Asks() { DroppedAbsent(Asks(), order); }
      if order !in StopBuys() { DroppedAbsent(StopBuys(), order); }
      if order !in StopSells() { DroppedAbsent(StopSells(), order); }
    }

    lemma DroppedMoves(q: seq<Order>, x: Order)
      requires x in q
      ensures multiset(q) == multiset(Dropped(q, x)) + multiset{x}
    {
      DroppedBag(q, x);
    }

    /** The queue `s` had the values `r`, only `x` may have changed since, and `x` alone has its id. */
    ghost predicate AsBefore(s: seq<Order>, x: Order, r: seq<Ord>)
      reads s
    {
      && |s| == |r| && NoDup(s)
      && forall i :: 0 <= i < |s| ==>
           s[i].id == r[i].id && (s[i] != x ==> s[i].Val() == r[i]) && (s[i].id == x.id ==> s[i] == x)
    }

    lemma {:induction false} DroppedVals(s: seq<Order>, x: Order, r: seq<Ord>)
      requires AsBefore(s, x, r)
      ensures Vals(Dropped(s, x)) == Remove(r, x.id)
    {
      if s != [] {
        if s[0] == x {
          AreVals(s[1..], r[1..]);
        } else {
          DroppedVals(s[1..], x, r[1..]);
          AreVals(Dropped(s, x), [r[0]] + Remove(r[1..], x.id));
        }
      }
    }

    lemma OneHolder(order: Order, s: seq<Order>)
      requires Linked([]) && order in Pool([]) && multiset(s) <= Pool([]) && NoDup(s)
      ensures AsBefore(s, order, Vals(s))
    {
      forall i | 0 <= i < |s| && s[i].id == order.id ensures s[i] == order {
        assert s[i] in multiset(s);
      }
    }

    lemma AllAsBefore(order: Order)
      requires Linked([]) && order in Pool([])
      ensures AsBefore(Bids(), order, Abs().bids) && AsBefore(Asks(), order, Abs().asks)
      ensures AsBefore(StopBuys(), order, Abs().stopBuys) && AsBefore(StopSells(), order, Abs().stopSells)
    {
      hide Linked, AsBefore;
      AllApart([]);
      OneHolder(order, Bids());
      OneHolder(order, Asks());
      OneHolder(order, StopBuys());
      OneHolder(order, StopSells());
    }

    /** Takes the order out of its map and out of the index. */
    method Drop(order: Order, ghost b: Book)
      requires Linked([]) && NoEmpty() && order in Home(order)
      requires AsBefore(Bids(), order, b.bids) && AsBefore(Asks(), order, b.asks)
      requires AsBefore(StopBuys(), order, b.stopBuys) && AsBefore(StopSells(), order, b.stopSells)
      requires Vals(closed) == b.closed && tape == b.tape
      modifies this`ordersById, this`bids, this`asks, this`stopBuys, this`stopSells, this`closed
      ensures Linked([]) && NoEmpty() && Everyone() <= old(Everyone())
      ensures Abs() == Take(b, order.id).(closed := b.closed + [order.Val()])
    {
      hide Linked, NoEmptyLevel, AsBefore, Dropped, Remove, Vals, AsSet, Home, Up, Down;
      DroppedVals(Bids(), order, b.bids);
      DroppedVals(Asks(), order, b.asks);
      DroppedVals(StopBuys(), order, b.stopBuys);
      DroppedVals(StopSells(), order, b.stopSells);
      DroppedSet(Bids(), order);
      DroppedSet(Asks(), order);
      DroppedSet(StopBuys(), order);
      DroppedSet(StopSells(), order);
      assert allocated(Dropped(Bids(), order)) && allocated(Dropped(Asks(), order));
      assert allocated(Dropped(StopBuys(), order)) && allocated(Dropped(StopSells(), order));
      Unlist(order);
      assert Abs() == Take(b, order.id);
      assert [order] + [] == [order];
      Close(order, []);
    }

    lemma DroppedSet(q: seq<Order>, x: Order)
      ensures AsSet(Dropped(q, x)) <= AsSet(q)
    {
      DroppedBag(q, x);
    }

    lemma WithdrawIs(b: Book, id: Id, o: Ord)
      requires HasId(Resting(b), id)
      requires forall i :: 0 <= i < |Resting(b)| && Resting(b)[i].id == id ==> Resting(b)[i] == o
      ensures Withdraw(b, id) == (true, Take(b, id).(closed := b.closed + [o.Cancel().1]))
    {
      hide Resting, Take;
    }

    /** Before an indexed order is canceled. */
    lemma Cancelable(id: Id)
      requires Valid() && id in ordersById
      ensures var order := ordersById[id];
              && order.id == id && order in Home(order) && order !in closed && order.Val().Cancel().0
              && Withdraw(Abs(), id) == (true, Take(Abs(), id).(closed := Abs().closed + [order.Val().Cancel().1]))
              && Good(Withdraw(Abs(), id).1)
    {
      hide Abs, Pool, Home, Shaped, Uncrossed, StopsQuiet, OneEach, Over, Take, Resting, All, Withdraw, Ladder,
           NoEmptyLevel;
      var order := ordersById[id];
      Canceling.WithdrawGood(Abs(), id);
      IndexIsBook(id);
      AllResting();
      assert order in Pool([]) && order.id == id && order !in closed by { InPool(id); }
      AtHome(order);
      forall i | 0 <= i < |Resting(Abs())| && Resting(Abs())[i].id == id ensures Resting(Abs())[i] == order.Val() {
        PoolIsAll(All()[i]);
        assert All()[i] == order by { Same(All()[i]); }
      }
      WithdrawIs(Abs(), id, order.Val());
    }

    lemma InPool(id: Id)
      requires Linked([]) && id in ordersById
      ensures ordersById[id] in Pool([]) && ordersById[id].id == id && ordersById[id] !in closed
    {
    }

    lemma Same(o: Order)
      requires Linked([]) && o in Pool([])
      ensures o.id in ordersById && ordersById[o.id] == o
    {
    }

    lemma NotIndexed(id: Id)
      requires AtRest() && id !in ordersById
      ensures Withdraw(Abs(), id) == (false, Abs())
    {
      IndexIsBook(id);
    }

    lemma Holding(id: Id)
      requires AtRest() && id in ordersById
      ensures var order := ordersById[id];
              && Linked([]) && NoEmpty() && order in Everyone()
              && AsBefore(Bids(), order, Abs().bids) && AsBefore(Asks(), order, Abs().asks)
              && AsBefore(StopBuys(), order, Abs().stopBuys) && AsBefore(StopSells(), order, Abs().stopSells)
    {
      hide Linked, AsBefore, Pool;
      InPool(id);
      PoolIsAll(ordersById[id]);
      AllAsBefore(ordersById[id]);
    }

    lemma AtRestAgain()
      requires Linked([]) && NoEmpty() && Good(Abs())
      ensures Valid()
    {
    }

    /** Canceling the order changes no other. */
    method Mark(order: Order, ghost b: Book) returns (ok: bool)
      requires AsBefore(Bids(), order, b.bids) && AsBefore(Asks(), order, b.asks)
      requires AsBefore(StopBuys(), order, b.stopBuys) && AsBefore(StopSells(), order, b.stopSells)
      requires order !in closed && Vals(closed) == b.closed
      modifies order
      ensures (ok, order.Val()) == old(order.Val()).Cancel()
      ensures AsBefore(Bids(), order, b.bids) && AsBefore(Asks(), order, b.asks)
      ensures AsBefore(StopBuys(), order, b.stopBuys) && AsBefore(StopSells(), order, b.stopSells)
      ensures Vals(closed) == b.closed
    {
      assert allocated(Bids()) && allocated(Asks()) && allocated(StopBuys()) && allocated(StopSells());
      ok := order.Cancel();
      AreVals(closed, b.closed);
    }

    /** Cancels the order with this id, if the book holds one. */
    method CancelOrder(id: Id) returns (ok: bool, notified: seq<Order>)
      requires Valid()
      modifies this, Everyone()
      ensures Valid() && Everyone() <= old(Everyone())
      ensures (ok, Abs()) == Withdraw(old(Abs()), id)
      ensures ok == (id in old(ordersById))
      ensures notified == if ok then [old(ordersById)[id]] else []
    {
      hide AtRest, Good, Withdraw, Take, AsBefore, Linked, NoEmpty, AsSet, Up, Down, Vals;
      ok, notified := false, [];
      if id !in ordersById {
        NotIndexed(id);
        return;
      }
      Cancelable(id);
      Holding(id);
      ghost var b := Abs();
      var order := ordersById[id];
      ok := Mark(order, b);
      if ok {
        Drop(order, b);
        AtRestAgain();
        notified := [order];
      }
    }

    // ---------- Reading ----------

    /** The order the book holds under this id, if any. */
    method GetOrder(id: Id) returns (order: Order?)
      requires Valid()
      ensures order != null <==> HasId(Resting(Abs()), id)
      ensures order != null ==> order.id == id && order in Everyone() && order.Val().Live()
    {
      IndexIsBook(id);
      if id in ordersById {
        InPool(id);
        PoolIsAll(ordersById[id]);
        AtHome(ordersById[id]);
        return ordersById[id];
      }
      return null;
    }

    lemma SidesInOrder()
      requires Valid()
      ensures Depths.OneSide(Abs().bids, Buy) && Depths.OneSide(Abs().asks, Sell)
    {
    }

    method GetBidLevels(depth: int) returns (levels: seq<PriceLevel>)
      requires Valid()
      ensures levels == Visible(Abs().bids, depth)
      ensures ShowsBest(levels, Abs().bids, Buy, depth)
    {
      hide Good, Shaped, Visible, Registered, ShowsBest, Depths.OneSide;
      SidesInOrder();
      ghost var q := Abs().bids;
      assert allocated(Bids());
      levels := CalculatePriceLevels(bids, true, depth);
      assert q == Vals(Bids());
      VisibleIsBest(q, Buy, depth);
    }

    method GetAskLevels(depth: int) returns (levels: seq<PriceLevel>)
      requires Valid()
      ensures levels == Visible(Abs().asks, depth)
      ensures ShowsBest(levels, Abs().asks, Sell, depth)
    {
      hide Good, Shaped, Visible, Registered, ShowsBest, Depths.OneSide;
      SidesInOrder();
      ghost var q := Abs().asks;
      assert allocated(Asks());
      levels := CalculatePriceLevels(asks, false, depth);
      assert q == Vals(Asks());
      VisibleIsBest(q, Sell, depth);
    }

    /** The best prices and volumes are those of the first level shown, or zero. */
    method GetBestBidPrice() returns (price: Price)
      requires Valid()
      ensures var all := Grouped(Abs().bids); price == if all == [] then 0.0 else all[0].price
      ensures price == if Abs().bids == [] then 0.0 else Abs().bids[0].price
    {
      hide Good, Shaped, Grouped, Registered;
      GroupedFlat(bids, false);
      if bids != [] {
        return Last(bids).price;
      }
      return 0.0;
    }

    method GetBestAskPrice() returns (price: Price)
      requires Valid()
      ensures var all := Grouped(Abs().asks); price == if all == [] then 0.0 else all[0].price
      ensures price == if Abs().asks == [] then 0.0 else Abs().asks[0].price
    {
      hide Good, Shaped, Grouped, Registered;
      GroupedFlat(asks, true);
      if asks != [] {
        return asks[0].price;
      }
      return 0.0;
    }

    method GetBestBidVolume() returns (volume: Qty)
      requires Valid()
      ensures var all := Grouped(Abs().bids); volume == if all == [] then 0 else all[0].quantity
      ensures var q := Abs().bids;
              if q == [] then volume == 0
              else
                && volume == VolumeAt(q, q[0].price) % 0x1_0000_0000
                && (VolumeAt(q, q[0].price) < 0x1_0000_0000 ==> volume == VolumeAt(q, q[0].price))
    {
      hide Good, Shaped, Grouped, Registered, Depths.OneSide, VolumeAt, Wrap, Total, Sorted, Held;
      SidesInOrder();
      ghost var q := Abs().bids;
      BestVolume(q, Buy);
      assert allocated(Bids());
      volume := 0;
      if bids != [] {
        volume := SumRemaining(Last(bids).orders);
      }
      GroupedFlat(bids, false);
    }

    method GetBestAskVolume() returns (volume: Qty)
      requires Valid()
      ensures var all := Grouped(Abs().asks); volume == if all == [] then 0 else all[0].quantity
      ensures var q := Abs().asks;
              if q == [] then volume == 0
              else
                && volume == VolumeAt(q, q[0].price) % 0x1_0000_0000
                && (VolumeAt(q, q[0].price) < 0x1_0000_0000 ==> volume == VolumeAt(q, q[0].price))
    {
      hide Good, Shaped, Grouped, Registered, Depths.OneSide, VolumeAt, Wrap, Total, Sorted, Held;
      SidesInOrder();
      ghost var q := Abs().asks;
      BestVolume(q, Sell);
      assert allocated(Asks());
      volume := 0;
      if asks != [] {
        volume := SumRemaining(asks[0].orders);
      }
      GroupedFlat(asks, true);
    }
  }

  /** The updates without the incoming order. */
  function ExceptSubmitter(us: seq<Order>, o: Order): seq<Order> {
    if us == [] then []
    else ExceptSubmitter(us[..|us| - 1], o) + if us[|us| - 1] == o then [] else [us[|us| - 1]]
  }

  /** The orders kept stay in their order, each as often as it was noted. */
  lemma {:induction false} ExceptSubmitterInOrder(us: seq<Order>, vs: seq<Order>, o: Order, x: Order)
    ensures ExceptSubmitter([], o) == []
    ensures ExceptSubmitter([x], o) == if x == o then [] else [x]
    ensures ExceptSubmitter(us + vs, o) == ExceptSubmitter(us, o) + ExceptSubmitter(vs, o)
  {
    assert [x][..0] == [];
    if vs == [] {
      assert us + vs == us;
    } else {
      ExceptSubmitterInOrder(us, vs[..|vs| - 1], o, x);
      assert (us + vs)[..|us + vs| - 1] == us + vs[..|vs| - 1];
    }
  }

  lemma {:induction false} ExceptSubmitterHas(us: seq<Order>, o: Order, x: Order)
    ensures x in ExceptSubmitter(us, o) <==> x in us && x != o
  {
    if us != [] {
      ExceptSubmitterHas(us[..|us| - 1], o, x);
      assert us == us[..|us| - 1] + [us[|us| - 1]];
    }
  }

  /** What `AddOrder` lists reaches exactly the submitter and the parties of the call's trades. */
  lemma NotifiedIsTold(us: seq<Order>, ts: seq<Trade>, order: Order, id: Id)
    requires Notifies(us, ts)
    ensures (exists x :: x in ExceptSubmitter(us, order) + [order] && x.id == id)
            <==> id == order.id || Announcements.Named(ts, id)
  {
    hide ExceptSubmitter;
    if id != order.id {
      if x :| x in ExceptSubmitter(us, order) + [order] && x.id == id {
        ExceptSubmitterHas(us, order, x);
        var i :| 0 <= i < |us| && us[i] == x;
        assert us[2 * (i / 2)].id == ts[i / 2].buyId && us[2 * (i / 2) + 1].id == ts[i / 2].sellId;
      }
      if k :| 0 <= k < |ts| && (ts[k].buyId == id || ts[k].sellId == id) {
        var x := us[if ts[k].buyId == id then 2 * k else 2 * k + 1];
        ExceptSubmitterHas(us, order, x);
        assert x in ExceptSubmitter(us, order) + [order];
      }
    }
  }
}
