/** The profit tracker as an object that keeps one mutable position per symbol. */
module Tracker {
  import opened Positions
  import opened Tracking

  class Position {
    const symbol: string
    var quantity: int
    var avgEntryPrice: real
    var realizedPnl: real
    var lastTradePrice: real

    constructor (symbol: string, lastTradePrice: real := 0.0)
      ensures this.symbol == symbol && Val() == Holding(FLAT, lastTradePrice)
    {
      this.symbol := symbol;
      quantity, avgEntryPrice, realizedPnl, this.lastTradePrice := 0, 0.0, 0.0, lastTradePrice;
    }

    ghost function Val(): Holding
      reads this
    {
      Holding(Account(quantity, avgEntryPrice, realizedPnl), lastTradePrice)
    }

    function UnrealizedPnl(): (r: real)
      reads this
    {
      Unrealized(Account(quantity, avgEntryPrice, realizedPnl), lastTradePrice)
    }

    /** Opens, adds to, reduces, closes or reverses this position. */
    method Take(fill: Fill)
      modifies this
      ensures Val() == Holding(ApplyFill(old(Val()).account, fill), fill.price)
    {
      hide Blended, Realized;
      var signedQty := if fill.side == "BUY" then fill.quantity else -fill.quantity;
      if quantity == 0 {
        avgEntryPrice := fill.price;
        quantity := signedQty;
      } else if (quantity > 0 && signedQty > 0) || (quantity < 0 && signedQty < 0) {
        avgEntryPrice := Blended(avgEntryPrice, quantity, fill.price, signedQty);
        quantity := quantity + signedQty;
      } else {
        var closeQty := Least(Abs(signedQty), Abs(quantity));
        realizedPnl := realizedPnl + Realized(avgEntryPrice, quantity > 0, fill.price, closeQty);
        var left := Abs(signedQty) - closeQty;
        if left > 0 {
          quantity := signedQty + if signedQty < 0 then closeQty else -closeQty;
          avgEntryPrice := fill.price;
        } else {
          quantity := quantity + signedQty;
          if quantity == 0 {
            avgEntryPrice := 0.0;
          }
        }
      }
      lastTradePrice := fill.price;
    }
  }

  /** The tracker records a fill first and applies it then. */
  lemma RecordedThenApplied(t: Track, f: Fill)
    ensures OnFill(t.(fills := t.fills + [f]), f).(fills := t.fills + [f]) == OnFill(t, f)
  {
  }

  class PnLTracker {
    var initialCapital: real
    var positions: map<string, Position>
    /** The keys of `positions` in the order they were added. */
    var symbols: seq<string>
    var fills: seq<Fill>
    var orderMeta: map<string, Meta>

    ghost predicate Valid()
      reads this
    {
      && Unrepeated(symbols)
      && (forall s :: s in symbols <==> s in positions)
      && (forall s :: s in positions ==> positions[s].symbol == s)
    }

    /** The position objects. */
    ghost function Objects(): set<Position>
      reads this
    {
      set s | s in positions :: positions[s]
    }

    lemma ObjectOf(symbol: string)
      requires symbol in positions
      ensures positions[symbol] in Objects()
    {
    }

    ghost function State(): Track
      reads this, Objects()
    {
      Track(map s | s in positions :: positions[s].Val(), fills, orderMeta)
    }

    lemma StateOf()
      ensures State().holdings.Keys == positions.Keys && State().fills == fills && State().meta == orderMeta
      ensures forall s :: s in positions ==> State().holdings[s] == positions[s].Val()
    {
    }

    lemma IsState(t: Track)
      requires t.holdings.Keys == positions.Keys && t.fills == fills && t.meta == orderMeta
      requires forall s :: s in positions ==> t.holdings[s] == positions[s].Val()
      ensures State() == t
    {
    }

    constructor ()
      ensures Valid() && State() == EMPTY_TRACK && initialCapital == 100000.0 && fresh(Objects())
    {
      initialCapital := 100000.0;
      positions, symbols, fills, orderMeta := map[], [], [], map[];
    }

    method SetInitialCapital(amount: real)
      requires Valid()
      modifies this`initialCapital
      ensures Valid() && State() == old(State()) && initialCapital == amount
    {
      initialCapital := amount;
    }

    /** Adds a position for a symbol that has none. */
    method Hold(position: Position)
      requires Valid() && position.symbol !in positions
      modifies this`positions, this`symbols
      ensures Valid() && positions == old(positions)[position.symbol := position]
    {
      positions := positions[position.symbol := position];
      symbols := symbols + [position.symbol];
      assert forall s :: s in symbols <==> s in old(symbols) || s == position.symbol;
    }

    method ApplyFill(fill: Fill)
      requires Valid()
      modifies this`positions, this`symbols, Objects()
      ensures Valid() && fresh(Objects() - old(Objects()))
      ensures State() == OnFill(old(State()), fill).(fills := fills)
    {
      hide Positions.ApplyFill, State;
      ghost var t := State();
      StateOf();
      if fill.symbol !in positions {
        var position := new Position(fill.symbol);
        Hold(position);
      }
      ObjectOf(fill.symbol);
      var pos := positions[fill.symbol];
      pos.Take(fill);
      IsState(OnFill(t, fill).(fills := fills));
    }

    method ProcessOrderStatus(r: Report)
      requires Valid()
      modifies this`positions, this`symbols, this`fills, this`orderMeta, Objects()
      ensures Valid() && fresh(Objects() - old(Objects()))
      ensures State() == OnReport(old(State()), r)
    {
      hide OnFill, State;
      if r.orderId == "" {
        return;
      }
      ghost var t := State();
      StateOf();
      if r.orderId !in orderMeta {
        orderMeta := orderMeta[r.orderId := Meta(r.side, r.symbol, 0, r.price, r.orderType)];
      }
      var meta := orderMeta[r.orderId];
      IsState(t.(meta := orderMeta));
      if r.filled > meta.lastFilled {
        orderMeta := orderMeta[r.orderId := meta.(lastFilled := r.filled)];
        var fill := Fill(r.orderId, r.symbol, r.side, r.price, r.filled - meta.lastFilled);
        fills := fills + [fill];
        IsState(t.(fills := fills, meta := orderMeta));
        RecordedThenApplied(t.(meta := orderMeta), fill);
        ApplyFill(fill);
      }
    }

    method ProcessTrade(symbol: string, price: real)
      requires Valid()
      modifies this`positions, this`symbols, Objects()
      ensures Valid() && fresh(Objects() - old(Objects()))
      ensures State() == OnTrade(old(State()), symbol, price)
    {
      hide State;
      ghost var t := State();
      StateOf();
      if symbol != "" && price > 0.0 {
        if symbol in positions {
          ObjectOf(symbol);
          var pos := positions[symbol];
          pos.lastTradePrice := price;
        }
        if symbol !in positions {
          var position := new Position(symbol, price);
          Hold(position);
        } else {
          var pos := positions[symbol];
          pos.lastTradePrice := price;
        }
        IsState(OnTrade(t, symbol, price));
      }
    }

    function RealizedOver(ss: seq<string>): (r: real)
      requires forall s :: s in ss ==> s in positions
      reads this, Objects()
      ensures r == TotalRealized(State(), ss)
    {
      if ss == [] then 0.0
      else
        var s := ss[|ss| - 1];
        ObjectOf(s);
        RealizedOver(ss[..|ss| - 1]) + positions[s].realizedPnl
    }

    function UnrealizedOver(ss: seq<string>): (r: real)
      requires forall s :: s in ss ==> s in positions
      reads this, Objects()
      ensures r == TotalUnrealized(State(), ss)
    {
      if ss == [] then 0.0
      else
        var s := ss[|ss| - 1];
        ObjectOf(s);
        UnrealizedOver(ss[..|ss| - 1]) + positions[s].UnrealizedPnl()
    }

    function TotalPnl(): (r: real)
      requires Valid()
      reads this, Objects()
      ensures r == TotalRealized(State(), symbols) + TotalUnrealized(State(), symbols)
    {
      RealizedOver(symbols) + UnrealizedOver(symbols)
    }

    function Equity(): (r: real)
      requires Valid()
      reads this, Objects()
      ensures r == initialCapital + TotalRealized(State(), symbols) + TotalUnrealized(State(), symbols)
    {
      initialCapital + TotalPnl()
    }

    /** After any events, equity is the initial capital, plus the net cash flow of all fills, plus the
        positions at their last prices or, for want of one, at cost. */
    lemma EquityAfter(es: seq<Event>)
      requires Valid() && State() == Tracked(es)
      ensures Equity() == initialCapital + Cash(fills) + TotalValue(State(), symbols)
    {
      assert forall s :: s in symbols <==> s in State().holdings;
      EquityIdentity(es, symbols);
    }
  }
}
