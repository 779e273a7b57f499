/** The depth view: what the book shows of a side, level by level. */
module Depths {
  import opened Orders
  import opened OrderObject
  import opened Queues
  import opened Ladders

  /** Quantities add up as C++ uint32_t values do. */
  function Wrap(n: nat): Qty {
    n % 0x1_0000_0000
  }

  /** How many orders at the front of the queue share the first one's price. */
  function RunLength(q: seq<Ord>): (n: nat)
    ensures n <= |q| && (q != [] ==> n > 0)
    ensures forall i :: 0 <= i < n ==> q[i].price == q[0].price
    ensures n < |q| ==> q[n].price != q[0].price
  {
    if q == [] then 0
    else if |q| == 1 || q[1].price != q[0].price then 1
    else 1 + RunLength(q[1..])
  }

  /** The levels a flat queue shows. */
  function Grouped(q: seq<Ord>): seq<PriceLevel> {
    if q == [] then []
    else
      var n := RunLength(q);
      [PriceLevel(q[0].price, Wrap(Total(q[..n])), n)] + Grouped(q[n..])
  }

  // ---------- What the levels say about the queue ----------

  function CountAt(q: seq<Ord>, p: Price): nat {
    if q == [] then 0 else (if q[0].price == p then 1 else 0) + CountAt(q[1..], p)
  }

  function VolumeAt(q: seq<Ord>, p: Price): nat {
    if q == [] then 0 else (if q[0].price == p then q[0].remaining else 0) + VolumeAt(q[1..], p)
  }

  /** One side of the book, best price first. */
  ghost predicate OneSide(q: seq<Ord>, side: Side) {
    Sorted(q) && Held(q, side, false)
  }

  predicate Better(a: Price, b: Price, side: Side) {
    if side.Buy? then b < a else a < b
  }

  lemma {:induction false} AllAt(q: seq<Ord>, p: Price)
    requires forall i :: 0 <= i < |q| ==> q[i].price == p
    ensures CountAt(q, p) == |q| && VolumeAt(q, p) == Total(q)
  {
    if q != [] { AllAt(q[1..], p); }
  }

  lemma {:induction false} NoneAt(q: seq<Ord>, p: Price)
    requires forall i :: 0 <= i < |q| ==> q[i].price != p
    ensures CountAt(q, p) == 0 && VolumeAt(q, p) == 0
  {
    if q != [] { NoneAt(q[1..], p); }
  }

  lemma {:induction false} AtAppend(q: seq<Ord>, r: seq<Ord>, p: Price)
    ensures CountAt(q + r, p) == CountAt(q, p) + CountAt(r, p)
    ensures VolumeAt(q + r, p) == VolumeAt(q, p) + VolumeAt(r, p)
  {
    if q == [] {
      assert q + r == r;
    } else {
      AtAppend(q[1..], r, p);
      assert (q + r)[1..] == q[1..] + r;
    }
  }

  /** Behind the first level every price is worse. */
  lemma BehindFirst(q: seq<Ord>, side: Side)
    requires OneSide(q, side) && q != []
    ensures var n := RunLength(q);
            OneSide(q[n..], side) && forall i :: n <= i < |q| ==> Better(q[0].price, q[i].price, side)
  {
    var n := RunLength(q);
    DropKeeps(q, n, side, false);
    forall i | n <= i < |q| ensures Better(q[0].price, q[i].price, side) {
      assert Rank(q[0]) <= Rank(q[n]) && (n < i ==> Rank(q[n]) <= Rank(q[i]));
    }
  }

  lemma GroupedHead(q: seq<Ord>)
    requires q != []
    ensures var n := RunLength(q);
            Grouped(q) == [PriceLevel(q[0].price, Wrap(Total(q[..n])), n)] + Grouped(q[n..])
  {
  }

  lemma GroupedNone()
    ensures Grouped([]) == []
  {
  }

  /** Every level shows the price of some order. */
  lemma {:induction false} OnlyPricesShown(q: seq<Ord>)
    ensures forall i :: 0 <= i < |Grouped(q)| ==> exists k :: 0 <= k < |q| && q[k].price == Grouped(q)[i].price
  {
    hide Grouped, RunLength, Total;
    GroupedNone();
    if q != [] {
      var n := RunLength(q);
      var g, t := Grouped(q), Grouped(q[n..]);
      GroupedHead(q);
      OnlyPricesShown(q[n..]);
      forall i | 0 <= i < |g| ensures exists k :: 0 <= k < |q| && q[k].price == g[i].price {
        if i > 0 {
          assert g[i] == t[i - 1];
          var k :| 0 <= k < |q[n..]| && q[n..][k].price == t[i - 1].price;
          assert q[n + k].price == g[i].price;
        }
      }
    }
  }

  /** Every order's price is shown. */
  lemma {:induction false} AllPricesShown(q: seq<Ord>)
    ensures forall k :: 0 <= k < |q| ==> exists i :: 0 <= i < |Grouped(q)| && Grouped(q)[i].price == q[k].price
  {
    hide Grouped, RunLength, Total;
    if q != [] {
      var n := RunLength(q);
      var g, t := Grouped(q), Grouped(q[n..]);
      GroupedHead(q);
      AllPricesShown(q[n..]);
      forall k | 0 <= k < |q| ensures exists i :: 0 <= i < |g| && g[i].price == q[k].price {
        if k < n {
          assert g[0].price == q[k].price;
        } else {
          assert q[n..][k - n].price == q[k].price;
          var i :| 0 <= i < |t| && t[i].price == q[k].price;
          assert g[i + 1] == t[i];
        }
      }
    }
  }

  /** The level shows the number and the total remaining quantity (modulo 2^32) of all orders at
      its price. */
  ghost predicate Faithful(l: PriceLevel, q: seq<Ord>) {
    l.orderCount == CountAt(q, l.price) && l.quantity == Wrap(VolumeAt(q, l.price))
  }

  /** The levels worsen strictly, and each of them is faithful to the queue. */
  lemma {:induction false} DepthExact(q: seq<Ord>, side: Side)
    requires OneSide(q, side)
    ensures forall i, j :: 0 <= i < j < |Grouped(q)| ==> Better(Grouped(q)[i].price, Grouped(q)[j].price, side)
    ensures forall i :: 0 <= i < |Grouped(q)| ==> Faithful(Grouped(q)[i], q)
  {
    hide Grouped, RunLength, Total, OneSide, CountAt, VolumeAt;
    GroupedNone();
    if q != [] {
      var n := RunLength(q);
      var g, t := Grouped(q), Grouped(q[n..]);
      GroupedHead(q);
      BehindFirst(q, side);
      DepthExact(q[n..], side);
      FirstShown(q, side);
      assert Faithful(g[0], q);
      forall i | 0 < i < |g| ensures Better(g[0].price, g[i].price, side) && Faithful(g[i], q) {
        assert g[i] == t[i - 1];
        LaterShown(q, n, i - 1, side);
      }
      forall i, j | 0 <= i < j < |g| ensures Better(g[i].price, g[j].price, side) {
        if i > 0 { assert g[i] == t[i - 1] && g[j] == t[j - 1]; }
      }
    }
  }

  /** What a level behind the first shows of the rest, it shows of the whole queue. */
  lemma LaterShown(q: seq<Ord>, n: nat, i: nat, side: Side)
    requires n <= |q| && q != [] && i < |Grouped(q[n..])| && Faithful(Grouped(q[n..])[i], q[n..])
    requires forall k :: 0 <= k < n ==> q[k].price == q[0].price
    requires forall k :: n <= k < |q| ==> Better(q[0].price, q[k].price, side)
    ensures Better(q[0].price, Grouped(q[n..])[i].price, side) && Faithful(Grouped(q[n..])[i], q)
  {
    hide Grouped, CountAt, VolumeAt;
    var l := Grouped(q[n..])[i];
    OnlyPricesShown(q[n..]);
    var k :| 0 <= k < |q[n..]| && q[n..][k].price == l.price;
    assert q[n + k].price == l.price;
    NotInFirst(q, n, l.price);
  }

  lemma FirstShown(q: seq<Ord>, side: Side)
    requires OneSide(q, side) && q != []
    ensures var n := RunLength(q); n == CountAt(q, q[0].price) && Total(q[..n]) == VolumeAt(q, q[0].price)
  {
    hide RunLength, Total, CountAt, VolumeAt;
    var n := RunLength(q);
    BehindFirst(q, side);
    AllAt(q[..n], q[0].price);
    NoneAt(q[n..], q[0].price);
    AtAppend(q[..n], q[n..], q[0].price);
    assert q == q[..n] + q[n..];
  }

  lemma NotInFirst(q: seq<Ord>, n: nat, p: Price)
    requires n <= |q| && forall i :: 0 <= i < n ==> q[i].price != p
    ensures CountAt(q, p) == CountAt(q[n..], p) && VolumeAt(q, p) == VolumeAt(q[n..], p)
  {
    NoneAt(q[..n], p);
    AtAppend(q[..n], q[n..], p);
    assert q == q[..n] + q[n..];
  }

  /** The first level is the best price, with all that remains there. */
  lemma BestVolume(q: seq<Ord>, side: Side)
    requires OneSide(q, side)
    ensures Grouped(q) == [] <==> q == []
    ensures q != [] ==> Grouped(q)[0].price == q[0].price
    ensures q != [] ==> Grouped(q)[0].quantity == VolumeAt(q, q[0].price) % 0x1_0000_0000
  {
    hide OneSide, VolumeAt, CountAt;
    DepthExact(q, side);
    assert q != [] ==> Grouped(q)[0].price == q[0].price && Faithful(Grouped(q)[0], q);
  }

  // ---------- From the map to the levels ----------

  /** What one entry of the map shows. */
  ghost function Shown(l: Level): PriceLevel
    reads l.orders
  {
    PriceLevel(l.price, Wrap(Total(Vals(l.orders))), |l.orders|)
  }

  /** The i-th best level of a map. */
  function Best(m: seq<Level>, up: bool, i: nat): Level
    requires i < |m|
  {
    if up then m[i] else m[|m| - 1 - i]
  }

  /** The map without its best level. */
  function Behind(m: seq<Level>, up: bool): seq<Level>
    requires m != []
  {
    if up then m[1..] else Init(m)
  }

  lemma {:induction false} GroupedLevel(l: Level, rest: seq<Order>)
    requires l.orders != [] && AtPrice(l.orders, l.price, false)
    requires forall i :: 0 <= i < |rest| ==> rest[i].price != l.price
    ensures Grouped(Vals(l.orders + rest)) == [Shown(l)] + Grouped(Vals(rest))
  {
    var q, n := Vals(l.orders + rest), |l.orders|;
    assert q[0] == l.orders[0].Val() && KeyOf(l.orders[0], false) == l.price;
    assert forall i :: 0 <= i < n ==> q[i].price == KeyOf(l.orders[i], false);
    assert n < |q| ==> q[n] == rest[0].Val();
    RunIs(q, n);
    assert q[..n] == Vals(l.orders) && q[n..] == Vals(rest);
  }

  lemma RunIs(q: seq<Ord>, n: nat)
    requires 0 < n <= |q| && forall i :: 0 <= i < n ==> q[i].price == q[0].price
    requires n < |q| ==> q[n].price != q[0].price
    ensures RunLength(q) == n
  {
    var k := RunLength(q);
    assert k < |q| ==> q[k].price != q[0].price;
  }

  lemma FlatBest(m: seq<Level>, up: bool)
    requires m != []
    ensures Flat(m, up) == Best(m, up, 0).orders + Flat(Behind(m, up), up)
  {
  }

  lemma BehindWorse(m: seq<Level>, up: bool)
    requires m != [] && Ladder(m, false) && NoEmptyLevel(m)
    ensures Ladder(Behind(m, up), false) && NoEmptyLevel(Behind(m, up))
    ensures Best(m, up, 0).orders != [] && AtPrice(Best(m, up, 0).orders, Best(m, up, 0).price, false)
    ensures forall o :: o in Flat(Behind(m, up), up) ==> o.price != Best(m, up, 0).price
  {
    hide Up, Down;
    DropLevel(m, false);
    if up {
      FlatAbove(Behind(m, up), false, m[0].price);
    } else {
      FlatBelow(Behind(m, up), false, Last(m).price);
    }
  }

  /** The levels of the flat queue are the entries of the map, best first. */
  lemma {:induction false} GroupedFlat(m: seq<Level>, up: bool)
    requires Ladder(m, false) && NoEmptyLevel(m)
    ensures |Grouped(Vals(Flat(m, up)))| == |m|
    ensures forall i :: 0 <= i < |m| ==> Grouped(Vals(Flat(m, up)))[i] == Shown(Best(m, up, i))
    decreases |m|, 1
  {
    if m == [] {
      assert Vals(Flat(m, up)) == [];
    } else {
      GroupedBest(m, up);
    }
  }

  lemma {:induction false} GroupedBest(m: seq<Level>, up: bool)
    requires Ladder(m, false) && NoEmptyLevel(m) && m != []
    ensures |Grouped(Vals(Flat(m, up)))| == |m|
    ensures forall i :: 0 <= i < |m| ==> Grouped(Vals(Flat(m, up)))[i] == Shown(Best(m, up, i))
    decreases |m|, 0
  {
    hide Flat, Ladder, NoEmptyLevel, Grouped, AtPrice, Vals, Shown;
    var rest := Behind(m, up);
    BehindWorse(m, up);
    GroupedFlat(rest, up);
    FlatBest(m, up);
    GroupedLevel(Best(m, up, 0), Flat(rest, up));
    forall i | 0 < i < |m| ensures Best(m, up, i) == Best(rest, up, i - 1) {
    }
  }

  // ---------- Reading the map ----------

  lemma WrapAdds(m: nat, n: nat)
    ensures (Wrap(m) + n) % 0x1_0000_0000 == Wrap(m + n)
    ensures Wrap(m) == m % 0x1_0000_0000 && (m < 0x1_0000_0000 ==> Wrap(m) == m)
  {
  }

  method SumRemaining(orders: seq<Order>) returns (total: Qty)
    ensures total == Wrap(Total(Vals(orders)))
    ensures total == Total(Vals(orders)) % 0x1_0000_0000
    ensures Total(Vals(orders)) < 0x1_0000_0000 ==> total == Total(Vals(orders))
  {
    hide Wrap, Total, Vals;
    total := 0;
    NothingToSum();
    for i := 0 to |orders|
      invariant total == Wrap(Total(Vals(orders[..i])))
    {
      TotalOneMore(orders, i);
      WrapAdds(Total(Vals(orders[..i])), orders[i].remaining);
      total := (total + orders[i].remaining) % 0x1_0000_0000;
    }
    assert orders[..|orders|] == orders;
    WrapAdds(Total(Vals(orders)), 0);
  }

  lemma NothingToSum()
    ensures Wrap(Total(Vals([]))) == 0
  {
  }

  lemma TotalOneMore(orders: seq<Order>, i: nat)
    requires i < |orders|
    ensures Total(Vals(orders[..i + 1])) == Total(Vals(orders[..i])) + orders[i].remaining
  {
    assert Vals(orders[..i + 1]) == Vals(orders[..i]) + [orders[i].Val()];
    TotalAppend(Vals(orders[..i]), [orders[i].Val()]);
  }

  /** What a caller asking for `depth` levels gets: that many, if there are; none below zero. */
  function Visible(q: seq<Ord>, depth: int): seq<PriceLevel> {
    Grouped(q)[..Min(Max(depth, 0), |Grouped(q)|)]
  }

  /** The distinct prices of a queue. */
  ghost function Prices(q: seq<Ord>): set<Price> {
    set o | o in q :: o.price
  }

  /** The prices of `q` better than `p`: higher among bids, lower among asks. */
  ghost function Beating(q: seq<Ord>, p: Price, side: Side): set<Price> {
    set x | x in Prices(q) && (if side.Buy? then p < x else x < p)
  }

  /** What a depth view promises: as many levels as asked for and as there are prices, none below
      zero; the i-th level is the price that exactly i others beat; and it counts the orders at
      its price and adds up what remains of them, as a 32-bit sum. */
  ghost predicate ShowsBest(levels: seq<PriceLevel>, q: seq<Ord>, side: Side, depth: int) {
    && |levels| == (if depth <= 0 then 0 else if depth < |Prices(q)| then depth else |Prices(q)|)
    && forall i :: 0 <= i < |levels| ==>
         && levels[i].price in Prices(q) && |Beating(q, levels[i].price, side)| == i
         && levels[i].orderCount == CountAt(q, levels[i].price)
         && levels[i].quantity == VolumeAt(q, levels[i].price) % 0x1_0000_0000
         && (VolumeAt(q, levels[i].price) < 0x1_0000_0000 ==> levels[i].quantity == VolumeAt(q, levels[i].price))
  }

  lemma {:induction false} DistinctCount(s: seq<Price>)
    requires forall i, j :: 0 <= i < j < |s| ==> s[i] != s[j]
    ensures |set p | p in s| == |s|
  {
    if s != [] {
      var r := s[..|s| - 1];
      DistinctCount(r);
      assert (set p | p in s) == (set p | p in r) + {s[|s| - 1]};
    }
  }

  function PricesShown(levels: seq<PriceLevel>): (ps: seq<Price>)
    ensures |ps| == |levels| && forall i :: 0 <= i < |ps| ==> ps[i] == levels[i].price
  {
    seq(|levels|, i requires 0 <= i < |levels| => levels[i].price)
  }

  lemma PriceIsShown(q: seq<Ord>, o: Ord)
    requires o in q
    ensures o.price in PricesShown(Grouped(q))
  {
    hide Grouped;
    AllPricesShown(q);
    var k :| 0 <= k < |q| && q[k] == o;
    var i :| 0 <= i < |Grouped(q)| && Grouped(q)[i].price == q[k].price;
    assert PricesShown(Grouped(q))[i] == o.price;
  }

  lemma ShownIsPrice(q: seq<Ord>, i: nat)
    requires i < |Grouped(q)|
    ensures Grouped(q)[i].price in Prices(q)
  {
    hide Grouped;
    var l := Grouped(q)[i];
    OnlyPricesShown(q);
    var k :| 0 <= k < |q| && q[k].price == l.price;
    assert q[k] in q;
  }

  lemma PricesAreShown(q: seq<Ord>)
    ensures Prices(q) == set p | p in PricesShown(Grouped(q))
  {
    hide Grouped;
    forall o | o in q ensures o.price in PricesShown(Grouped(q)) {
      PriceIsShown(q, o);
    }
    forall i | 0 <= i < |Grouped(q)| ensures Grouped(q)[i].price in Prices(q) {
      ShownIsPrice(q, i);
    }
  }

  /** The levels of a queue are its prices, and the i-th is beaten by the i before it. */
  lemma GroupedRanks(q: seq<Ord>, side: Side)
    requires OneSide(q, side)
    ensures |Grouped(q)| == |Prices(q)|
    ensures forall i :: 0 <= i < |Grouped(q)| ==>
              Grouped(q)[i].price in Prices(q) && |Beating(q, Grouped(q)[i].price, side)| == i
  {
    hide Grouped, OneSide, Prices;
    var ps := PricesShown(Grouped(q));
    DepthExact(q, side);
    PricesAreShown(q);
    assert forall i, j :: 0 <= i < j < |ps| ==> Better(ps[i], ps[j], side);
    DistinctCount(ps);
    forall i | 0 <= i < |ps| ensures ps[i] in Prices(q) && |Beating(q, ps[i], side)| == i {
      DistinctCount(ps[..i]);
      Firsts(ps, i, side);
      assert Beating(q, ps[i], side) == set p | p in ps[..i];
    }
  }

  /** Among strictly worsening prices, those better than the i-th are the first i. */
  lemma Firsts(ps: seq<Price>, i: nat, side: Side)
    requires i < |ps| && forall j, k :: 0 <= j < k < |ps| ==> Better(ps[j], ps[k], side)
    ensures forall p :: p in ps[..i] <==> p in ps && Better(p, ps[i], side)
  {
    forall j | 0 <= j < |ps| && Better(ps[j], ps[i], side) ensures ps[j] in ps[..i] {
      assert ps[..i][j] == ps[j];
    }
  }

  lemma VisibleIsBest(q: seq<Ord>, side: Side, depth: int)
    requires OneSide(q, side)
    ensures ShowsBest(Visible(q, depth), q, side, depth)
  {
    hide Grouped, OneSide, Prices, Beating, CountAt, VolumeAt;
    GroupedRanks(q, side);
    DepthExact(q, side);
    forall i | 0 <= i < |Visible(q, depth)|
      ensures Faithful(Grouped(q)[i], q) && Visible(q, depth)[i] == Grouped(q)[i]
    {
    }
  }

  method ReadLevel(level: Level) returns (l: PriceLevel)
    ensures l == Shown(level)
  {
    var total := SumRemaining(level.orders);
    l := PriceLevel(level.price, total, |level.orders|);
  }

  /** The best levels of a map, from its high end (`descending`) or its low end. */
  method CalculatePriceLevels(orders: seq<Level>, descending: bool, depth: int) returns (levels: seq<PriceLevel>)
    requires Ladder(orders, false) && NoEmptyLevel(orders)
    ensures levels == Visible(Vals(Flat(orders, !descending)), depth)
  {
    hide Grouped, Flat, Ladder, NoEmptyLevel, Shown;
    GroupedFlat(orders, !descending);
    levels := [];
    if orders == [] {
      return;
    }
    if descending {
      var rit, count := |orders|, 0;
      while rit != 0 && count < depth
        invariant 0 <= rit <= |orders| && count == |orders| - rit && (count <= depth || count == 0)
        invariant |levels| == count && forall i :: 0 <= i < count ==> levels[i] == Shown(Best(orders, false, i))
        decreases rit
      {
        assert orders[rit - 1] == Best(orders, false, count);
        assert forall i :: 0 <= i < |orders| ==> allocated(Best(orders, false, i).orders);
        var level := ReadLevel(orders[rit - 1]);
        levels := levels + [level];
        rit, count := rit - 1, count + 1;
      }
    } else {
      var it, count := 0, 0;
      while it != |orders| && count < depth
        invariant 0 <= it == count <= |orders| && (count <= depth || count == 0)
        invariant |levels| == count && forall i :: 0 <= i < count ==> levels[i] == Shown(Best(orders, true, i))
        decreases |orders| - it
      {
        assert orders[it] == Best(orders, true, count);
        assert forall i :: 0 <= i < |orders| ==> allocated(Best(orders, true, i).orders);
        var level := ReadLevel(orders[it]);
        levels := levels + [level];
        it, count := it + 1, count + 1;
      }
    }
    GroupedFlat(orders, !descending);
    assert |levels| == Min(Max(depth, 0), |orders|);
  }
}
