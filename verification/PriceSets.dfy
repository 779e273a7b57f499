/** The ordered set of the prices of some trades. */
module PriceSets {
  import opened Orders
  import opened Engine

  ghost predicate Ascending(ps: seq<Price>) {
    forall i, j :: 0 <= i < j < |ps| ==> ps[i] < ps[j]
  }

  ghost predicate TradedAt(ts: seq<Trade>, p: Price) {
    exists k :: 0 <= k < |ts| && ts[k].price == p
  }

  ghost predicate PricesOf(ps: seq<Price>, ts: seq<Trade>) {
    Ascending(ps) && forall p :: p in ps <==> TradedAt(ts, p)
  }

  /** Insertion into an ordered set. */
  function SetInsert(ps: seq<Price>, p: Price): (r: seq<Price>)
    ensures forall x :: x in r <==> x in ps || x == p
  {
    if ps == [] || p < ps[0] then [p] + ps
    else if p == ps[0] then ps
    else
      var r := SetInsert(ps[1..], p);
      assert forall x :: x in ps <==> x == ps[0] || x in ps[1..];
      [ps[0]] + r
  }

  lemma {:induction false} SetInsertAscending(ps: seq<Price>, p: Price)
    requires Ascending(ps)
    ensures Ascending(SetInsert(ps, p))
  {
    if ps != [] && ps[0] < p {
      SetInsertAscending(ps[1..], p);
      var r := SetInsert(ps[1..], p);
      forall i | 0 <= i < |r| ensures ps[0] < r[i] {
        assert r[i] in r;
        if r[i] in ps[1..] {
          var j :| 0 <= j < |ps[1..]| && ps[1..][j] == r[i];
          assert ps[0] < ps[j + 1];
        }
      }
    }
  }

  lemma TradedAtMore(ts: seq<Trade>, t: Trade, p: Price)
    ensures TradedAt(ts + [t], p) <==> TradedAt(ts, p) || p == t.price
  {
    if TradedAt(ts, p) {
      var k :| 0 <= k < |ts| && ts[k].price == p;
      assert (ts + [t])[k].price == p;
    }
    if p == t.price {
      assert (ts + [t])[|ts|].price == p;
    }
  }

  method CollectPrices(ts: seq<Trade>) returns (ps: seq<Price>)
    ensures PricesOf(ps, ts)
  {
    ps := [];
    for i := 0 to |ts|
      invariant PricesOf(ps, ts[..i])
    {
      SetInsertAscending(ps, ts[i].price);
      assert ts[..i + 1] == ts[..i] + [ts[i]];
      forall p ensures TradedAt(ts[..i + 1], p) <==> TradedAt(ts[..i], p) || p == ts[i].price {
        TradedAtMore(ts[..i], ts[i], p);
      }
      ps := SetInsert(ps, ts[i].price);
    }
    assert ts[..|ts|] == ts;
  }

  lemma Extremes(ps: seq<Price>, ts: seq<Trade>)
    requires PricesOf(ps, ts) && ts != []
    ensures ps != [] && ps[0] == Lowest(ts) && ps[|ps| - 1] == Highest(ts)
  {
    assert TradedAt(ts, Lowest(ts)) && TradedAt(ts, Highest(ts));
    assert Lowest(ts) in ps && Highest(ts) in ps;
    assert ps[0] in ps && ps[|ps| - 1] in ps;
    assert TradedAt(ts, ps[0]) && TradedAt(ts, ps[|ps| - 1]);
  }
}
