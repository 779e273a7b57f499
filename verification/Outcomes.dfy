/** What the engine's steps do, field by field: which submissions are taken, where an order ends up,
    what a trade prints, and in which order stops fire. */
module Outcomes {
  import opened Orders
  import opened Queues
  import opened Matching
  import opened Engine
  import opened Machine
  import opened Priority

  // ---------- Submitting ----------

  /** A submission is taken exactly if something is left to fill and no resting order has its id; a
      refused one changes nothing. */
  lemma SubmitAnswers(b: Book, o: Ord)
    requires Shaped(b) && Submittable(o)
    ensures Submit(b, o).0
            <==> o.remaining > 0 && (forall p :: p in b.bids + b.asks + b.stopBuys + b.stopSells ==> p.id != o.id)
    ensures !Submit(b, o).0 ==> Submit(b, o).1 == b
  {
    var all := b.bids + b.asks + b.stopBuys + b.stopSells;
    if i :| 0 <= i < |all| && all[i].id == o.id {
      assert all[i] in all;
    }
  }

  /** The queue `q` with `o` put in behind its first `k` orders. */
  predicate PutAt(q: seq<Ord>, k: nat, o: Ord, q': seq<Ord>) {
    k <= |q| && q' == q[..k] + [o] + q[k..]
  }

  /** A stop waits, whatever has traded before: behind every stop of its side that the market would
      reach no later, before all others. Nothing else changes. */
  lemma StopWaits(b: Book, o: Ord)
    requires Shaped(b) && Submittable(o) && Submit(b, o).0 && (o.kind == Stop || o.kind == StopLimit)
    ensures var (b', a) := (Submit(b, o).1, o.(stamp := |b.tape|));
            && b'.bids == b.bids && b'.asks == b.asks && b'.closed == b.closed && b'.tape == b.tape
            && (o.side == Buy ==>
                  && b'.stopSells == b.stopSells
                  && exists k: nat :: PutAt(b.stopBuys, k, a, b'.stopBuys)
                       && (forall i :: 0 <= i < k ==> b.stopBuys[i].stopPrice <= o.stopPrice)
                       && (forall i :: k <= i < |b.stopBuys| ==> o.stopPrice < b.stopBuys[i].stopPrice))
            && (o.side == Sell ==>
                  && b'.stopBuys == b.stopBuys
                  && exists k: nat :: PutAt(b.stopSells, k, a, b'.stopSells)
                       && (forall i :: 0 <= i < k ==> o.stopPrice <= b.stopSells[i].stopPrice)
                       && (forall i :: k <= i < |b.stopSells| ==> b.stopSells[i].stopPrice < o.stopPrice))
  {
    hide Sorted, Held, Process, Resting;
    var a := o.(stamp := |b.tape|);
    CutsMeanPrices(b, o.stopPrice);
    if o.side == Buy {
      assert PutAt(b.stopBuys, Pos(b.stopBuys, Rank(a)), a, Submit(b, o).1.stopBuys);
    } else {
      assert PutAt(b.stopSells, Pos(b.stopSells, Rank(a)), a, Submit(b, o).1.stopSells);
    }
  }

  // ---------- Settling ----------

  /** After matching, a limit remainder rests with all it has left, behind every order at its own or a
      better price and before all others; a market remainder is canceled with all it has left; an
      order without a remainder is gone, filled. */
  lemma SettleEnds(b: Book, inc: Ord)
    requires Shaped(b) && inc.InHand()
    ensures var ((b', x), r) := (Cross(b, inc), Settle(b, inc));
            && (x.remaining == 0 ==> x.status == Filled && r == b'.(closed := b'.closed + [x]))
            && (x.remaining > 0 && x.kind == Market ==> r == b'.(closed := b'.closed + [x.(status := Canceled)]))
            && (x.remaining > 0 && x.kind == Limit && x.side == Buy ==>
                  && r == b'.(bids := r.bids)
                  && exists k: nat :: PutAt(b'.bids, k, x, r.bids)
                       && (forall i :: 0 <= i < k ==> x.price <= b'.bids[i].price)
                       && (forall i :: k <= i < |b'.bids| ==> b'.bids[i].price < x.price))
            && (x.remaining > 0 && x.kind == Limit && x.side == Sell ==>
                  && r == b'.(asks := r.asks)
                  && exists k: nat :: PutAt(b'.asks, k, x, r.asks)
                       && (forall i :: 0 <= i < k ==> b'.asks[i].price <= x.price)
                       && (forall i :: k <= i < |b'.asks| ==> x.price < b'.asks[i].price))
  {
    var (b', x) := Cross(b, inc);
    var r := Settle(b, inc);
    hide Cross;
    PosSplits(b'.bids, Rank(x));
    PosSplits(b'.asks, Rank(x));
    if x.remaining > 0 && x.kind == Limit {
      if x.side == Buy {
        assert PutAt(b'.bids, Pos(b'.bids, Rank(x)), x, r.bids);
      } else {
        assert PutAt(b'.asks, Pos(b'.asks, Rank(x)), x, r.asks);
      }
    }
  }

  /** Orders in hand are settled in turn, each against what those before it left. */
  lemma {:induction false} SettledInTurn(b: Book, hand: seq<Ord>, more: seq<Ord>)
    requires Shaped(b) && Ready(hand) && Ready(more)
    ensures Ready(hand + more) && SettleAll(b, hand + more) == SettleAll(SettleAll(b, hand), more)
    ensures SettleAll(b, []) == b && forall o: Ord :: o.InHand() ==> Ready([o]) && SettleAll(b, [o]) == Settle(b, o)
    decreases |hand|
  {
    hide Settle;
    if hand == [] {
      assert hand + more == more;
    } else {
      SettledInTurn(Settle(b, hand[0]), hand[1..], more);
      assert (hand + more)[1..] == hand[1..] + more;
    }
    forall o: Ord | o.InHand() ensures Ready([o]) && SettleAll(b, [o]) == Settle(b, o) {
      assert [o][1..] == [];
      assert SettleAll(Settle(b, o), []) == Settle(b, o);
    }
  }

  // ---------- Trading ----------

  /** Whenever the engine prints a trade, in a cascade or not, it is between the order in hand and the
      first order on the other side, each on its own side, at the resting order's price, inside both
      limits, and for the smaller of what the two have left, which both then have less. */
  lemma EveryTrade(s: Sys)
    requires Fit(s) && !Idle(s) && Next(s).book.tape != s.book.tape
    ensures s.hand != [] && (if s.hand[0].side == Buy then s.book.asks else s.book.bids) != []
    ensures var x := s.hand[0];
            var y := (if x.side == Buy then s.book.asks else s.book.bids)[0];
            var n := if x.remaining <= y.remaining then x.remaining else y.remaining;
            && n > 0
            && Next(s).book.tape == s.book.tape + [if x.side == Buy then Trade(x.id, y.id, y.price, n)
                                                   else Trade(y.id, x.id, y.price, n)]
            && (x.kind == Limit ==> if x.side == Buy then y.price <= x.price else x.price <= y.price)
            && Next(s).hand != [] && Next(s).hand[0].remaining == x.remaining - n
            && (n < y.remaining ==>
                  (if x.side == Buy then Next(s).book.asks else Next(s).book.bids) != []
                  && (if x.side == Buy then Next(s).book.asks else Next(s).book.bids)[0].remaining == y.remaining - n)
  {
    if s.hand == [] {
      FireKeeps(s.book, s.seen);
    } else {
      assert s.hand[0].InHand();
      if CanTrade(s.book, s.hand[0]) {
        TradeStepKeeps(s.book, s.hand[0]);
      }
    }
  }

  // ---------- Triggering ----------

  ghost predicate Extremes(ts: seq<Trade>, from: nat, lo: Price, hi: Price) {
    && (forall k :: from <= k < |ts| ==> lo <= ts[k].price <= hi)
    && (exists k :: from <= k < |ts| && ts[k].price == lo)
    && (exists k :: from <= k < |ts| && ts[k].price == hi)
  }

  /** A stop once triggered. */
  function Woken(p: Ord): Ord {
    p.(kind := if p.kind == Stop then Market else Limit)
  }

  /** The k-th stop to wake up, if the first `i` buy stops do, then the first `m` sell stops, then
      further buy stops up to `j`. */
  function Waker(b: Book, i: nat, j: nat, m: nat, k: nat): Ord
    requires i <= j <= |b.stopBuys| && m <= |b.stopSells| && k < j + m
  {
    if k < i then b.stopBuys[k] else if k < i + m then b.stopSells[k - i] else b.stopBuys[k - m]
  }

  predicate WakesInOrder(b: Book, i: nat, j: nat, m: nat, hand: seq<Ord>) {
    && i <= j <= |b.stopBuys| && m <= |b.stopSells| && |hand| == j + m
    && forall k :: 0 <= k < |hand| ==> hand[k] == Woken(Waker(b, i, j, m, k))
  }

  lemma ExtremesFound(ts: seq<Trade>, from: nat, lo: Price, hi: Price)
    requires from < |ts| && Extremes(ts, from, lo, hi)
    ensures Lowest(ts[from..]) == lo && Highest(ts[from..]) == hi
  {
    var recent := ts[from..];
    var k :| from <= k < |ts| && ts[k].price == lo;
    var j :| from <= j < |ts| && ts[j].price == hi;
    assert recent[k - from].price == lo && recent[j - from].price == hi;
  }

  /** A round of triggering, between the lowest and the highest price since `from`: first the buy stops
      at or below the lowest price, then the sell stops at or above it, then the buy stops at or below
      the highest; each group as its queue stands. Exactly these leave their queues. */
  lemma FiresInOrder(b: Book, from: nat, lo: Price, hi: Price)
    requires Shaped(b) && from < |b.tape| && Extremes(b.tape, from, lo, hi)
    ensures var (b', hand) := Fire(b, from);
            exists i: nat, j: nat, m: nat ::
              && WakesInOrder(b, i, j, m, hand)
              && b' == b.(stopBuys := b.stopBuys[j..], stopSells := b.stopSells[m..])
              && (forall k :: 0 <= k < |b.stopBuys| ==> (k < i <==> b.stopBuys[k].stopPrice <= lo))
              && (forall k :: 0 <= k < |b.stopBuys| ==> (k < j <==> b.stopBuys[k].stopPrice <= hi))
              && (forall k :: 0 <= k < |b.stopSells| ==> (k < m <==> lo <= b.stopSells[k].stopPrice))
  {
    ExtremesFound(b.tape, from, lo, hi);
    CutsMeanPrices(b, lo);
    CutsMeanPrices(b, hi);
    var i, j, m := Pos(b.stopBuys, lo), Pos(b.stopBuys, hi), Pos(b.stopSells, -lo);
    PosMonotone(b.stopBuys, lo, hi);
    ReachedInOrder(b, lo, hi);
    assert WakesInOrder(b, i, j, m, Fire(b, from).1);
  }

  lemma FiresBetween(b: Book, from: nat)
    requires Shaped(b) && from < |b.tape|
    ensures var b' := Fire(b, from).0;
            b'.bids == b.bids && b'.asks == b.asks && b'.closed == b.closed && b'.tape == b.tape
    ensures forall lo, hi :: Extremes(b.tape, from, lo, hi) ==>
              exists i: nat, j: nat, m: nat ::
                && WakesInOrder(b, i, j, m, Fire(b, from).1)
                && (forall k :: 0 <= k < |b.stopBuys| ==> (k < i <==> b.stopBuys[k].stopPrice <= lo))
                && (forall k :: 0 <= k < |b.stopBuys| ==> (k < j <==> b.stopBuys[k].stopPrice <= hi))
                && (forall k :: 0 <= k < |b.stopSells| ==> (k < m <==> lo <= b.stopSells[k].stopPrice))
  {
    hide WakesInOrder, Extremes, Reached;
    forall lo, hi | Extremes(b.tape, from, lo, hi)
      ensures exists i: nat, j: nat, m: nat ::
                && WakesInOrder(b, i, j, m, Fire(b, from).1)
                && (forall k :: 0 <= k < |b.stopBuys| ==> (k < i <==> b.stopBuys[k].stopPrice <= lo))
                && (forall k :: 0 <= k < |b.stopBuys| ==> (k < j <==> b.stopBuys[k].stopPrice <= hi))
                && (forall k :: 0 <= k < |b.stopSells| ==> (k < m <==> lo <= b.stopSells[k].stopPrice))
    {
      FiresInOrder(b, from, lo, hi);
    }
  }

  /** Rounds do not mix. While orders are in hand no stop fires: the first one trades once more or is
      done, and the others wait unchanged. Only when all are done are the stops checked, once, against
      every trade since the last check, and the book's two sides stay as they are. */
  lemma RoundsApart(s: Sys)
    requires Fit(s) && !Idle(s)
    ensures s.hand != [] ==>
              && Next(s).book.stopBuys == s.book.stopBuys && Next(s).book.stopSells == s.book.stopSells
              && Next(s).seen == s.seen
              && if |Next(s).book.tape| > |s.book.tape| then
                   |Next(s).hand| == |s.hand| && Next(s).hand[1..] == s.hand[1..]
                 else
                   Next(s).hand == s.hand[1..]
    ensures s.hand == [] ==>
              && s.seen < |s.book.tape| && Next(s).seen == |s.book.tape|
              && Next(s).book.bids == s.book.bids && Next(s).book.asks == s.book.asks
              && Next(s).book.closed == s.book.closed && Next(s).book.tape == s.book.tape
              && forall lo, hi :: Extremes(s.book.tape, s.seen, lo, hi) ==>
                   exists i: nat, j: nat, m: nat ::
                     && WakesInOrder(s.book, i, j, m, Next(s).hand)
                     && (forall k :: 0 <= k < |s.book.stopBuys| ==> (k < i <==> s.book.stopBuys[k].stopPrice <= lo))
                     && (forall k :: 0 <= k < |s.book.stopBuys| ==> (k < j <==> s.book.stopBuys[k].stopPrice <= hi))
                     && (forall k :: 0 <= k < |s.book.stopSells| ==> (k < m <==> lo <= s.book.stopSells[k].stopPrice))
  {
    hide Fire, WakesInOrder, Extremes, Sorted, Held;
    if s.hand == [] {
      FiresBetween(s.book, s.seen);
    } else {
      assert ([s.hand[0]] + s.hand[1..])[1..] == s.hand[1..];
    }
  }

  lemma CutsMeanPrices(b: Book, p: Price)
    requires Shaped(b)
    ensures forall k :: 0 <= k < |b.stopBuys| ==> (k < Pos(b.stopBuys, p) <==> b.stopBuys[k].stopPrice <= p)
    ensures forall k :: 0 <= k < |b.stopSells| ==> (k < Pos(b.stopSells, -p) <==> p <= b.stopSells[k].stopPrice)
  {
    PosSplits(b.stopBuys, p);
    PosSplits(b.stopSells, -p);
  }

  lemma InThree(p: seq<Ord>, q: seq<Ord>, r: seq<Ord>, k: nat)
    requires k < |p| + |q| + |r|
    ensures (p + q + r)[k]
            == if k < |p| then p[k] else if k < |p| + |q| then q[k - |p|] else r[k - |p| - |q|]
  {
  }

  lemma ReachedAt(b: Book, lo: Price, hi: Price, k: nat)
    requires lo <= hi
    ensures var (i, j, m) := (Pos(b.stopBuys, lo), Pos(b.stopBuys, hi), Pos(b.stopSells, -lo));
            && i <= j && |Reached(b, lo, hi)| == j + m
            && (k < j + m ==> Reached(b, lo, hi)[k] == Waker(b, i, j, m, k))
  {
    hide Pos;
    PosMonotone(b.stopBuys, lo, hi);
    var (i, j, m) := (Pos(b.stopBuys, lo), Pos(b.stopBuys, hi), Pos(b.stopSells, -lo));
    CutsFit(b.stopBuys, lo);
    CutsFit(b.stopBuys, hi);
    CutsFit(b.stopSells, -lo);
    if k < j + m { InThree(b.stopBuys[..i], b.stopSells[..m], b.stopBuys[i..j], k); }
  }

  lemma CutsFit(q: seq<Ord>, r: real)
    ensures Pos(q, r) <= |q|
  {
  }

  lemma ReachedInOrder(b: Book, lo: Price, hi: Price)
    requires Shaped(b) && lo <= hi
    ensures WakesInOrder(b, Pos(b.stopBuys, lo), Pos(b.stopBuys, hi), Pos(b.stopSells, -lo),
                         Triggered(Reached(b, lo, hi)))
  {
    hide Reached, Shaped, Waker;
    var i, j, m := Pos(b.stopBuys, lo), Pos(b.stopBuys, hi), Pos(b.stopSells, -lo);
    var r := Reached(b, lo, hi);
    ReachedLive(b, lo, hi);
    ReachedAt(b, lo, hi, 0);
    forall k | 0 <= k < |r| ensures Triggered(r)[k] == Woken(Waker(b, i, j, m, k)) {
      ReachedAt(b, lo, hi, k);
      assert r[k].IsStop();
    }
  }
}
