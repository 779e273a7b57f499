/** Taking triggered stops out of a book, batch by batch. */
module Batches {
  import opened Orders
  import opened Queues
  import opened Matching
  import opened Engine
  import opened OrderObject
  import opened Registry

  function StopQueue(b: Book, side: Side): seq<Ord> {
    if side.Buy? then b.stopBuys else b.stopSells
  }

  function WithStopQueue(b: Book, side: Side, q: seq<Ord>): Book {
    if side.Buy? then b.(stopBuys := q) else b.(stopSells := q)
  }

  /** Some stops: the objects and their values. */
  datatype Batch = Batch(orders: seq<Order>, vals: seq<Ord>)

  /** The first `n` of the stops `q` left their map and joined those in hand, triggered. */
  ghost predicate Took(side: Side, n: nat, b: Book, q: seq<Order>, hand: Batch,
                       b': Book, q': seq<Order>, hand': Batch)
  {
    && n <= |q| == |StopQueue(b, side)|
    && b' == WithStopQueue(b, side, StopQueue(b, side)[n..])
    && q' == q[n..]
    && hand' == Batch(hand.orders + q[..n], hand.vals + Triggered(StopQueue(b, side)[..n]))
  }

  lemma {:induction false} TookMore(side: Side, m: nat, n: nat, b: Book, q: seq<Order>, hand: Batch,
                                    b': Book, q': seq<Order>, hand': Batch, b'': Book, q'': seq<Order>, hand'': Batch)
    requires Took(side, m, b, q, hand, b', q', hand') && Took(side, n, b', q', hand', b'', q'', hand'')
    ensures Took(side, m + n, b, q, hand, b'', q'', hand'')
  {
    var s, s' := StopQueue(b, side), StopQueue(b', side);
    assert s' == s[m..];
    assert s[m..][n..] == s[m + n..] && q[m..][n..] == q[m + n..];
    assert hand.orders + q[..m] + q'[..n] == hand.orders + q[..m + n];
    assert hand.vals + Triggered(s[..m]) + Triggered(s'[..n]) == hand.vals + Triggered(s[..m + n]);
  }

  lemma TookNone(side: Side, b: Book, q: seq<Order>, hand: Batch)
    requires |q| == |StopQueue(b, side)|
    ensures Took(side, 0, b, q, hand, b, q, hand)
  {
    assert hand.vals + Triggered(StopQueue(b, side)[..0]) == hand.vals;
  }

  /** The first `k` stops rank at or before `r`. */
  ghost predicate AllUpTo(s: seq<Ord>, k: nat, r: real) {
    k <= |s| && forall i :: 0 <= i < k ==> Rank(s[i]) <= r
  }

  lemma UpToMore(side: Side, b: Book, q: seq<Order>, hand: Batch, b': Book, q': seq<Order>, hand': Batch,
                 k: nat, n: nat, r: real)
    requires Took(side, k, b, q, hand, b', q', hand') && AllUpTo(StopQueue(b, side), k, r)
    requires AllUpTo(StopQueue(b', side), n, r)
    ensures AllUpTo(StopQueue(b, side), k + n, r)
  {
    assert forall i :: k <= i < k + n ==> StopQueue(b, side)[i] == StopQueue(b', side)[i - k];
  }

  lemma UpToIsPos(side: Side, b: Book, q: seq<Order>, hand: Batch, b': Book, q': seq<Order>, hand': Batch,
                  k: nat, r: real)
    requires Shaped(b) && Took(side, k, b, q, hand, b', q', hand') && AllUpTo(StopQueue(b, side), k, r)
    requires StopQueue(b', side) == [] || r < Rank(StopQueue(b', side)[0])
    ensures Pos(StopQueue(b, side), r) == k
  {
    PosAtFirst(StopQueue(b, side), r, k);
  }

  lemma TookShaped(side: Side, n: nat, b: Book, q: seq<Order>, hand: Batch, b': Book, q': seq<Order>, hand': Batch)
    requires Took(side, n, b, q, hand, b', q', hand') && Shaped(b)
    ensures Shaped(b') && AsSet(q') <= AsSet(q)
  {
    DropKeeps(StopQueue(b, side), n, side, true);
  }

  /** One more level. */
  lemma TookStep(side: Side, k: nat, n: nat, r: real, b: Book, q: seq<Order>, hand: Batch, b': Book, q': seq<Order>,
                 hand': Batch, b'': Book, q'': seq<Order>, hand'': Batch)
    requires Took(side, k, b, q, hand, b', q', hand') && Took(side, n, b', q', hand', b'', q'', hand'')
    requires AllUpTo(StopQueue(b, side), k, r) && AllUpTo(StopQueue(b', side), n, r) && Shaped(b')
    ensures Took(side, k + n, b, q, hand, b'', q'', hand'')
    ensures AllUpTo(StopQueue(b, side), k + n, r) && Shaped(b'') && AsSet(q'') <= AsSet(q')
  {
    TookShaped(side, n, b', q', hand', b'', q'', hand'');
    UpToMore(side, b, q, hand, b', q', hand', k, n, r);
    TookMore(side, k, n, b, q, hand, b', q', hand', b'', q'', hand'');
  }

  lemma TookSets(side: Side, n: nat, b: Book, q: seq<Order>, hand: Batch, b': Book, q': seq<Order>, hand': Batch)
    requires Took(side, n, b, q, hand, b', q', hand')
    ensures AsSet(hand'.orders) <= AsSet(hand.orders) + AsSet(q)
  {
  }

  // ---------- One round, price by price ----------

  /** The first price of a round. */
  lemma FirstPrice(p: Price, b: Book, qb: seq<Order>, qs: seq<Order>, b': Book, qb': seq<Order>, h': Batch,
                   b'': Book, qs'': seq<Order>, h'': Batch)
    requires Took(Buy, Pos(b.stopBuys, p), b, qb, Batch([], []), b', qb', h')
    requires Took(Sell, Pos(b'.stopSells, -p), b', qs, h', b'', qs'', h'')
    ensures b'' == WithoutReached(b, p, p) && h''.vals == Triggered(Reached(b, p, p))
  {
    var k, m := Pos(b.stopBuys, p), Pos(b.stopSells, -p);
    assert Reached(b, p, p) == b.stopBuys[..k] + b.stopSells[..m];
    assert h''.vals == Triggered(b.stopBuys[..k]) + Triggered(b.stopSells[..m]);
  }

  lemma PosShift(q: seq<Ord>, r: real, r': real)
    requires Sorted(q) && r <= r'
    ensures Pos(q, r) <= Pos(q, r') && Pos(q[Pos(q, r)..], r') == Pos(q, r') - Pos(q, r)
  {
    PosMonotone(q, r, r');
    PosSplits(q, r');
    PosUnique(q[Pos(q, r)..], r', Pos(q, r') - Pos(q, r));
  }

  lemma PosNone(q: seq<Ord>, r: real, r': real)
    requires Sorted(q) && r' <= r
    ensures Pos(q[Pos(q, r)..], r') == 0
  {
    PosSplits(q, r);
    PosUnique(q[Pos(q, r)..], r', 0);
  }

  lemma NoMoreSells(b: Book, lo: Price, hi: Price, p: Price)
    requires Sorted(b.stopSells) && lo <= p
    ensures Pos(WithoutReached(b, lo, hi).stopSells, -p) == 0
  {
    PosNone(b.stopSells, -lo, -p);
  }

  /** Raising the highest price of a round reaches more buys, behind those already reached. */
  lemma ReachedMore(b: Book, lo: Price, hi: Price, p: Price)
    requires Sorted(b.stopBuys) && lo <= hi <= p
    ensures var q := WithoutReached(b, lo, hi).stopBuys;
            Reached(b, lo, p) == Reached(b, lo, hi) + q[..Pos(q, p)]
  {
    PosShift(b.stopBuys, hi, p);
    PosShift(b.stopBuys, lo, hi);
    var i, j, k := Pos(b.stopBuys, lo), Pos(b.stopBuys, hi), Pos(b.stopBuys, p);
    SliceAfter(b.stopBuys[..i] + b.stopSells[..Pos(b.stopSells, -lo)], b.stopBuys, i, j, k);
  }

  lemma SliceAfter(head: seq<Ord>, q: seq<Ord>, i: nat, j: nat, k: nat)
    requires i <= j <= k <= |q|
    ensures head + q[i..k] == head + q[i..j] + q[j..][..k - j]
  {
  }

  lemma WithoutReachedMore(b: Book, lo: Price, hi: Price, p: Price)
    requires Sorted(b.stopBuys) && lo <= hi <= p
    ensures var b1 := WithoutReached(b, lo, hi);
            WithoutReached(b, lo, p) == b1.(stopBuys := b1.stopBuys[Pos(b1.stopBuys, p)..])
  {
    PosShift(b.stopBuys, hi, p);
    SliceMore(b.stopBuys, 0, Pos(b.stopBuys, hi), Pos(b.stopBuys, p));
  }

  lemma SliceMore(q: seq<Ord>, i: nat, j: nat, k: nat)
    requires i <= j <= k <= |q|
    ensures q[i..k] == q[i..j] + q[j..][..k - j] && q[j..][k - j..] == q[k..]
  {
  }

  lemma TriggeredAppend(q: seq<Ord>, q': seq<Ord>)
    ensures Triggered(q + q') == Triggered(q) + Triggered(q')
  {
  }

  /** A later, higher price of a round reaches more buys and no further sells. */
  lemma NextPrice(lo: Price, hi: Price, p: Price, b: Book, b1: Book, qb: seq<Order>, qs: seq<Order>, h1: Batch,
                  b2: Book, qb2: seq<Order>, h2: Batch, b3: Book, qs3: seq<Order>, h3: Batch)
    requires Shaped(b) && lo <= hi <= p
    requires b1 == WithoutReached(b, lo, hi) && h1.vals == Triggered(Reached(b, lo, hi))
    requires Took(Buy, Pos(b1.stopBuys, p), b1, qb, h1, b2, qb2, h2)
    requires Took(Sell, Pos(b2.stopSells, -p), b2, qs, h2, b3, qs3, h3)
    ensures b3 == WithoutReached(b, lo, p) && h3.vals == Triggered(Reached(b, lo, p))
  {
    ReachedMore(b, lo, hi, p);
    WithoutReachedMore(b, lo, hi, p);
    NoMoreSells(b, lo, hi, p);
    TriggeredAppend(Reached(b, lo, hi), b1.stopBuys[..Pos(b1.stopBuys, p)]);
    assert Triggered(b2.stopSells[..0]) == [];
  }
}
