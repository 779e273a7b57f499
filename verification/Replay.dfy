/** Restoring a book: feeding its live orders, each with its remaining quantity, into an empty
    book rebuilds the same queues without printing a trade. */
module Replay {
  import opened Orders
  import opened Queues
  import opened Matching
  import opened Engine
  import opened Machine
  import opened Tallies
  import opened Safety

  /** A live order as the store hands it back: what was left is its whole quantity, and it counts
      as partially filled when something had been filled. The trigger history starts afresh. */
  function Restored(o: Ord): Ord {
    o.(quantity := o.remaining, stamp := 0, status := if o.remaining < o.quantity then Partial else Pending)
  }

  function RestoredAll(q: seq<Ord>): (r: seq<Ord>)
    ensures |r| == |q| && forall i :: 0 <= i < |q| ==> r[i] == Restored(q[i])
  {
    seq(|q|, i requires 0 <= i < |q| => Restored(q[i]))
  }

  /** Submits the orders of `l` one after the other. */
  ghost function SubmitAll(b: Book, l: seq<Ord>): (r: Book)
    requires Shaped(b) && forall i :: 0 <= i < |l| ==> Submittable(l[i])
    ensures Shaped(r)
  {
    if l == [] then b else Submit(SubmitAll(b, l[..|l| - 1]), l[|l| - 1]).1
  }

  // ---------- Queues and levels ----------

  /** Where an order rests: side, sort of queue, and rank (its price level). */
  datatype Slot = Slot(side: Side, stop: bool, rank: real)

  function SlotOf(o: Ord): Slot {
    Slot(o.side, o.IsStop(), Rank(o))
  }

  /** The orders of `q` that belong to one level, in their order in `q`. */
  function At(q: seq<Ord>, s: Slot): seq<Ord> {
    if q == [] then []
    else At(q[..|q| - 1], s) + if SlotOf(q[|q| - 1]) == s then [q[|q| - 1]] else []
  }

  lemma {:induction false} AtAppend(p: seq<Ord>, q: seq<Ord>, s: Slot)
    ensures At(p + q, s) == At(p, s) + At(q, s)
  {
    if q == [] {
      assert p + q == p;
    } else {
      AtAppend(p, q[..|q| - 1], s);
      assert (p + q)[..|p + q| - 1] == p + q[..|q| - 1];
    }
  }

  lemma {:induction false} AtMembers(q: seq<Ord>, s: Slot)
    ensures forall i :: 0 <= i < |At(q, s)| ==> At(q, s)[i] in q && SlotOf(At(q, s)[i]) == s
    ensures forall i :: 0 <= i < |q| && SlotOf(q[i]) == s ==> q[i] in At(q, s)
  {
    if q != [] { AtMembers(q[..|q| - 1], s); }
  }

  lemma {:induction false} AtNone(q: seq<Ord>, s: Slot)
    requires forall i :: 0 <= i < |q| ==> SlotOf(q[i]) != s
    ensures At(q, s) == []
  {
    if q != [] { AtNone(q[..|q| - 1], s); }
  }

  lemma {:induction false} AtRestored(q: seq<Ord>, s: Slot)
    ensures At(RestoredAll(q), s) == RestoredAll(At(q, s))
  {
    if q != [] {
      AtRestored(q[..|q| - 1], s);
      assert RestoredAll(q)[..|q| - 1] == RestoredAll(q[..|q| - 1]);
    }
  }

  /** Inserting puts an order at the end of its own level and leaves the other levels alone. */
  lemma AtInsert(q: seq<Ord>, o: Ord, s: Slot)
    requires Sorted(q)
    ensures At(Insert(q, o), s) == At(q, s) + if SlotOf(o) == s then [o] else []
  {
    hide At, Sorted;
    var k := Pos(q, Rank(o));
    assert q == q[..k] + q[k..];
    AtAppend(q[..k], q[k..], s);
    AtAppend(q[..k] + [o], q[k..], s);
    AtAppend(q[..k], [o], s);
    AtOne(o, s);
    PosSplits(q, Rank(o));
    if SlotOf(o) == s {
      AtNone(q[k..], s);
    }
  }

  lemma AtOne(o: Ord, s: Slot)
    ensures At([o], s) == if SlotOf(o) == s then [o] else []
  {
    assert [o][..0] == [];
  }

  lemma SameSlot(q: seq<Ord>, x: Ord, side: Side, stop: bool)
    requires Sorted(q) && Held(q, side, stop) && x in q && Rank(q[|q| - 1]) <= Rank(x)
    ensures SlotOf(q[|q| - 1]) == SlotOf(x)
  {
    var i :| 0 <= i < |q| && q[i] == x;
    var y := q[|q| - 1];
    assert Rank(x) <= Rank(y);
    assert x.IsStop() == stop && y.IsStop() == stop;
  }

  /** Queues with the same levels end in the same order. */
  lemma LastAgrees(p: seq<Ord>, q: seq<Ord>, side: Side, stop: bool)
    requires Sorted(q) && Held(q, side, stop)
    requires p != [] && At(p, SlotOf(p[|p| - 1])) == At(q, SlotOf(p[|p| - 1]))
    requires q == [] || Rank(q[|q| - 1]) <= Rank(p[|p| - 1])
    ensures q != [] && q[|q| - 1] == p[|p| - 1]
  {
    var x := p[|p| - 1];
    var level := At(q, SlotOf(x));
    assert level[|level| - 1] == x;
    AtMembers(q, SlotOf(x));
    assert x in q;
    SameSlot(q, x, side, stop);
  }

  /** A sorted queue is determined by its levels. */
  lemma {:induction false} LevelsDetermine(p: seq<Ord>, q: seq<Ord>, side: Side, stop: bool)
    requires Sorted(p) && Held(p, side, stop) && Sorted(q) && Held(q, side, stop)
    requires forall s :: At(p, s) == At(q, s)
    ensures p == q
    decreases |p|
  {
    if p == [] && q == [] {
    } else {
      if q == [] || (p != [] && Rank(q[|q| - 1]) <= Rank(p[|p| - 1])) {
        LastAgrees(p, q, side, stop);
      } else {
        LastAgrees(q, p, side, stop);
      }
      var p', q', x := p[..|p| - 1], q[..|q| - 1], p[|p| - 1];
      forall t ensures At(p', t) == At(q', t) {
        assert At(p, t) == At(q, t);
        if t == SlotOf(x) {
          var n := |At(p, t)| - 1;
          assert At(p', t) == At(p, t)[..n] && At(q', t) == At(q, t)[..n];
        } else {
          assert At(p', t) == At(p, t) && At(q', t) == At(q, t);
        }
      }
      LevelsDetermine(p', q', side, stop);
      assert p == p' + [x] && q == q' + [x];
    }
  }

  // ---------- Restoring ----------

  /** The order in which a store hands back the live orders of `b`: all of them, each level oldest
      first, and the levels interleaved in any way. */
  ghost predicate Interleaves(l: seq<Ord>, b: Book) {
    && multiset(l) == multiset(Resting(b))
    && forall s :: At(l, s) == At(Resting(b), s)
  }

  /** The book holds exactly `l`, restored, level by level, and has printed nothing. */
  ghost predicate Holds(b: Book, l: seq<Ord>) {
    && Shaped(b)
    && b.tape == [] && b.closed == []
    && forall s :: At(Resting(b), s) == At(RestoredAll(l), s)
  }

  lemma RestingAt(b: Book, s: Slot)
    ensures At(Resting(b), s) == At(b.bids, s) + At(b.asks, s) + At(b.stopBuys, s) + At(b.stopSells, s)
  {
    AtAppend(b.bids + b.asks + b.stopBuys, b.stopSells, s);
    AtAppend(b.bids + b.asks, b.stopBuys, s);
    AtAppend(b.bids, b.asks, s);
  }

  function QueueOf(b: Book, side: Side, stop: bool): seq<Ord> {
    if stop then (if side.Buy? then b.stopBuys else b.stopSells) else (if side.Buy? then b.bids else b.asks)
  }

  /** Each level lives in one queue. */
  lemma QueueAt(b: Book, s: Slot)
    requires Shaped(b)
    ensures At(Resting(b), s) == At(QueueOf(b, s.side, s.stop), s)
  {
    hide At, Resting, Held, Sorted;
    RestingAt(b, s);
    OtherSlot(b.bids, Buy, false, s);
    OtherSlot(b.asks, Sell, false, s);
    OtherSlot(b.stopBuys, Buy, true, s);
    OtherSlot(b.stopSells, Sell, true, s);
  }

  lemma OtherSlot(q: seq<Ord>, side: Side, stop: bool, s: Slot)
    requires Held(q, side, stop)
    ensures s.side != side || s.stop != stop ==> At(q, s) == []
  {
    hide At;
    if s.side != side || s.stop != stop { AtNone(q, s); }
  }

  /** The book after taking in `o` where it rests. */
  function WithNew(b: Book, o: Ord): Book {
    if o.IsStop() then WithStop(b, o) else WithResting(b, o)
  }

  lemma QueueOfNew(b: Book, o: Ord, side: Side, stop: bool)
    ensures QueueOf(WithNew(b, o), side, stop)
            == if o.side == side && o.IsStop() == stop then Insert(QueueOf(b, side, stop), o)
               else QueueOf(b, side, stop)
  {
  }

  lemma WithNewAt(b: Book, o: Ord, s: Slot)
    requires Shaped(b) && Shaped(WithNew(b, o))
    ensures At(Resting(WithNew(b, o)), s) == At(Resting(b), s) + if SlotOf(o) == s then [o] else []
  {
    QueueAt(b, s);
    QueueAt(WithNew(b, o), s);
    QueueOfNew(b, o, s.side, s.stop);
    QueueSorted(b, s.side, s.stop);
    AtInsert(QueueOf(b, s.side, s.stop), o, s);
  }

  lemma QueueSorted(b: Book, side: Side, stop: bool)
    requires Shaped(b)
    ensures Sorted(QueueOf(b, side, stop)) && Held(QueueOf(b, side, stop), side, stop)
  {
  }

  // ---------- One restored order after another ----------

  lemma MemberAt(q: seq<Ord>, o: Ord)
    ensures o in q <==> o in At(q, SlotOf(o))
  {
    AtMembers(q, SlotOf(o));
  }

  /** Whatever rests while `l` is being fed in came from `l`. */
  lemma HoldsMembers(b: Book, l: seq<Ord>, o: Ord)
    requires Holds(b, l) && o in Resting(b)
    ensures o in RestoredAll(l)
  {
    MemberAt(Resting(b), o);
    MemberAt(RestoredAll(l), o);
  }

  /** Orders of an uncrossed book, restored, do not trade with one another. */
  lemma NoTrade(good: Book, b: Book, l: seq<Ord>, o: Ord)
    requires Good(good) && Holds(b, l)
    requires forall i :: 0 <= i < |l| ==> l[i] in Resting(good)
    requires o in Resting(good) && !o.IsStop()
    ensures !CanTrade(b, Restored(o).(stamp := |b.tape|))
  {
    var q := Opposite(b, o.side);
    if q != [] {
      HoldsMembers(b, l, q[0]);
      var i :| 0 <= i < |l| && Restored(l[i]) == q[0];
      assert l[i] in Resting(good);
      assert l[i].side != o.side && !l[i].IsStop() && l[i].price == q[0].price;
      if o.side.Buy? {
        assert o in good.bids && l[i] in good.asks;
      } else {
        assert o in good.asks && l[i] in good.bids;
      }
    }
  }

  /** Ids stay distinct while the list is fed in. */
  ghost predicate DistinctIds(l: seq<Ord>) {
    forall i, j :: 0 <= i < j < |l| ==> l[i].id != l[j].id
  }

  lemma NotYet(b: Book, l: seq<Ord>, o: Ord)
    requires Holds(b, l) && DistinctIds(l + [o])
    ensures !HasId(Resting(b), o.id)
  {
    if k :| 0 <= k < |Resting(b)| && Resting(b)[k].id == o.id {
      HoldsMembers(b, l, Resting(b)[k]);
      var i :| 0 <= i < |l| && Restored(l[i]) == Resting(b)[k];
      assert (l + [o])[i].id == (l + [o])[|l|].id;
    }
  }

  lemma HoldsMore(good: Book, b: Book, l: seq<Ord>, o: Ord)
    requires Good(good) && Holds(b, l) && DistinctIds(l + [o])
    requires forall i :: 0 <= i < |l| ==> l[i] in Resting(good)
    requires o in Resting(good)
    ensures Submittable(Restored(o)) && Holds(Submit(b, Restored(o)).1, l + [o])
  {
    RestedLive(good, o);
    NotYet(b, l, o);
    assert Restored(o).(stamp := |b.tape|) == Restored(o);
    if !o.IsStop() { NoTrade(good, b, l, o); }
    NewHolds(b, l, o);
  }

  lemma RestedLive(good: Book, o: Ord)
    requires Shaped(good) && o in Resting(good)
    ensures o.Live() && (o.IsStop() || o.kind.Limit?)
  {
  }

  /** A restored order that cannot trade just joins its queue. */
  lemma NewHolds(b: Book, l: seq<Ord>, o: Ord)
    requires Holds(b, l) && !HasId(Resting(b), o.id) && o.Live() && (o.IsStop() || o.kind.Limit?)
    requires !o.IsStop() ==> !CanTrade(b, Restored(o))
    ensures Holds(Submit(b, Restored(o)).1, l + [o])
  {
    hide Resting, At, RestoredAll, HasId, Cascade, Insert, Held, Sorted;
    var a := Restored(o);
    assert Submit(b, a).1 == WithNew(b, a);
    assert RestoredAll(l + [o])[..|l|] == RestoredAll(l) && RestoredAll(l + [o])[|l|] == a;
    forall s ensures At(Resting(WithNew(b, a)), s) == At(RestoredAll(l + [o]), s) {
      WithNewAt(b, a, s);
      AtAppend(RestoredAll(l), [a], s);
      AtOne(a, s);
      assert RestoredAll(l + [o]) == RestoredAll(l) + [a];
    }
  }

  lemma {:induction false} FeedHolds(good: Book, l: seq<Ord>, n: nat)
    requires Good(good) && DistinctIds(l) && n <= |l|
    requires forall i :: 0 <= i < |l| ==> l[i] in Resting(good)
    ensures forall i :: 0 <= i < n ==> Submittable(RestoredAll(l[..n])[i])
    ensures Holds(SubmitAll(EMPTY_BOOK, RestoredAll(l[..n])), l[..n])
  {
    if n == 0 {
      assert RestoredAll(l[..n]) == [];
      assert Resting(EMPTY_BOOK) == [];
    } else {
      FeedHolds(good, l, n - 1);
      var o := l[n - 1];
      assert l[..n] == l[..n - 1] + [o];
      assert RestoredAll(l[..n])[..n - 1] == RestoredAll(l[..n - 1]);
      assert RestoredAll(l[..n])[n - 1] == Restored(o);
      HoldsMore(good, SubmitAll(EMPTY_BOOK, RestoredAll(l[..n - 1])), l[..n - 1], o);
    }
  }

  // ---------- The rebuilt book ----------

  lemma RestoredKeeps(q: seq<Ord>, side: Side, stop: bool)
    requires Held(q, side, stop) && Sorted(q)
    ensures Held(RestoredAll(q), side, stop) && Sorted(RestoredAll(q))
  {
    forall i | 0 <= i < |q| ensures Rank(RestoredAll(q)[i]) == Rank(q[i]) {
    }
  }

  function RestoredBook(b: Book): Book {
    Book(RestoredAll(b.bids), RestoredAll(b.asks), RestoredAll(b.stopBuys), RestoredAll(b.stopSells), [], [])
  }

  lemma InterleavedDistinct(l: seq<Ord>, b: Book)
    requires Good(b) && multiset(l) == multiset(Resting(b))
    ensures DistinctIds(l)
    ensures forall i :: 0 <= i < |l| ==> l[i] in Resting(b)
  {
    forall i | 0 <= i < |l| ensures l[i] in Resting(b) {
      assert l[i] in multiset(l);
    }
    forall i, j | 0 <= i < j < |l| ensures l[i].id != l[j].id {
      var id := l[i].id;
      assert RestTally(b, HeadsOf(id)) + Tally([], HeadsOf(id)) <= 1;
      RestingTally(b, HeadsOf(id));
      TallyPermuted(l, Resting(b), HeadsOf(id));
      TallyCut(l, j, HeadsOf(id));
      TallyOf(Cut(l, j), id);
      assert Cut(l, j)[i] == l[i];
    }
  }

  lemma CutBag(q: seq<Ord>, k: nat)
    requires k < |q|
    ensures multiset(Cut(q, k)) == multiset(q) - multiset{q[k]}
  {
    assert q == q[..k] + [q[k]] + q[k + 1..];
  }

  lemma {:induction false} TallyPermuted(p: seq<Ord>, q: seq<Ord>, m: Measure)
    requires multiset(p) == multiset(q)
    ensures Tally(p, m) == Tally(q, m)
    decreases |p|
  {
    hide Tally, One;
    if p == [] {
      assert |multiset(q)| == 0;
    } else {
      assert p[0] in multiset(q);
      var k :| 0 <= k < |q| && q[k] == p[0];
      TallyCut(p, 0, m);
      TallyCut(q, k, m);
      CutBag(p, 0);
      CutBag(q, k);
      TallyPermuted(Cut(p, 0), Cut(q, k), m);
    }
  }

  /** Feeding the live orders of a reachable book into an empty one, levels interleaved in any
      way, prints no trade, closes nothing, and rebuilds every queue order for order. */
  lemma ReplayRebuilds(b: Book, l: seq<Ord>)
    requires Good(b) && Interleaves(l, b)
    ensures forall i :: 0 <= i < |l| ==> Submittable(RestoredAll(l)[i])
    ensures SubmitAll(EMPTY_BOOK, RestoredAll(l)) == RestoredBook(b)
  {
    InterleavedDistinct(l, b);
    FeedHolds(b, l, |l|);
    assert l[..|l|] == l;
    var r := SubmitAll(EMPTY_BOOK, RestoredAll(l));
    SameQueue(b, l, r, Buy, false);
    SameQueue(b, l, r, Sell, false);
    SameQueue(b, l, r, Buy, true);
    SameQueue(b, l, r, Sell, true);
  }

  /** The rebuilt order stands for the old one: the same id, side, kind and both prices, what was
      left as its quantity, and partially filled if and only if something had been filled. */
  ghost predicate Revived(a: Ord, o: Ord) {
    && a.id == o.id && a.side == o.side && a.kind == o.kind
    && a.price == o.price && a.stopPrice == o.stopPrice
    && a.quantity == o.remaining && a.remaining == o.remaining
    && a.status == (if o.remaining < o.quantity then Partial else Pending)
  }

  /** Field by field: order by order, the rebuilt queues are the old ones revived. */
  lemma ReplayKeeps(b: Book, l: seq<Ord>, r: Book)
    requires Good(b) && Interleaves(l, b) && forall i :: 0 <= i < |l| ==> Submittable(RestoredAll(l)[i])
    requires r == SubmitAll(EMPTY_BOOK, RestoredAll(l))
    ensures |r.bids| == |b.bids| && forall i :: 0 <= i < |b.bids| ==> Revived(r.bids[i], b.bids[i])
    ensures |r.asks| == |b.asks| && forall i :: 0 <= i < |b.asks| ==> Revived(r.asks[i], b.asks[i])
    ensures |r.stopBuys| == |b.stopBuys|
            && forall i :: 0 <= i < |b.stopBuys| ==> Revived(r.stopBuys[i], b.stopBuys[i])
    ensures |r.stopSells| == |b.stopSells|
            && forall i :: 0 <= i < |b.stopSells| ==> Revived(r.stopSells[i], b.stopSells[i])
    ensures r.tape == [] && r.closed == []
  {
    ReplayRebuilds(b, l);
  }

  lemma SameQueue(b: Book, l: seq<Ord>, r: Book, side: Side, stop: bool)
    requires Shaped(b) && Interleaves(l, b) && Holds(r, l)
    ensures QueueOf(r, side, stop) == RestoredAll(QueueOf(b, side, stop))
  {
    var p, q := QueueOf(r, side, stop), QueueOf(b, side, stop);
    QueueSorted(b, side, stop);
    QueueSorted(r, side, stop);
    RestoredKeeps(q, side, stop);
    forall s ensures At(p, s) == At(RestoredAll(q), s) {
      if s.side == side && s.stop == stop {
        QueueAt(r, s);
        QueueAt(b, s);
        AtRestored(l, s);
        AtRestored(q, s);
        assert At(l, s) == At(Resting(b), s);
      } else {
        AtNone(p, s);
        AtNone(RestoredAll(q), s);
      }
    }
    LevelsDetermine(p, RestoredAll(q), side, stop);
  }
}
