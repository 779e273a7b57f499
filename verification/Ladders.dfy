/** An ordered map from prices to queues of orders, as the sequence of its entries in ascending
    price order, and the flat queue it stands for. */
module Ladders {
  import opened Orders
  import opened Queues
  import opened OrderObject

  datatype Level = Level(price: Price, orders: seq<Order>)

  function KeyOf(o: Order, stop: bool): Price {
    if stop then o.stopPrice else o.price
  }

  /** Prices ascend strictly, and every order stands at its own price (or stop price). */
  ghost predicate Ladder(m: seq<Level>, stop: bool) {
    && (forall i, j :: 0 <= i < j < |m| ==> m[i].price < m[j].price)
    && (forall i :: 0 <= i < |m| ==> AtPrice(m[i].orders, m[i].price, stop))
  }

  ghost predicate AtPrice(q: seq<Order>, p: Price, stop: bool) {
    forall j :: 0 <= j < |q| ==> KeyOf(q[j], stop) == p
  }

  ghost predicate NoEmptyLevel(m: seq<Level>) {
    forall i :: 0 <= i < |m| ==> m[i].orders != []
  }

  function Last(m: seq<Level>): Level
    requires m != []
  {
    m[|m| - 1]
  }

  function Init(m: seq<Level>): seq<Level>
    requires m != []
  {
    m[..|m| - 1]
  }

  /** All orders, lowest price first. */
  function Up(m: seq<Level>): seq<Order> {
    if m == [] then [] else m[0].orders + Up(m[1..])
  }

  /** All orders, highest price first; within a price still oldest first. */
  function Down(m: seq<Level>): seq<Order> {
    if m == [] then [] else Last(m).orders + Down(Init(m))
  }

  function Flat(m: seq<Level>, up: bool): seq<Order> {
    if up then Up(m) else Down(m)
  }

  // ---------- Map operations ----------

  /** The position of the first entry priced at or above `p`. */
  function LowerBound(m: seq<Level>, p: Price): (k: nat)
    ensures k <= |m|
    ensures forall i :: 0 <= i < k ==> m[i].price < p
    ensures k < |m| ==> p <= m[k].price
  {
    if m == [] || p <= m[0].price then 0 else 1 + LowerBound(m[1..], p)
  }

  predicate HasPrice(m: seq<Level>, p: Price) {
    LowerBound(m, p) < |m| && m[LowerBound(m, p)].price == p
  }

  function Lower(m: seq<Level>, p: Price): seq<Level> {
    m[..LowerBound(m, p)]
  }

  function Same(m: seq<Level>, p: Price): seq<Order> {
    if HasPrice(m, p) then m[LowerBound(m, p)].orders else []
  }

  function Higher(m: seq<Level>, p: Price): seq<Level> {
    m[LowerBound(m, p) + (if HasPrice(m, p) then 1 else 0)..]
  }

  /** The entry at this price replaced, or made if there is none. */
  function WithLevel(m: seq<Level>, p: Price, q: seq<Order>): seq<Level> {
    Lower(m, p) + [Level(p, q)] + Higher(m, p)
  }

  /** Appends to the queue at this price, making the level if there is none. */
  function PushBack(m: seq<Level>, p: Price, o: Order): seq<Level> {
    WithLevel(m, p, Same(m, p) + [o])
  }

  lemma {:induction false} LowerBoundAt(m: seq<Level>, stop: bool, k: nat)
    requires Ladder(m, stop) && k < |m|
    ensures LowerBound(m, m[k].price) == k
  {
    var j := LowerBound(m, m[k].price);
    assert j < |m| ==> m[k].price <= m[j].price;
  }

  // ---------- Flattening ----------

  lemma UpHead(l: Level, m: seq<Level>)
    ensures Up([l] + m) == l.orders + Up(m) && Up([]) == []
  {
    assert ([l] + m)[1..] == m;
  }

  lemma {:induction false} UpAppend(m: seq<Level>, n: seq<Level>)
    ensures Up(m + n) == Up(m) + Up(n)
  {
    hide Up;
    if m == [] {
      assert m + n == n;
      UpHead(Level(0.0, []), []);
    } else {
      UpAppend(m[1..], n);
      UpHead(m[0], m[1..]);
      UpHead(m[0], m[1..] + n);
      assert m == [m[0]] + m[1..] && m + n == [m[0]] + (m[1..] + n);
    }
  }

  lemma DownLast(l: Level, m: seq<Level>)
    ensures Down(m + [l]) == l.orders + Down(m) && Down([]) == []
  {
    assert Init(m + [l]) == m;
  }

  lemma {:induction false} DownAppend(m: seq<Level>, n: seq<Level>)
    ensures Down(m + n) == Down(n) + Down(m)
  {
    hide Down;
    if n == [] {
      assert m + n == m;
      DownLast(Level(0.0, []), []);
    } else {
      DownAppend(m, Init(n));
      DownLast(Last(n), Init(n));
      DownLast(Last(n), m + Init(n));
      assert n == Init(n) + [Last(n)] && m + n == (m + Init(n)) + [Last(n)];
    }
  }

  lemma OneLevel(l: Level)
    ensures Up([l]) == l.orders && Down([l]) == l.orders
  {
    assert [l][..0] == [] && [l][1..] == [];
  }

  /** The flat queue around one level: what is served before it, the level, what comes after. */
  lemma FlatAround(m: seq<Level>, k: nat, up: bool)
    requires k < |m|
    ensures Flat(m, up)
            == if up then Up(m[..k]) + m[k].orders + Up(m[k + 1..])
               else Down(m[k + 1..]) + m[k].orders + Down(m[..k])
  {
    assert m == m[..k] + ([m[k]] + m[k + 1..]);
    OneLevel(m[k]);
    if up {
      UpAppend(m[..k], [m[k]] + m[k + 1..]);
      UpAppend([m[k]], m[k + 1..]);
    } else {
      DownAppend(m[..k], [m[k]] + m[k + 1..]);
      DownAppend([m[k]], m[k + 1..]);
    }
  }

  ghost predicate KeysBelow(q: seq<Order>, stop: bool, p: Price) {
    forall i :: 0 <= i < |q| ==> KeyOf(q[i], stop) < p
  }

  ghost predicate KeysAbove(q: seq<Order>, stop: bool, p: Price) {
    forall i :: 0 <= i < |q| ==> p < KeyOf(q[i], stop)
  }

  lemma {:induction false} FlatBelow(m: seq<Level>, stop: bool, p: Price)
    requires Ladder(m, stop) && forall i :: 0 <= i < |m| ==> m[i].price < p
    ensures KeysBelow(Up(m), stop, p) && KeysBelow(Down(m), stop, p)
  {
    if m != [] {
      FlatBelow(m[1..], stop, p);
      FlatBelow(Init(m), stop, p);
      assert AtPrice(m[0].orders, m[0].price, stop);
      assert AtPrice(Last(m).orders, Last(m).price, stop);
    }
  }

  lemma {:induction false} FlatAbove(m: seq<Level>, stop: bool, p: Price)
    requires Ladder(m, stop) && forall i :: 0 <= i < |m| ==> p < m[i].price
    ensures KeysAbove(Up(m), stop, p) && KeysAbove(Down(m), stop, p)
  {
    if m != [] {
      FlatAbove(m[1..], stop, p);
      FlatAbove(Init(m), stop, p);
      assert AtPrice(m[0].orders, m[0].price, stop);
      assert AtPrice(Last(m).orders, Last(m).price, stop);
    }
  }

  // ---------- Around one price ----------

  /** A ladder as the levels below a price, the level at it, and the levels above it. */
  lemma Around(m: seq<Level>, p: Price, up: bool)
    ensures Flat(m, up) == if up then Up(Lower(m, p)) + Same(m, p) + Up(Higher(m, p))
                           else Down(Higher(m, p)) + Same(m, p) + Down(Lower(m, p))
  {
    hide Up, Down;
    var k := LowerBound(m, p);
    if HasPrice(m, p) {
      FlatAround(m, k, up);
    } else {
      assert m == m[..k] + m[k..];
      UpAppend(m[..k], m[k..]);
      DownAppend(m[..k], m[k..]);
    }
  }

  lemma AroundKeys(m: seq<Level>, p: Price, stop: bool)
    requires Ladder(m, stop)
    ensures KeysBelow(Up(Lower(m, p)), stop, p) && KeysBelow(Down(Lower(m, p)), stop, p)
    ensures KeysAbove(Up(Higher(m, p)), stop, p) && KeysAbove(Down(Higher(m, p)), stop, p)
    ensures AtPrice(Same(m, p), p, stop)
  {
    FlatBelow(Lower(m, p), stop, p);
    HigherPrices(m, p, stop);
    FlatAbove(Higher(m, p), stop, p);
  }

  lemma HigherPrices(m: seq<Level>, p: Price, stop: bool)
    requires Ladder(m, stop)
    ensures Ladder(Higher(m, p), stop)
    ensures forall i :: 0 <= i < |Higher(m, p)| ==> p < Higher(m, p)[i].price
  {
    var k := LowerBound(m, p);
    var d := if HasPrice(m, p) then 1 else 0;
    forall i | k + d <= i < |m| ensures p < m[i].price {
      if k < i { assert m[k].price < m[i].price; }
    }
  }

  lemma WithLevelLadder(m: seq<Level>, p: Price, q: seq<Order>, stop: bool)
    requires Ladder(m, stop) && AtPrice(q, p, stop)
    ensures Ladder(WithLevel(m, p, q), stop)
    ensures NoEmptyLevel(m) && q != [] ==> NoEmptyLevel(WithLevel(m, p, q))
  {
    HigherPrices(m, p, stop);
  }

  lemma PushBackLadder(m: seq<Level>, o: Order, stop: bool)
    requires Ladder(m, stop)
    ensures Ladder(PushBack(m, KeyOf(o, stop), o), stop)
    ensures NoEmptyLevel(m) ==> NoEmptyLevel(PushBack(m, KeyOf(o, stop), o))
  {
    AroundKeys(m, KeyOf(o, stop), stop);
    WithLevelLadder(m, KeyOf(o, stop), Same(m, KeyOf(o, stop)) + [o], stop);
  }

  lemma WithLevelAround(m: seq<Level>, p: Price, q: seq<Order>, stop: bool)
    requires Ladder(m, stop) && AtPrice(q, p, stop)
    ensures var m' := WithLevel(m, p, q);
            Lower(m', p) == Lower(m, p) && Higher(m', p) == Higher(m, p) && Same(m', p) == q
  {
    var k := LowerBound(m, p);
    var m' := WithLevel(m, p, q);
    WithLevelLadder(m, p, q, stop);
    assert m'[k].price == p;
    LowerBoundAt(m', stop, k);
  }

  /** Where the pushed order lands in the flat queue. */
  function Landing(m: seq<Level>, p: Price, up: bool): nat {
    |Same(m, p)| + if up then |Up(Lower(m, p))| else |Down(Higher(m, p))|
  }

  /** Whether key `a` is served no later than key `b`. */
  predicate NoLater(a: Price, b: Price, up: bool) {
    if up then a <= b else b <= a
  }

  lemma Splice(a: seq<Order>, s: seq<Order>, b: seq<Order>, x: Order)
    ensures a + (s + [x]) + b == (a + s + b)[..|a| + |s|] + [x] + (a + s + b)[|a| + |s|..]
  {
  }

  lemma WithLevelFlat(m: seq<Level>, p: Price, q: seq<Order>, stop: bool, up: bool)
    requires Ladder(m, stop) && AtPrice(q, p, stop)
    ensures Flat(WithLevel(m, p, q), up) == if up then Up(Lower(m, p)) + q + Up(Higher(m, p))
                                            else Down(Higher(m, p)) + q + Down(Lower(m, p))
  {
    WithLevelAround(m, p, q, stop);
    Around(WithLevel(m, p, q), p, up);
  }

  /** Pushing an order back puts it, in the flat queue, behind all orders at its own or a better
      price and before all others. */
  lemma PushBackFlat(m: seq<Level>, o: Order, stop: bool, up: bool)
    requires Ladder(m, stop)
    ensures var q, p := Flat(m, up), KeyOf(o, stop);
            var k := Landing(m, p, up);
            k <= |q| && Flat(PushBack(m, p, o), up) == q[..k] + [o] + q[k..]
  {
    var p := KeyOf(o, stop);
    AroundKeys(m, p, stop);
    WithLevelFlat(m, p, Same(m, p) + [o], stop, up);
    Around(m, p, up);
    Splice(if up then Up(Lower(m, p)) else Down(Higher(m, p)), Same(m, p),
           if up then Up(Higher(m, p)) else Down(Lower(m, p)), o);
  }

  lemma PushBackKeys(m: seq<Level>, p: Price, stop: bool, up: bool)
    requires Ladder(m, stop)
    ensures var q, k := Flat(m, up), Landing(m, p, up);
            && k <= |q|
            && (forall i :: 0 <= i < k ==> NoLater(KeyOf(q[i], stop), p, up))
            && (forall i :: k <= i < |q| ==> !NoLater(KeyOf(q[i], stop), p, up))
  {
    hide Up, Down, Ladder, Same, Lower, Higher;
    Around(m, p, up);
    AroundKeys(m, p, stop);
  }

  /** The ladder without the oldest order of its k-th level. */
  function Popped(m: seq<Level>, k: nat): seq<Level>
    requires k < |m| && m[k].orders != []
  {
    m[k := Level(m[k].price, m[k].orders[1..])]
  }

  lemma PoppedLast(m: seq<Level>)
    requires m != [] && Last(m).orders != []
    ensures var m' := Popped(m, |m| - 1);
            |m'| == |m| && Last(m').price == Last(m).price && Init(m') == Init(m)
  {
  }

  lemma PopLadder(m: seq<Level>, k: nat)
    requires k < |m| && m[k].orders != [] && Ladder(m, false)
    ensures Ladder(Popped(m, k), false)
  {
  }

  lemma DropLevel(m: seq<Level>, stop: bool)
    requires m != [] && Ladder(m, stop)
    ensures Ladder(m[1..], stop) && Ladder(Init(m), stop)
    ensures NoEmptyLevel(m) ==> NoEmptyLevel(m[1..]) && NoEmptyLevel(Init(m))
  {
  }

  /** A used-up level at either end leaves the flat queue as it is; a level that is not used up
      keeps the ladder free of empty ones. */
  lemma EmptyEnds(m: seq<Level>)
    requires m != []
    ensures m[0].orders == [] ==> Up(m) == Up(m[1..])
    ensures m[0].orders != [] && NoEmptyLevel(m[1..]) ==> NoEmptyLevel(m)
    ensures Last(m).orders == [] ==> Down(m) == Down(Init(m))
    ensures Last(m).orders != [] && NoEmptyLevel(Init(m)) ==> NoEmptyLevel(m)
  {
    assert forall i :: 0 < i < |m| ==> m[i] == m[1..][i - 1];
    assert forall i :: 0 <= i < |m| - 1 ==> m[i] == Init(m)[i];
  }

  lemma FirstLevel(m: seq<Level>)
    requires m != []
    ensures var n := |m[0].orders|; n <= |Up(m)| && Up(m)[..n] == m[0].orders && Up(m)[n..] == Up(m[1..])
    ensures var n := |Last(m).orders|;
            n <= |Down(m)| && Down(m)[..n] == Last(m).orders && Down(m)[n..] == Down(Init(m))
  {
  }

  // ---------- Erasing ----------

  /** The queue without the first occurrence of an object. */
  function Dropped(q: seq<Order>, o: Order): seq<Order> {
    if q == [] then []
    else if q[0] == o then q[1..]
    else [q[0]] + Dropped(q[1..], o)
  }

  /** Drops an object from the queue at a price, and the level with it when that empties it. */
  function Erased(m: seq<Level>, p: Price, o: Order): seq<Level> {
    if !HasPrice(m, p) || o !in Same(m, p) then m
    else if Dropped(Same(m, p), o) == [] then Lower(m, p) + Higher(m, p)
    else WithLevel(m, p, Dropped(Same(m, p), o))
  }

  lemma {:induction false} DroppedAbsent(q: seq<Order>, o: Order)
    requires o !in q
    ensures Dropped(q, o) == q
  {
    if q != [] {
      DroppedAbsent(q[1..], o);
      assert q == [q[0]] + q[1..];
    }
  }

  lemma {:induction false} DroppedFirst(a: seq<Order>, q: seq<Order>, b: seq<Order>, o: Order)
    requires o !in a && o in q
    ensures Dropped(a + q + b, o) == a + Dropped(q, o) + b
  {
    if a != [] {
      assert (a + q + b)[1..] == a[1..] + q + b;
      DroppedFirst(a[1..], q, b, o);
      assert a == [a[0]] + a[1..];
    } else if q[0] != o {
      assert (a + q + b)[1..] == [] + q[1..] + b;
      DroppedFirst([], q[1..], b, o);
    } else {
      assert (a + q + b)[1..] == q[1..] + b;
    }
  }

  lemma {:induction false} DroppedBag(q: seq<Order>, o: Order)
    ensures multiset(Dropped(q, o)) == multiset(q) - multiset{o}
    ensures forall x :: x in Dropped(q, o) ==> x in q
  {
    if q != [] {
      assert q == [q[0]] + q[1..];
      if q[0] != o {
        DroppedBag(q[1..], o);
      }
    } else {
      assert multiset(q) == multiset{};
    }
  }

  lemma WithoutLevel(m: seq<Level>, p: Price, stop: bool)
    requires Ladder(m, stop)
    ensures Ladder(Lower(m, p) + Higher(m, p), stop)
    ensures NoEmptyLevel(m) ==> NoEmptyLevel(Lower(m, p) + Higher(m, p))
  {
    HigherPrices(m, p, stop);
  }

  /** Erasing at the object's own price drops the object, wherever it stands, from the flat queue. */
  lemma ErasedFlat(m: seq<Level>, o: Order, stop: bool, up: bool)
    requires Ladder(m, stop)
    ensures Flat(Erased(m, KeyOf(o, stop), o), up) == Dropped(Flat(m, up), o)
  {
    hide Ladder, Up, Down, Dropped, HasPrice, Lower, Higher, Same, LowerBound, WithLevel;
    var p := KeyOf(o, stop);
    var same := Same(m, p);
    Around(m, p, up);
    NotAround(m, o, stop);
    if o !in same {
      DroppedAbsent(Flat(m, up), o);
    } else {
      SameHasPrice(m, p);
      DroppedFirst(if up then Up(Lower(m, p)) else Down(Higher(m, p)), same,
                   if up then Up(Higher(m, p)) else Down(Lower(m, p)), o);
      ErasedLevelFlat(m, p, Dropped(same, o), stop, up) by { DroppedAtPrice(m, p, o, stop); }
    }
  }

  lemma SameHasPrice(m: seq<Level>, p: Price)
    requires Same(m, p) != []
    ensures HasPrice(m, p)
  {
  }

  lemma NotAround(m: seq<Level>, o: Order, stop: bool)
    requires Ladder(m, stop)
    ensures var p := KeyOf(o, stop);
            && o !in Up(Lower(m, p)) && o !in Down(Lower(m, p))
            && o !in Up(Higher(m, p)) && o !in Down(Higher(m, p))
  {
    AroundKeys(m, KeyOf(o, stop), stop);
  }

  lemma DroppedAtPrice(m: seq<Level>, p: Price, o: Order, stop: bool)
    requires Ladder(m, stop)
    ensures AtPrice(Dropped(Same(m, p), o), p, stop)
  {
    AroundKeys(m, p, stop);
    var q := Dropped(Same(m, p), o);
    DroppedBag(Same(m, p), o);
    forall j | 0 <= j < |q| ensures KeyOf(q[j], stop) == p {
      assert q[j] in Same(m, p);
    }
  }

  lemma ErasedLevelFlat(m: seq<Level>, p: Price, q: seq<Order>, stop: bool, up: bool)
    requires Ladder(m, stop) && AtPrice(q, p, stop)
    ensures Flat(if q == [] then Lower(m, p) + Higher(m, p) else WithLevel(m, p, q), up)
            == if up then Up(Lower(m, p)) + q + Up(Higher(m, p)) else Down(Higher(m, p)) + q + Down(Lower(m, p))
  {
    if q == [] {
      UpAppend(Lower(m, p), Higher(m, p));
      DownAppend(Lower(m, p), Higher(m, p));
    } else {
      WithLevelFlat(m, p, q, stop, up);
    }
  }

  lemma ErasedLadder(m: seq<Level>, o: Order, stop: bool)
    requires Ladder(m, stop)
    ensures Ladder(Erased(m, KeyOf(o, stop), o), stop)
    ensures NoEmptyLevel(m) ==> NoEmptyLevel(Erased(m, KeyOf(o, stop), o))
  {
    hide Ladder, NoEmptyLevel, Dropped, HasPrice, Lower, Higher, Same, LowerBound, WithLevel;
    var p := KeyOf(o, stop);
    DroppedAtPrice(m, p, o, stop);
    WithoutLevel(m, p, stop);
    WithLevelLadder(m, p, Dropped(Same(m, p), o), stop);
  }
}
