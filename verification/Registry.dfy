/** Which order objects a book holds: the pool, and the index over it. */
module Registry {
  import opened Orders
  import opened OrderObject

  /** Every order of the pool occurs once, is indexed under its own id, and has not left the book;
      and the index lists nothing else. */
  ghost predicate Registered(index: map<Id, Order>, pool: multiset<Order>, closed: seq<Order>) {
    && (forall o {:trigger pool[o]} :: o in pool ==> pool[o] == 1 && o.id in index && index[o.id] == o)
    && (forall id {:trigger index[id]} :: id in index ==> index[id] in pool && index[id].id == id)
    && (forall i :: 0 <= i < |closed| ==> closed[i] !in pool)
  }

  lemma Unregister(index: map<Id, Order>, pool: multiset<Order>, closed: seq<Order>, x: Order)
    requires Registered(index, pool, closed) && x in pool
    ensures Registered(index - {x.id}, pool - multiset{x}, closed + [x])
  {
  }

  lemma Register(index: map<Id, Order>, pool: multiset<Order>, closed: seq<Order>, x: Order)
    requires Registered(index, pool, closed) && x !in closed && x.id !in index
    ensures x !in pool
    ensures Registered(index[x.id := x], pool + multiset{x}, closed)
  {
  }

  ghost function PoolOf(p: seq<Order>, q: seq<Order>, r: seq<Order>, s: seq<Order>, h: seq<Order>): multiset<Order> {
    multiset(p) + multiset(q) + multiset(r) + multiset(s) + multiset(h)
  }

  lemma HeadBag(q: seq<Order>)
    requires q != []
    ensures multiset(q) == multiset{q[0]} + multiset(q[1..])
  {
    assert q == [q[0]] + q[1..];
  }

  lemma PoolWithoutBid(p: seq<Order>, q: seq<Order>, r: seq<Order>, s: seq<Order>, h: seq<Order>)
    requires p != []
    ensures PoolOf(p[1..], q, r, s, h) == PoolOf(p, q, r, s, h) - multiset{p[0]}
  {
    HeadBag(p);
  }

  lemma PoolWithoutAsk(p: seq<Order>, q: seq<Order>, r: seq<Order>, s: seq<Order>, h: seq<Order>)
    requires q != []
    ensures PoolOf(p, q[1..], r, s, h) == PoolOf(p, q, r, s, h) - multiset{q[0]}
  {
    HeadBag(q);
  }

  /** In a pool without repetition, the front order and the order in hand occur nowhere else. */
  lemma FrontOnce(own: seq<Order>, q: seq<Order>, r: seq<Order>, s: seq<Order>, h: seq<Order>)
    requires q != [] && h != []
    requires forall o :: o in PoolOf(own, q, r, s, h) ==> PoolOf(own, q, r, s, h)[o] == 1
    ensures q[0] != h[0]
    ensures Without(q[1..], h[0], q[0]) && Without(own, h[0], q[0]) && Without(r, h[0], q[0]) && Without(s, h[0], q[0])
    ensures Without(h[1..], h[0], q[0])
  {
    HeadBag(q);
    HeadBag(h);
    var x, y := h[0], q[0];
    assert PoolOf(own, q, r, s, h)[x] == 1 && PoolOf(own, q, r, s, h)[y] == 1;
    NotIn(q[1..], x, y);
    NotIn(own, x, y);
    NotIn(r, x, y);
    NotIn(s, x, y);
    NotIn(h[1..], x, y);
  }

  lemma NotIn(s: seq<Order>, x: Order, y: Order)
    requires multiset(s)[x] == 0 && multiset(s)[y] == 0
    ensures Without(s, x, y)
  {
    forall i | 0 <= i < |s| ensures s[i] != x && s[i] != y {
      assert s[i] in multiset(s);
    }
  }

  ghost function AsSet(s: seq<Order>): set<Order> {
    set o | o in s
  }

  lemma EmptySet()
    ensures AsSet([]) == {}
  {
  }

  /** Neither object occurs in the sequence. */
  ghost predicate Without(s: seq<Order>, x: Order, y: Order) {
    forall i :: 0 <= i < |s| ==> s[i] != x && s[i] != y
  }

  /** An order that moves from the hand into one of the queues stays in the pool. */
  lemma PoolMoves(p: seq<Order>, q: seq<Order>, r: seq<Order>, s: seq<Order>, h: seq<Order>, x: Order,
                  p': seq<Order>, q': seq<Order>, r': seq<Order>, s': seq<Order>)
    requires || (multiset(p') == multiset(p) + multiset{x} && q' == q && r' == r && s' == s)
             || (p' == p && multiset(q') == multiset(q) + multiset{x} && r' == r && s' == s)
             || (p' == p && q' == q && multiset(r') == multiset(r) + multiset{x} && s' == s)
             || (p' == p && q' == q && r' == r && multiset(s') == multiset(s) + multiset{x})
    ensures PoolOf(p', q', r', s', h) == PoolOf(p, q, r, s, [x] + h)
  {
    HeadBag([x] + h);
    assert ([x] + h)[1..] == h;
    assert PoolOf(p, q, r, s, [x] + h) == PoolOf(p, q, r, s, h) + multiset{x};
  }

  lemma PoolWithoutHead(p: seq<Order>, q: seq<Order>, r: seq<Order>, s: seq<Order>, h: seq<Order>, x: Order)
    ensures PoolOf(p, q, r, s, h) == PoolOf(p, q, r, s, [x] + h) - multiset{x}
  {
    HeadBag([x] + h);
    assert ([x] + h)[1..] == h;
  }

  /** Stops that move from their queue into the hand stay in the pool. */
  lemma PoolTriggersBuys(p: seq<Order>, q: seq<Order>, r: seq<Order>, s: seq<Order>, h: seq<Order>, n: nat)
    requires n <= |r|
    ensures PoolOf(p, q, r[n..], s, h + r[..n]) == PoolOf(p, q, r, s, h)
  {
    assert r == r[..n] + r[n..];
  }

  lemma PoolTriggersSells(p: seq<Order>, q: seq<Order>, r: seq<Order>, s: seq<Order>, h: seq<Order>, n: nat)
    requires n <= |s|
    ensures PoolOf(p, q, r, s[n..], h + s[..n]) == PoolOf(p, q, r, s, h)
  {
    assert s == s[..n] + s[n..];
  }

  ghost predicate NoDup(s: seq<Order>) {
    forall i, j :: 0 <= i < j < |s| ==> s[i] != s[j]
  }

  ghost predicate Apart(a: seq<Order>, b: seq<Order>) {
    forall i, j :: 0 <= i < |a| && 0 <= j < |b| ==> a[i] != b[j]
  }

  lemma TwiceInPool(q: seq<Order>, i: nat, j: nat)
    requires i < j < |q| && q[i] == q[j]
    ensures multiset(q)[q[i]] >= 2
  {
    assert q == q[..j] + [q[j]] + q[j + 1..];
    assert q[i] in q[..j];
  }

  lemma SharedInPool(a: seq<Order>, b: seq<Order>, i: nat, j: nat)
    requires i < |a| && j < |b| && a[i] == b[j]
    ensures multiset(a)[a[i]] + multiset(b)[a[i]] >= 2
  {
    assert a[i] in multiset(a) && b[j] in multiset(b);
  }

  /** In a pool without repetition, no queue repeats an order and no two queues share one. */
  lemma PoolApart(p: seq<Order>, q: seq<Order>, r: seq<Order>, s: seq<Order>, h: seq<Order>)
    requires forall o {:trigger PoolOf(p, q, r, s, h)[o]} ::
               o in PoolOf(p, q, r, s, h) ==> PoolOf(p, q, r, s, h)[o] == 1
    ensures NoDup(p) && NoDup(q) && NoDup(r) && NoDup(s) && NoDup(h)
    ensures Apart(p, q) && Apart(p, r) && Apart(p, s) && Apart(p, h)
    ensures Apart(q, r) && Apart(q, s) && Apart(q, h)
    ensures Apart(r, s) && Apart(r, h) && Apart(s, h)
  {
    var m := PoolOf(p, q, r, s, h);
    assert forall o :: m[o] <= 1;
    Distinct(p, m);
    Distinct(q, m);
    Distinct(r, m);
    Distinct(s, m);
    Distinct(h, m);
    Unshared(p, q, m);
    Unshared(p, r, m);
    Unshared(p, s, m);
    Unshared(p, h, m);
    Unshared(q, r, m);
    Unshared(q, s, m);
    Unshared(q, h, m);
    Unshared(r, s, m);
    Unshared(r, h, m);
    Unshared(s, h, m);
  }

  lemma Distinct(q: seq<Order>, m: multiset<Order>)
    requires multiset(q) <= m && forall o :: m[o] <= 1
    ensures NoDup(q)
  {
    forall i, j | 0 <= i < j < |q| ensures q[i] != q[j] {
      assert multiset(q)[q[i]] <= m[q[i]];
      if q[i] == q[j] { TwiceInPool(q, i, j); }
    }
  }

  lemma Unshared(a: seq<Order>, b: seq<Order>, m: multiset<Order>)
    requires multiset(a) + multiset(b) <= m && forall o :: m[o] <= 1
    ensures Apart(a, b)
  {
    forall i, j | 0 <= i < |a| && 0 <= j < |b| ensures a[i] != b[j] {
      assert (multiset(a) + multiset(b))[a[i]] <= m[a[i]];
      if a[i] == b[j] { SharedInPool(a, b, i, j); }
    }
  }

  /** The first `n` orders of a queue share nothing with the rest of it, nor with what the queue
      shares nothing with. */
  lemma FrontApart(r: seq<Order>, n: nat, others: seq<seq<Order>>)
    requires n <= |r| && NoDup(r) && forall k :: 0 <= k < |others| ==> Apart(others[k], r) || Apart(r, others[k])
    ensures NoDup(r[..n])
    ensures forall k :: 0 <= k < |others + [r[n..]]| ==> Apart((others + [r[n..]])[k], r[..n])
  {
    assert Apart(r[n..], r[..n]);
    forall k | 0 <= k < |others| ensures Apart(others[k], r[..n]) {
    }
  }

  lemma GoneApart(gone: seq<Order>, pool: multiset<Order>, q: seq<Order>)
    requires forall i :: 0 <= i < |gone| ==> gone[i] !in pool
    requires multiset(q) <= pool
    ensures Apart(gone, q)
  {
    forall i, j | 0 <= i < |gone| && 0 <= j < |q| ensures gone[i] != q[j] {
      assert q[j] in multiset(q);
    }
  }
}
