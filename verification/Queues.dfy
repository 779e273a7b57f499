/** Price-time queues: a side of the book, or a set of resting stops, as one flat sequence with
    the order to be served first in front. */
module Queues {
  import opened Orders

  /** Lower ranks are served first. A stop ranks by its trigger price, a book order by its limit;
      the sign turns "highest first" into "lowest first" for bids and for stop sells. */
  function Rank(o: Ord): real {
    if o.IsStop() then
      if o.side.Buy? then o.stopPrice else -o.stopPrice
    else
      if o.side.Sell? then o.price else -o.price
  }

  ghost predicate Sorted(q: seq<Ord>) {
    forall i, j :: 0 <= i < j < |q| ==> Rank(q[i]) <= Rank(q[j])
  }

  /** Every order of `q` is live, on side `side`, and of the sort this queue holds. */
  ghost predicate Held(q: seq<Ord>, side: Side, stop: bool) {
    forall i :: 0 <= i < |q| ==> q[i].side == side && q[i].Live() && (if stop then q[i].IsStop() else q[i].kind.Limit?)
  }

  /** How many orders at the front of `q` rank at or before `r`. */
  function Pos(q: seq<Ord>, r: real): (k: nat)
    ensures k <= |q|
    ensures forall i :: 0 <= i < k ==> Rank(q[i]) <= r
    ensures k < |q| ==> r < Rank(q[k])
  {
    if q == [] || r < Rank(q[0]) then 0 else 1 + Pos(q[1..], r)
  }

  /** Price-time priority: behind every order of the same or a better rank. */
  function Insert(q: seq<Ord>, o: Ord): seq<Ord> {
    var k := Pos(q, Rank(o));
    q[..k] + [o] + q[k..]
  }

  /** Drops the first order with this id. */
  function Remove(q: seq<Ord>, id: Id): seq<Ord> {
    if q == [] then []
    else if q[0].id == id then q[1..]
    else [q[0]] + Remove(q[1..], id)
  }

  function Total(q: seq<Ord>): nat {
    if q == [] then 0 else q[0].remaining + Total(q[1..])
  }

  // ---------- Pos and Insert ----------

  lemma PosSplits(q: seq<Ord>, r: real)
    requires Sorted(q)
    ensures forall i :: Pos(q, r) <= i < |q| ==> r < Rank(q[i])
  {
    var k := Pos(q, r);
    forall i | k <= i < |q| ensures r < Rank(q[i]) {
      if k < i { assert Rank(q[k]) <= Rank(q[i]); }
    }
  }

  /** A cut that separates the ranks is the cut `Pos` finds. */
  lemma PosUnique(q: seq<Ord>, r: real, k: nat)
    requires k <= |q|
    requires forall i :: 0 <= i < k ==> Rank(q[i]) <= r
    requires forall i :: k <= i < |q| ==> r < Rank(q[i])
    ensures Pos(q, r) == k
  {
    var p := Pos(q, r);
    assert p < |q| ==> r < Rank(q[p]);
    assert k < |q| ==> r < Rank(q[k]);
  }

  /** In a sorted queue the first rank beyond `r` ends the cut. */
  lemma PosAtFirst(q: seq<Ord>, r: real, k: nat)
    requires Sorted(q) && k <= |q|
    requires forall i :: 0 <= i < k ==> Rank(q[i]) <= r
    requires k < |q| ==> r < Rank(q[k])
    ensures Pos(q, r) == k
  {
    forall i | k <= i < |q| ensures r < Rank(q[i]) {
      assert k == i || Rank(q[k]) <= Rank(q[i]);
    }
    PosUnique(q, r, k);
  }

  lemma PosMonotone(q: seq<Ord>, r: real, r': real)
    requires r <= r'
    ensures Pos(q, r) <= Pos(q, r')
  {
  }

  lemma InsertSorted(q: seq<Ord>, o: Ord)
    requires Sorted(q)
    ensures Sorted(Insert(q, o))
  {
    PosSplits(q, Rank(o));
  }

  lemma InsertHeld(q: seq<Ord>, o: Ord, side: Side, stop: bool)
    requires Held(q, side, stop) && Held([o], side, stop)
    ensures Held(Insert(q, o), side, stop)
  {
    assert [o][0] == o;
  }

  lemma InsertMembers(q: seq<Ord>, o: Ord)
    ensures forall i :: 0 <= i < |Insert(q, o)| ==> Insert(q, o)[i] == o || Insert(q, o)[i] in q
  {
  }

  // ---------- The head of a queue ----------

  lemma DropKeeps(q: seq<Ord>, k: nat, side: Side, stop: bool)
    requires k <= |q| && Held(q, side, stop) && Sorted(q)
    ensures Held(q[k..], side, stop) && Sorted(q[k..])
  {
  }

  lemma TailKeeps(q: seq<Ord>, side: Side, stop: bool)
    requires q != [] && Held(q, side, stop) && Sorted(q)
    ensures Held(q[1..], side, stop) && Sorted(q[1..])
  {
  }

  lemma HeadKeeps(q: seq<Ord>, head: Ord, side: Side, stop: bool)
    requires q != [] && Held(q, side, stop) && Sorted(q)
    requires Held([head], side, stop) && Rank(head) == Rank(q[0])
    ensures Held([head] + q[1..], side, stop) && Sorted([head] + q[1..])
  {
    var q' := [head] + q[1..];
    assert [head][0] == head;
    assert forall i :: 0 < i < |q'| ==> q'[i] == q[i];
  }

  // ---------- Remove ----------

  lemma {:induction false} RemoveSplit(q: seq<Ord>, k: nat)
    requires k < |q|
    requires forall i :: 0 <= i < k ==> q[i].id != q[k].id
    ensures Remove(q, q[k].id) == q[..k] + q[k + 1..]
  {
    if k > 0 {
      RemoveSplit(q[1..], k - 1);
      assert q[1..][k - 1] == q[k];
      assert q[..k] == [q[0]] + q[1..][..k - 1];
      assert q[k + 1..] == q[1..][k..];
    }
  }

  lemma {:induction false} RemoveAbsent(q: seq<Ord>, id: Id)
    requires forall i :: 0 <= i < |q| ==> q[i].id != id
    ensures Remove(q, id) == q
  {
    if q != [] {
      RemoveAbsent(q[1..], id);
      assert q == [q[0]] + q[1..];
    }
  }

  // ---------- Total ----------

  lemma {:induction false} TotalAppend(p: seq<Ord>, q: seq<Ord>)
    ensures Total(p + q) == Total(p) + Total(q)
  {
    if p == [] {
      assert p + q == q;
    } else {
      TotalAppend(p[1..], q);
      assert (p + q)[1..] == p[1..] + q;
    }
  }
}
