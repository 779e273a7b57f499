/** Orders as the shared, mutable objects the engine works on. */
module OrderObject {
  import opened Orders

  class Order {
    const id: Id
    const side: Side
    const price: Price
    const stopPrice: Price
    const quantity: Qty
    var kind: Kind
    var remaining: Qty
    var status: Status
    ghost var stamp: nat

    constructor (id: Id, side: Side, price: Price, quantity: Qty, kind: Kind := Limit, stopPrice: Price := 0.0)
      ensures Val() == Ord(id, side, kind, price, stopPrice, quantity, quantity, Pending, 0)
    {
      this.id, this.side, this.price, this.stopPrice := id, side, price, stopPrice;
      this.quantity, this.remaining := quantity, quantity;
      this.kind, this.status, this.stamp := kind, Pending, 0;
    }

    /** The order's present state as a value. */
    ghost function Val(): Ord
      reads this
    {
      Ord(id, side, kind, price, stopPrice, quantity, remaining, status, stamp)
    }

    predicate IsStop()
      reads this
    {
      kind.Stop? || kind.StopLimit?
    }

    method Fill(q: Qty) returns (ok: bool)
      modifies this
      ensures (ok, Val()) == old(Val()).Fill(q)
      ensures ok <==> (old(status) == Pending || old(status) == Partial) && q <= old(remaining)
      ensures remaining == old(remaining) - (if ok then q else 0)
      ensures status == if !ok then old(status) else if q == old(remaining) then Filled else Partial
      ensures kind == old(kind)
    {
      if status == Canceled || status == Rejected || status == Filled {
        return false;
      }
      if q > remaining {
        return false;
      }
      remaining := remaining - q;
      status := if remaining == 0 then Filled else Partial;
      return true;
    }

    method Cancel() returns (ok: bool)
      modifies this
      ensures (ok, Val()) == old(Val()).Cancel()
      ensures ok <==> old(status) == Pending || old(status) == Partial
      ensures status == if ok then Canceled else old(status)
      ensures remaining == old(remaining) && kind == old(kind)
    {
      if status == Filled || status == Canceled || status == Rejected {
        return false;
      }
      status := Canceled;
      return true;
    }

    method Trigger() returns (ok: bool)
      modifies this
      ensures (ok, Val()) == old(Val()).Trigger()
      ensures ok <==> old(kind) == Stop || old(kind) == StopLimit
      ensures kind == if old(kind) == Stop then Market else if old(kind) == StopLimit then Limit else old(kind)
      ensures remaining == old(remaining) && status == old(status)
    {
      if kind == Stop {
        kind := Market;
        return true;
      } else if kind == StopLimit {
        kind := Limit;
        return true;
      }
      return false;
    }
  }

  /** The present states of a sequence of orders. */
  ghost function Vals(s: seq<Order>): (r: seq<Ord>)
    reads s
    ensures |r| == |s| && forall i :: 0 <= i < |s| ==> r[i] == s[i].Val()
  {
    seq(|s|, i requires 0 <= i < |s| reads s => s[i].Val())
  }
}
