/** The engine's public operations as functions on the book: submitting an order, with the
    cascade of stops its trades set off, and canceling one. */
module Engine {
  import opened Orders
  import opened Queues
  import opened Matching

  // ---------- One round of triggering ----------

  function Lowest(ts: seq<Trade>): (p: Price)
    requires ts != []
    ensures exists k :: 0 <= k < |ts| && ts[k].price == p
    ensures forall k :: 0 <= k < |ts| ==> p <= ts[k].price
  {
    if |ts| == 1 then ts[0].price
    else
      var p := Lowest(ts[1..]);
      var j :| 0 <= j < |ts[1..]| && ts[1..][j].price == p;
      assert ts[j + 1].price == p;
      if ts[0].price <= p then ts[0].price else p
  }

  function Highest(ts: seq<Trade>): (p: Price)
    requires ts != []
    ensures exists k :: 0 <= k < |ts| && ts[k].price == p
    ensures forall k :: 0 <= k < |ts| ==> ts[k].price <= p
  {
    if |ts| == 1 then ts[0].price
    else
      var p := Highest(ts[1..]);
      var j :| 0 <= j < |ts[1..]| && ts[1..][j].price == p;
      assert ts[j + 1].price == p;
      if p <= ts[0].price then ts[0].price else p
  }

  function Triggered(q: seq<Ord>): (r: seq<Ord>)
    ensures |r| == |q| && forall i :: 0 <= i < |q| ==> r[i] == q[i].Trigger().1
  {
    seq(|q|, i requires 0 <= i < |q| => q[i].Trigger().1)
  }

  /** The stops that trades between `lo` and `hi` reach, in the order an ascending scan of the
      trade prices meets them. The lowest price reaches every sell stop the scan ever will, so
      the sells stand between the buys at or below it and the remaining buys. */
  function Reached(b: Book, lo: Price, hi: Price): seq<Ord>
    requires lo <= hi
  {
    PosMonotone(b.stopBuys, lo, hi);
    b.stopBuys[..Pos(b.stopBuys, lo)]
    + b.stopSells[..Pos(b.stopSells, -lo)]
    + b.stopBuys[Pos(b.stopBuys, lo)..Pos(b.stopBuys, hi)]
  }

  function WithoutReached(b: Book, lo: Price, hi: Price): Book {
    b.(stopBuys := b.stopBuys[Pos(b.stopBuys, hi)..], stopSells := b.stopSells[Pos(b.stopSells, -lo)..])
  }

  /** Takes the stops reached by the trades `tape[from..]` out of the book and triggers them. */
  function Fire(b: Book, from: nat): (Book, seq<Ord>)
    requires from < |b.tape|
  {
    var ts := b.tape[from..];
    LowestAtMostHighest(ts);
    var lo, hi := Lowest(ts), Highest(ts);
    (WithoutReached(b, lo, hi), Triggered(Reached(b, lo, hi)))
  }

  lemma LowestAtMostHighest(ts: seq<Trade>)
    requires ts != []
    ensures Lowest(ts) <= Highest(ts)
  {
    assert Lowest(ts) <= ts[0].price <= Highest(ts);
  }

  ghost predicate Ready(hand: seq<Ord>) {
    forall i :: 0 <= i < |hand| ==> hand[i].InHand()
  }

  function Stops(b: Book): nat {
    |b.stopBuys| + |b.stopSells|
  }

  lemma FireKeeps(b: Book, from: nat)
    requires Shaped(b) && from < |b.tape|
    ensures var (b', hand) := Fire(b, from);
            Shaped(b') && Ready(hand) && Stops(b') + |hand| == Stops(b)
  {
    var ts := b.tape[from..];
    LowestAtMostHighest(ts);
    ReachedKeeps(b, Lowest(ts), Highest(ts));
  }

  lemma ReachedLive(b: Book, lo: Price, hi: Price)
    requires Shaped(b) && lo <= hi
    ensures forall i :: 0 <= i < |Reached(b, lo, hi)| ==> Reached(b, lo, hi)[i].IsStop() && Reached(b, lo, hi)[i].Live()
  {
    PosMonotone(b.stopBuys, lo, hi);
    var p := b.stopBuys[..Pos(b.stopBuys, lo)];
    var q := b.stopSells[..Pos(b.stopSells, -lo)];
    var r := b.stopBuys[Pos(b.stopBuys, lo)..Pos(b.stopBuys, hi)];
    assert Held(p, Buy, true) && Held(q, Sell, true) && Held(r, Buy, true);
    assert Reached(b, lo, hi) == p + q + r;
  }

  lemma ReachedKeeps(b: Book, lo: Price, hi: Price)
    requires Shaped(b) && lo <= hi
    ensures Shaped(WithoutReached(b, lo, hi)) && Ready(Triggered(Reached(b, lo, hi)))
    ensures Stops(WithoutReached(b, lo, hi)) + |Reached(b, lo, hi)| == Stops(b)
  {
    PosMonotone(b.stopBuys, lo, hi);
    DropKeeps(b.stopBuys, Pos(b.stopBuys, hi), Buy, true);
    DropKeeps(b.stopSells, Pos(b.stopSells, -lo), Sell, true);
    ReachedLive(b, lo, hi);
  }

  // ---------- The cascade ----------

  function SettleAll(b: Book, hand: seq<Ord>): (r: Book)
    requires Shaped(b) && Ready(hand)
    ensures Shaped(r) && Stops(r) == Stops(b)
    decreases |hand|
  {
    if hand == [] then b
    else
      SettleStops(b, hand[0]);
      SettleAll(Settle(b, hand[0]), hand[1..])
  }

  lemma {:induction false} CrossStops(b: Book, inc: Ord)
    requires Shaped(b) && inc.InHand()
    ensures Cross(b, inc).0.stopBuys == b.stopBuys && Cross(b, inc).0.stopSells == b.stopSells
    decreases TradesLeft(b, inc)
  {
    if CanTrade(b, inc) {
      TradeStepKeeps(b, inc);
      var (b', inc') := TradeStep(b, inc);
      CrossStops(b', inc');
    }
  }

  lemma SettleStops(b: Book, inc: Ord)
    requires Shaped(b) && inc.InHand()
    ensures Settle(b, inc).stopBuys == b.stopBuys && Settle(b, inc).stopSells == b.stopSells
  {
    CrossStops(b, inc);
  }

  /** The trades since `from` trigger stops; those trade in turn; and so on until a round prints
      no trade. It ends because every further round has used up a stop. */
  function Cascade(b: Book, from: nat): (r: Book)
    requires Shaped(b) && from < |b.tape|
    ensures Shaped(r)
    decreases Stops(b)
  {
    FireKeeps(b, from);
    var (b1, hand) := Fire(b, from);
    if hand == [] then b1
    else
      var b2 := SettleAll(b1, hand);
      if |b2.tape| > |b.tape| then Cascade(b2, |b.tape|) else b2
  }

  // ---------- Submitting and canceling ----------

  /** Every order the book holds. */
  function Resting(b: Book): seq<Ord> {
    b.bids + b.asks + b.stopBuys + b.stopSells
  }

  ghost predicate HasId(q: seq<Ord>, id: Id) {
    exists i :: 0 <= i < |q| && q[i].id == id
  }

  function WithStop(b: Book, o: Ord): Book {
    if o.side.Buy? then b.(stopBuys := Insert(b.stopBuys, o)) else b.(stopSells := Insert(b.stopSells, o))
  }

  /** What a caller may submit: an order that can still be filled, or one with nothing left to fill,
      which the book refuses. Its type, prices, side and quantity are free. */
  predicate Submittable(o: Ord) {
    o.remaining > 0 ==> o.Live()
  }

  /** The order as the book takes it in. */
  function Accepted(b: Book, o: Ord): Ord {
    o.(stamp := |b.tape|)
  }

  ghost function Submit(b: Book, o: Ord): (r: (bool, Book))
    requires Shaped(b) && Submittable(o)
    ensures Shaped(r.1)
  {
    if o.remaining == 0 || HasId(Resting(b), o.id) then
      (false, b)
    else
      var a := Accepted(b, o);
      if a.IsStop() then
        WithStopKeeps(b, a);
        (true, WithStop(b, a))
      else
        (true, Process(b, a))
  }

  /** Settles an order and the cascade its trades set off. */
  function Process(b: Book, inc: Ord): (r: Book)
    requires Shaped(b) && inc.InHand()
    ensures Shaped(r)
  {
    var b' := Settle(b, inc);
    if |b'.tape| > |b.tape| then Cascade(b', |b.tape|) else b'
  }

  lemma WithStopKeeps(b: Book, o: Ord)
    requires Shaped(b) && o.IsStop() && o.Live()
    ensures Shaped(WithStop(b, o))
  {
    var own := if o.side.Buy? then b.stopBuys else b.stopSells;
    InsertSorted(own, o);
    InsertHeld(own, o, o.side, true);
  }

  /** Takes the order with this id, wherever it rests, out of the book. */
  function Take(b: Book, id: Id): Book {
    b.(bids := Remove(b.bids, id), asks := Remove(b.asks, id),
       stopBuys := Remove(b.stopBuys, id), stopSells := Remove(b.stopSells, id))
  }

  ghost function Withdraw(b: Book, id: Id): (bool, Book) {
    if exists i :: 0 <= i < |Resting(b)| && Resting(b)[i].id == id then
      var i :| 0 <= i < |Resting(b)| && Resting(b)[i].id == id;
      (true, Take(b, id).(closed := b.closed + [Resting(b)[i].Cancel().1]))
    else
      (false, b)
  }
}
