/** The outcome of matching, in closed form: who trades, in which order, how much, at what price. */
module Priority {
  import opened Orders
  import opened Queues
  import opened Matching

  /** The quantity resting on the other side at prices acceptable to `inc`, wherever in the queue
      it stands. */
  function Liquidity(inc: Ord, q: seq<Ord>): nat {
    if q == [] then 0 else (if Eligible(inc, q[0]) then q[0].remaining else 0) + Liquidity(inc, q[1..])
  }

  /** The state of resting order `q[i]` after its trade, when `inc` came with `want` to fill and
      the orders before it took theirs. */
  function Share(q: seq<Ord>, want: nat, i: nat): int
    requires i < |q|
  {
    Min(q[i].remaining, want - Total(q[..i]))
  }

  /** Nobody behind an unacceptable order is acceptable: the queue is sorted. */
  lemma {:induction false} NoneEligible(inc: Ord, q: seq<Ord>, side: Side)
    requires Held(q, side, false) && Sorted(q) && side != inc.side
    requires q != [] && !Eligible(inc, q[0])
    ensures Liquidity(inc, q) == 0
  {
    if |q| > 1 {
      assert Rank(q[0]) <= Rank(q[1]);
      TailKeeps(q, side, false);
      NoneEligible(inc, q[1..], side);
    }
  }

  ghost predicate SameTerms(a: Ord, b: Ord) {
    a.id == b.id && a.side == b.side && a.kind == b.kind && a.price == b.price
  }

  lemma {:induction false} LiquiditySame(inc: Ord, inc': Ord, q: seq<Ord>)
    requires SameTerms(inc, inc')
    ensures Liquidity(inc, q) == Liquidity(inc', q)
  {
    if q != [] { LiquiditySame(inc, inc', q[1..]); }
  }

  /** Exactly the smaller of what is wanted and what is on offer is executed. */
  lemma {:induction false} CrossVolume(b: Book, inc: Ord)
    requires Shaped(b) && inc.InHand()
    ensures var (b', inc') := Cross(b, inc);
            && SameTerms(inc, inc')
            && inc.remaining - inc'.remaining == Min(inc.remaining, Liquidity(inc, Opposite(b, inc.side)))
    decreases TradesLeft(b, inc)
  {
    var q := Opposite(b, inc.side);
    if CanTrade(b, inc) {
      TradeStepKeeps(b, inc);
      var (b', inc') := TradeStep(b, inc);
      CrossVolume(b', inc');
      LiquiditySame(inc, inc', Opposite(b', inc.side));
    } else if q != [] && inc.remaining > 0 {
      NoneEligible(inc, q, if inc.side.Buy? then Sell else Buy);
    }
  }

  /** `n` trades were printed: the i-th is with the i-th resting order in priority order, at that
      order's price, acceptable to both, for all it has left or all that is still wanted. */
  ghost predicate InPriority(inc: Ord, q: seq<Ord>, ts: seq<Trade>) {
    |ts| <= |q|
    && forall i :: 0 <= i < |ts| ==>
      && Eligible(inc, q[i])
      && 0 < Share(q, inc.remaining, i) < 0x1_0000_0000
      && ts[i] == TradeBetween(inc, q[i], Share(q, inc.remaining, i))
  }

  function Exhausted(q: seq<Ord>): (r: seq<Ord>)
    ensures |r| == |q| && forall i :: 0 <= i < |q| ==> r[i] == q[i].(remaining := 0, status := Filled)
  {
    seq(|q|, i requires 0 <= i < |q| => q[i].(remaining := 0, status := Filled))
  }

  /** What `n` trades for at most `want` do to the queue `q`: every order served is filled and
      gone, except that the last one stays in front, partially filled, when it had more than was
      still wanted. `left` is what remains wanted. */
  ghost predicate Served(q: seq<Ord>, want: int, q': seq<Ord>, gone: seq<Ord>, left: int, n: nat) {
    && n <= |q|
    && (Total(q[..n]) <= want ==>
      && q' == q[n..]
      && gone == Exhausted(q[..n])
      && left == want - Total(q[..n]))
    && (want < Total(q[..n]) ==>
      && n > 0
      && 0 < want - Total(q[..n - 1]) < q[n - 1].remaining
      && q' == [q[n - 1].Fill(want - Total(q[..n - 1])).1] + q[n..]
      && gone == Exhausted(q[..n - 1])
      && left == 0)
  }

  /** Filling the head and serving the rest serves the whole queue. */
  lemma ServedShifts(q: seq<Ord>, want: int, q': seq<Ord>, gone: seq<Ord>, left: int, n: nat)
    requires q != []
    requires Served(q[1..], want - q[0].remaining, q', gone, left, n)
    ensures Served(q, want, q', Exhausted(q[..1]) + gone, left, n + 1)
  {
    assert q[..n + 1][1..] == q[1..][..n];
    assert q[n + 1..] == q[1..][n..];
    assert Exhausted(q[..n + 1]) == Exhausted(q[..1]) + Exhausted(q[1..][..n]);
    if n > 0 {
      assert q[..n][1..] == q[1..][..n - 1];
      assert q[n] == q[1..][n - 1];
      assert Exhausted(q[..n]) == Exhausted(q[..1]) + Exhausted(q[1..][..n - 1]);
    }
  }

  lemma ServedOnce(q: seq<Ord>, want: int)
    requires q != [] && 0 < want <= q[0].remaining
    ensures want == q[0].remaining ==> Served(q, want, q[1..], Exhausted(q[..1]), 0, 1)
    ensures want < q[0].remaining ==> Served(q, want, [q[0].Fill(want).1] + q[1..], [], 0, 1)
  {
    assert q[..1] == [q[0]] && q[..0] == [];
    assert Total([q[0]]) == q[0].remaining;
    assert Exhausted(q[..0]) == [];
  }

  /** One trade, without regard to which side is which. */
  lemma TradeStepEffect(b: Book, inc: Ord)
    requires Shaped(b) && inc.InHand() && CanTrade(b, inc)
    ensures var (q, (b1, inc1)) := (Opposite(b, inc.side), TradeStep(b, inc));
            && SameTerms(inc, inc1)
            && b1.tape == b.tape + [TradeBetween(inc, q[0], Min(inc.remaining, q[0].remaining))]
            && inc1.remaining == inc.remaining - Min(inc.remaining, q[0].remaining)
            && (q[0].remaining <= inc.remaining ==>
                  Opposite(b1, inc.side) == q[1..] && b1.closed == b.closed + Exhausted(q[..1]))
            && (inc.remaining < q[0].remaining ==>
                  Opposite(b1, inc.side) == [q[0].Fill(inc.remaining).1] + q[1..] && b1.closed == b.closed)
  {
    var q := Opposite(b, inc.side);
    assert q[0].Live();
    assert q[..1] == [q[0]];
  }

  ghost predicate Serves(b: Book, inc: Ord, b': Book, inc': Ord) {
    && |b.tape| <= |b'.tape|
    && b.closed <= b'.closed
    && Served(Opposite(b, inc.side), inc.remaining, Opposite(b', inc.side), b'.closed[|b.closed|..],
              inc'.remaining, |b'.tape| - |b.tape|)
  }

  lemma ServesNone(b: Book, inc: Ord)
    ensures Serves(b, inc, b, inc)
  {
    assert Opposite(b, inc.side)[..0] == [] && Exhausted([]) == [];
  }

  lemma ServesOne(b: Book, inc: Ord)
    requires Shaped(b) && inc.InHand() && CanTrade(b, inc)
    requires inc.remaining <= Opposite(b, inc.side)[0].remaining
    ensures Serves(b, inc, TradeStep(b, inc).0, TradeStep(b, inc).1)
  {
    TradeStepEffect(b, inc);
    ServedOnce(Opposite(b, inc.side), inc.remaining);
    var (b1, _) := TradeStep(b, inc);
    assert b1.closed[|b.closed|..] ==
           if inc.remaining == Opposite(b, inc.side)[0].remaining then Exhausted(Opposite(b, inc.side)[..1]) else [];
  }

  lemma ServesMore(b: Book, inc: Ord, b': Book, inc': Ord)
    requires Shaped(b) && inc.InHand() && CanTrade(b, inc)
    requires Opposite(b, inc.side)[0].remaining < inc.remaining
    requires Serves(TradeStep(b, inc).0, TradeStep(b, inc).1, b', inc')
    ensures Serves(b, inc, b', inc')
  {
    var q := Opposite(b, inc.side);
    var (b1, inc1) := TradeStep(b, inc);
    assert && inc1.side == inc.side
           && Opposite(b1, inc.side) == q[1..]
           && inc1.remaining == inc.remaining - q[0].remaining
           && b1.closed == b.closed + Exhausted(q[..1])
           && |b1.tape| == |b.tape| + 1 by { TradeStepEffect(b, inc); }
    ServesShifts(b, inc, b1, inc1, b', inc');
  }

  lemma ServesShifts(b: Book, inc: Ord, b1: Book, inc1: Ord, b': Book, inc': Ord)
    requires Opposite(b, inc.side) != [] && inc1.side == inc.side
    requires Opposite(b1, inc.side) == Opposite(b, inc.side)[1..]
    requires inc1.remaining == inc.remaining - Opposite(b, inc.side)[0].remaining
    requires b1.closed == b.closed + Exhausted(Opposite(b, inc.side)[..1])
    requires |b1.tape| == |b.tape| + 1
    requires Serves(b1, inc1, b', inc')
    ensures Serves(b, inc, b', inc')
  {
    hide Exhausted;
    var q, q', gone, left := Opposite(b, inc.side), Opposite(b', inc.side), b'.closed[|b1.closed|..], inc'.remaining;
    var n := |b'.tape| - |b1.tape|;
    assert Served(q, inc.remaining, q', Exhausted(q[..1]) + gone, left, n + 1) by {
      assert Served(q[1..], inc.remaining - q[0].remaining, q', gone, left, n);
      ServedShifts(q, inc.remaining, q', gone, left, n);
    }
    assert b'.closed[|b.closed|..] == Exhausted(q[..1]) + gone;
  }

  lemma {:induction false} CrossServes(b: Book, inc: Ord)
    requires Shaped(b) && inc.InHand()
    ensures Serves(b, inc, Cross(b, inc).0, Cross(b, inc).1)
    decreases TradesLeft(b, inc)
  {
    if CanTrade(b, inc) {
      TradeStepKeeps(b, inc);
      var (b1, inc1) := TradeStep(b, inc);
      if Opposite(b, inc.side)[0].remaining < inc.remaining {
        CrossServes(b1, inc1);
        ServesMore(b, inc, Cross(b1, inc1).0, Cross(b1, inc1).1);
      } else {
        ServesOne(b, inc);
        assert Cross(b, inc) == (b1, inc1);
      }
    } else {
      ServesNone(b, inc);
    }
  }

  ghost predicate PrintsInPriority(b: Book, inc: Ord, b': Book) {
    b.tape <= b'.tape && InPriority(inc, Opposite(b, inc.side), b'.tape[|b.tape|..])
  }

  lemma PrintsMore(b: Book, inc: Ord, b': Book)
    requires Shaped(b) && inc.InHand() && CanTrade(b, inc)
    requires Opposite(b, inc.side)[0].remaining < inc.remaining
    requires PrintsInPriority(TradeStep(b, inc).0, TradeStep(b, inc).1, b')
    ensures PrintsInPriority(b, inc, b')
  {
    TradeStepKeeps(b, inc);
    var q := Opposite(b, inc.side);
    var (b1, inc1) := TradeStep(b, inc);
    assert && SameTerms(inc, inc1)
           && Opposite(b1, inc.side) == q[1..]
           && inc1.remaining == inc.remaining - q[0].remaining
           && b1.tape == b.tape + [TradeBetween(inc, q[0], q[0].remaining)] by { TradeStepEffect(b, inc); }
    PrintsShifts(b, inc, b1, inc1, b');
  }

  lemma PrintsShifts(b: Book, inc: Ord, b1: Book, inc1: Ord, b': Book)
    requires Opposite(b, inc.side) != [] && SameTerms(inc, inc1)
    requires 0 < Opposite(b, inc.side)[0].remaining < inc.remaining && Eligible(inc, Opposite(b, inc.side)[0])
    requires Opposite(b1, inc.side) == Opposite(b, inc.side)[1..]
    requires inc1.remaining == inc.remaining - Opposite(b, inc.side)[0].remaining
    requires b1.tape == b.tape + [TradeBetween(inc, Opposite(b, inc.side)[0], Opposite(b, inc.side)[0].remaining)]
    requires PrintsInPriority(b1, inc1, b')
    ensures PrintsInPriority(b, inc, b')
  {
    hide InPriority, TradeBetween, Eligible;
    var q := Opposite(b, inc.side);
    PriorityShifts(inc, inc1, q, b'.tape[|b1.tape|..]);
    assert b'.tape[|b.tape|..] == [TradeBetween(inc, q[0], q[0].remaining)] + b'.tape[|b1.tape|..];
  }

  lemma PrintsOne(b: Book, inc: Ord)
    requires Shaped(b) && inc.InHand() && CanTrade(b, inc)
    requires inc.remaining <= Opposite(b, inc.side)[0].remaining
    ensures PrintsInPriority(b, inc, TradeStep(b, inc).0)
  {
    TradeStepEffect(b, inc);
    var q := Opposite(b, inc.side);
    assert q[..0] == [];
    assert TradeStep(b, inc).0.tape[|b.tape|..] == [TradeBetween(inc, q[0], inc.remaining)];
  }

  lemma {:induction false} CrossInPriority(b: Book, inc: Ord)
    requires Shaped(b) && inc.InHand()
    ensures PrintsInPriority(b, inc, Cross(b, inc).0)
    decreases TradesLeft(b, inc)
  {
    if CanTrade(b, inc) {
      TradeStepKeeps(b, inc);
      var (b1, inc1) := TradeStep(b, inc);
      if Opposite(b, inc.side)[0].remaining < inc.remaining {
        CrossInPriority(b1, inc1);
        PrintsMore(b, inc, Cross(b1, inc1).0);
      } else {
        PrintsOne(b, inc);
        assert Cross(b, inc) == (b1, inc1);
      }
    }
  }

  lemma ShareShifts(q: seq<Ord>, want: nat, want': nat, n: nat)
    requires q != [] && want' == want - q[0].remaining && n <= |q[1..]|
    ensures forall i :: 0 <= i < n ==> Share(q[1..], want', i) == Share(q, want, i + 1)
  {
    forall i | 0 <= i < n ensures Share(q[1..], want', i) == Share(q, want, i + 1) {
      assert q[..i + 1][1..] == q[1..][..i];
    }
  }

  lemma PriorityShifts(inc: Ord, inc1: Ord, q: seq<Ord>, ts1: seq<Trade>)
    requires q != [] && SameTerms(inc, inc1) && 0 < q[0].remaining < inc.remaining
    requires inc1.remaining == inc.remaining - q[0].remaining
    requires Eligible(inc, q[0])
    requires InPriority(inc1, q[1..], ts1)
    ensures InPriority(inc, q, [TradeBetween(inc, q[0], q[0].remaining)] + ts1)
  {
    ShareShifts(q, inc.remaining, inc1.remaining, |ts1|);
    var ts := [TradeBetween(inc, q[0], q[0].remaining)] + ts1;
    forall i | 0 <= i < |ts|
      ensures Eligible(inc, q[i]) && 0 < Share(q, inc.remaining, i) < 0x1_0000_0000
      ensures ts[i] == TradeBetween(inc, q[i], Share(q, inc.remaining, i))
    {
      if i > 0 {
        assert q[1..][i - 1] == q[i];
        assert Share(q[1..], inc1.remaining, i - 1) == Share(q, inc.remaining, i);
      } else {
        assert q[..0] == [];
      }
    }
  }

  // ---------- Field by field ----------

  /** In a book of the right shape bids fall and asks rise in price; stop buys rise and stop sells fall
      in stop price. */
  lemma BestFirst(b: Book, i: nat, j: nat)
    requires Shaped(b) && i < j
    ensures j < |b.bids| ==> b.bids[j].price <= b.bids[i].price
    ensures j < |b.asks| ==> b.asks[i].price <= b.asks[j].price
    ensures j < |b.stopBuys| ==> b.stopBuys[i].stopPrice <= b.stopBuys[j].stopPrice
    ensures j < |b.stopSells| ==> b.stopSells[j].stopPrice <= b.stopSells[i].stopPrice
  {
    assert j < |b.bids| ==> Rank(b.bids[i]) <= Rank(b.bids[j]);
    assert j < |b.asks| ==> Rank(b.asks[i]) <= Rank(b.asks[j]);
    assert j < |b.stopBuys| ==> Rank(b.stopBuys[i]) <= Rank(b.stopBuys[j]);
    assert j < |b.stopSells| ==> Rank(b.stopSells[i]) <= Rank(b.stopSells[j]);
  }

  /** The i-th trade is at the i-th resting order's price, between the two orders on their own sides,
      inside a limit, for all that order has or all that is still wanted. */
  lemma CrossTrades(b: Book, inc: Ord)
    requires Shaped(b) && inc.InHand()
    ensures var q, b' := if inc.side == Buy then b.asks else b.bids, Cross(b, inc).0;
            && b.tape <= b'.tape && |b'.tape| - |b.tape| <= |q|
            && forall i :: 0 <= i < |b'.tape| - |b.tape| ==>
                 var (t, left) := (b'.tape[|b.tape| + i], inc.remaining - Total(q[..i]));
                 && t.price == q[i].price
                 && t.buyId == (if inc.side == Buy then inc.id else q[i].id)
                 && t.sellId == (if inc.side == Buy then q[i].id else inc.id)
                 && (inc.kind == Limit && inc.side == Buy ==> t.price <= inc.price)
                 && (inc.kind == Limit && inc.side == Sell ==> inc.price <= t.price)
                 && t.quantity > 0
                 && t.quantity == if q[i].remaining <= left then q[i].remaining else left
  {
    hide Cross, Total;
    CrossInPriority(b, inc);
    var n, b' := |b.tape|, Cross(b, inc).0;
    assert forall i :: 0 <= i < |b'.tape| - n ==> b'.tape[n..][i] == b'.tape[n + i];
  }

  /** What is still wanted after matching finds nobody: a market order has emptied the other side, a
      limit order has at least emptied it up to its limit. */
  lemma CrossRemainder(b: Book, inc: Ord)
    requires Shaped(b) && inc.InHand() && Cross(b, inc).1.remaining > 0
    ensures var b' := Cross(b, inc).0;
            && (inc.kind == Market && inc.side == Buy ==> b'.asks == [])
            && (inc.kind == Market && inc.side == Sell ==> b'.bids == [])
            && (inc.kind == Limit && inc.side == Buy ==>
                  forall i :: 0 <= i < |b'.asks| ==> inc.price < b'.asks[i].price)
            && (inc.kind == Limit && inc.side == Sell ==>
                  forall i :: 0 <= i < |b'.bids| ==> b'.bids[i].price < inc.price)
  {
    hide Cross;
    CrossVolume(b, inc);
    var b' := Cross(b, inc).0;
    forall i | 0 < i ensures (i < |b'.asks| ==> b'.asks[0].price <= b'.asks[i].price)
                          && (i < |b'.bids| ==> b'.bids[i].price <= b'.bids[0].price) {
      BestFirst(b', 0, i);
    }
  }

  /** What rests at any price, or at `limit` and better, for a buyer or a seller. */
  function Available(q: seq<Ord>, buying: bool, anyPrice: bool, limit: Price): nat {
    if q == [] then 0
    else
      var within := anyPrice || (if buying then q[0].price <= limit else limit <= q[0].price);
      (if within then q[0].remaining else 0) + Available(q[1..], buying, anyPrice, limit)
  }

  lemma {:induction false} LiquidityIsAvailable(inc: Ord, q: seq<Ord>)
    ensures Liquidity(inc, q) == Available(q, inc.side == Buy, inc.kind == Market, inc.price)
  {
    if q != [] { LiquidityIsAvailable(inc, q[1..]); }
  }

  /** A market order executes against all that rests on the other side, a limit order against all that
      rests there at its price or better, as far as it wants. */
  lemma CrossExecutes(b: Book, inc: Ord)
    requires Shaped(b) && inc.InHand()
    ensures var q := if inc.side == Buy then b.asks else b.bids;
            var all := Available(q, inc.side == Buy, inc.kind == Market, inc.price);
            inc.remaining - Cross(b, inc).1.remaining == if inc.remaining <= all then inc.remaining else all
  {
    hide Cross, Liquidity, Available;
    CrossVolume(b, inc);
    LiquidityIsAvailable(inc, if inc.side == Buy then b.asks else b.bids);
  }
}
