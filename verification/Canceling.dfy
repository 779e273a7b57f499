/** Canceling takes out exactly one order and undoes a submission that did not trade. */
module Canceling {
  import opened Orders
  import opened Queues
  import opened Matching
  import opened Engine
  import opened Machine
  import opened Tallies
  import opened Safety

  /** An id that `q[k]` carries, and that occurs once in all, occurs nowhere else. */
  lemma OnlyHere(q: seq<Ord>, k: nat)
    requires k < |q| && Tally(q, HeadsOf(q[k].id)) <= 1
    ensures Tally(q, HeadsOf(q[k].id)) == 1
    ensures forall i :: 0 <= i < |Cut(q, k)| ==> Cut(q, k)[i].id != q[k].id
    ensures forall i :: 0 <= i < |q| && i != k ==> q[i].id != q[k].id
  {
    TallyCut(q, k, HeadsOf(q[k].id));
    TallyOf(Cut(q, k), q[k].id);
    forall i | 0 <= i < |q| && i != k ensures q[i].id != q[k].id {
      assert q[i] == if i < k then Cut(q, k)[i] else Cut(q, k)[i - 1];
    }
  }

  lemma RemoveHere(q: seq<Ord>, k: nat)
    requires k < |q| && Tally(q, HeadsOf(q[k].id)) <= 1
    ensures Remove(q, q[k].id) == Cut(q, k) && Tally(q, HeadsOf(q[k].id)) == 1
  {
    OnlyHere(q, k);
    RemoveSplit(q, k);
  }

  lemma Elsewhere(q: seq<Ord>, id: Id)
    requires Tally(q, HeadsOf(id)) <= 0
    ensures Remove(q, id) == q
  {
    TallyOf(q, id);
    RemoveAbsent(q, id);
  }

  lemma OnceInAll(b: Book, id: Id)
    requires OneEach(b, [])
    ensures RestTally(b, HeadsOf(id)) <= 1
    ensures 0 <= Tally(b.bids, HeadsOf(id)) && 0 <= Tally(b.asks, HeadsOf(id))
    ensures 0 <= Tally(b.stopBuys, HeadsOf(id)) && 0 <= Tally(b.stopSells, HeadsOf(id))
  {
    assert RestTally(b, HeadsOf(id)) + Tally([], HeadsOf(id)) <= 1;
    TallyOf(b.bids, id);
    TallyOf(b.asks, id);
    TallyOf(b.stopBuys, id);
    TallyOf(b.stopSells, id);
  }

  lemma CutMiddle(p: seq<Ord>, q: seq<Ord>, r: seq<Ord>, k: nat)
    requires k < |q|
    ensures p + Cut(q, k) + r == Cut(p + q + r, |p| + k)
  {
  }

  lemma CutFirst(q: seq<Ord>, r: seq<Ord>, k: nat)
    requires k < |q|
    ensures Cut(q, k) + r == Cut(q + r, k)
  {
  }

  lemma TakeBid(b: Book, k: nat)
    requires OneEach(b, []) && k < |b.bids|
    ensures Take(b, b.bids[k].id) == b.(bids := Cut(b.bids, k))
  {
    var id := b.bids[k].id;
    OnceInAll(b, id);
    RemoveHere(b.bids, k);
    Elsewhere(b.asks, id);
    Elsewhere(b.stopBuys, id);
    Elsewhere(b.stopSells, id);
  }

  lemma CutBid(b: Book, k: nat)
    requires k < |b.bids|
    ensures Resting(b.(bids := Cut(b.bids, k))) == Cut(Resting(b), k)
  {
    CutFirst(b.bids, b.asks, k);
    CutFirst(b.bids + b.asks, b.stopBuys, k);
    CutFirst(b.bids + b.asks + b.stopBuys, b.stopSells, k);
  }

  lemma TakeAsk(b: Book, k: nat)
    requires OneEach(b, []) && k < |b.asks|
    ensures Take(b, b.asks[k].id) == b.(asks := Cut(b.asks, k))
  {
    var id := b.asks[k].id;
    OnceInAll(b, id);
    RemoveHere(b.asks, k);
    Elsewhere(b.bids, id);
    Elsewhere(b.stopBuys, id);
    Elsewhere(b.stopSells, id);
  }

  lemma CutAsk(b: Book, k: nat)
    requires k < |b.asks|
    ensures Resting(b.(asks := Cut(b.asks, k))) == Cut(Resting(b), |b.bids| + k)
  {
    CutMiddle(b.bids, b.asks, b.stopBuys, k);
    CutFirst(b.bids + b.asks + b.stopBuys, b.stopSells, |b.bids| + k);
  }

  lemma TakeStopBuy(b: Book, k: nat)
    requires OneEach(b, []) && k < |b.stopBuys|
    ensures Take(b, b.stopBuys[k].id) == b.(stopBuys := Cut(b.stopBuys, k))
  {
    var id := b.stopBuys[k].id;
    OnceInAll(b, id);
    RemoveHere(b.stopBuys, k);
    Elsewhere(b.bids, id);
    Elsewhere(b.asks, id);
    Elsewhere(b.stopSells, id);
  }

  lemma CutStopBuy(b: Book, k: nat)
    requires k < |b.stopBuys|
    ensures Resting(b.(stopBuys := Cut(b.stopBuys, k))) == Cut(Resting(b), |b.bids| + |b.asks| + k)
  {
    CutMiddle(b.bids + b.asks, b.stopBuys, b.stopSells, k);
  }

  lemma TakeStopSell(b: Book, k: nat)
    requires OneEach(b, []) && k < |b.stopSells|
    ensures Take(b, b.stopSells[k].id) == b.(stopSells := Cut(b.stopSells, k))
  {
    var id := b.stopSells[k].id;
    OnceInAll(b, id);
    RemoveHere(b.stopSells, k);
    Elsewhere(b.bids, id);
    Elsewhere(b.asks, id);
    Elsewhere(b.stopBuys, id);
  }

  lemma CutStopSell(b: Book, k: nat)
    requires k < |b.stopSells|
    ensures Resting(b.(stopSells := Cut(b.stopSells, k))) == Cut(Resting(b), |b.bids| + |b.asks| + |b.stopBuys| + k)
  {
    CutMiddle(b.bids + b.asks + b.stopBuys, b.stopSells, [], k);
    assert Resting(b) + [] == Resting(b);
    assert Resting(b.(stopSells := Cut(b.stopSells, k))) + [] == Resting(b.(stopSells := Cut(b.stopSells, k)));
  }

  /** The queue in which the i-th of all resting orders stands. */
  lemma StandsAt(b: Book, i: nat)
    requires i < |Resting(b)|
    ensures var p, q, r := |b.bids|, |b.asks|, |b.stopBuys|;
            && i < p + q + r + |b.stopSells|
            && Resting(b)[i] == if i < p then b.bids[i]
                                else if i < p + q then b.asks[i - p]
                                else if i < p + q + r then b.stopBuys[i - p - q]
                                else b.stopSells[i - p - q - r]
  {
  }

  /** Taking the i-th of all resting orders leaves all the others, in their places. */
  lemma TakeIsLocal(b: Book, i: nat)
    requires OneEach(b, []) && i < |Resting(b)|
    ensures Resting(Take(b, Resting(b)[i].id)) == Cut(Resting(b), i)
  {
    hide Resting, Take, Cut, OneEach;
    StandsAt(b, i);
    var p, q, r := |b.bids|, |b.asks|, |b.stopBuys|;
    if i < p {
      TakeBid(b, i);
      CutBid(b, i);
    } else if i < p + q {
      TakeAsk(b, i - p);
      CutAsk(b, i - p);
    } else if i < p + q + r {
      TakeStopBuy(b, i - p - q);
      CutStopBuy(b, i - p - q);
    } else {
      TakeStopSell(b, i - p - q - r);
      CutStopSell(b, i - p - q - r);
    }
  }

  // ---------- Canceling a live order ----------

  lemma RestingLive(b: Book, i: nat)
    requires Shaped(b) && i < |Resting(b)|
    ensures Resting(b)[i].Live()
  {
    hide Resting;
    StandsAt(b, i);
  }

  lemma WithdrawTakes(b: Book, i: nat)
    requires i < |Resting(b)| && Resting(b)[i].Live()
    requires forall j :: 0 <= j < |Resting(b)| && j != i ==> Resting(b)[j].id != Resting(b)[i].id
    ensures var o := Resting(b)[i];
            Withdraw(b, o.id) == (true, Take(b, o.id).(closed := b.closed + [o.(status := Canceled)]))
  {
    hide Resting, Take;
    assert Resting(b)[i].id == Resting(b)[i].id;
  }

  lemma ClosedAside(b: Book, closed: seq<Ord>)
    ensures Resting(b.(closed := closed)) == Resting(b)
  {
  }

  /** Any resting order can be canceled, by its id alone: it leaves as canceled with what it has
      left unfilled, and nothing else changes or moves. */
  lemma WithdrawLive(b: Book, i: nat)
    requires Good(b) && i < |Resting(b)|
    ensures var o := Resting(b)[i];
            var (ok, b') := Withdraw(b, o.id);
            && ok
            && Resting(b') == Cut(Resting(b), i)
            && b'.closed == b.closed + [o.(status := Canceled)]
            && b'.tape == b.tape
            && b' == Take(b, o.id).(closed := b'.closed)
  {
    hide Resting, Cut, Tally, RestTally, Uncrossed, StopsQuiet, Over, Withdraw, Shaped, Remove;
    var all, o := Resting(b), Resting(b)[i];
    RestingTally(b, HeadsOf(o.id));
    OnceInAll(b, o.id);
    OnlyHere(all, i);
    TakeIsLocal(b, i);
    RestingLive(b, i);
    WithdrawTakes(b, i);
    ClosedAside(Take(b, o.id), b.closed + [o.(status := Canceled)]);
  }

  lemma WithdrawUnknown(b: Book, id: Id)
    requires !HasId(Resting(b), id)
    ensures Withdraw(b, id) == (false, b)
  {
  }

  lemma CutKeeps(q: seq<Ord>, k: nat, side: Side, stop: bool)
    requires k < |q| && Held(q, side, stop) && Sorted(q)
    ensures Held(Cut(q, k), side, stop) && Sorted(Cut(q, k))
    ensures forall i :: 0 <= i < |Cut(q, k)| ==> Cut(q, k)[i] in q
  {
  }

  lemma RemoveKeeps(q: seq<Ord>, id: Id, side: Side, stop: bool)
    requires Held(q, side, stop) && Sorted(q)
    ensures Held(Remove(q, id), side, stop) && Sorted(Remove(q, id))
    ensures forall i :: 0 <= i < |Remove(q, id)| ==> Remove(q, id)[i] in q
  {
    FirstOrNone(q, id);
    if k :| 0 <= k < |q| && q[k].id == id && forall j :: 0 <= j < k ==> q[j].id != id {
      RemoveSplit(q, k);
      CutKeeps(q, k, side, stop);
    } else {
      RemoveAbsent(q, id);
    }
  }

  lemma {:induction false} RemoveTally(q: seq<Ord>, id: Id, x: Id)
    ensures Tally(Remove(q, id), HeadsOf(x)) <= Tally(q, HeadsOf(x))
  {
    if q != [] && q[0].id != id {
      RemoveTally(q[1..], id, x);
      TallyHead(Remove(q[1..], id), q[0], HeadsOf(x));
    }
  }

  lemma {:induction false} FirstOrNone(q: seq<Ord>, id: Id)
    ensures (forall i :: 0 <= i < |q| ==> q[i].id != id)
            || exists k :: 0 <= k < |q| && q[k].id == id && forall j :: 0 <= j < k ==> q[j].id != id
  {
    if q != [] && q[0].id != id {
      FirstOrNone(q[1..], id);
      if k :| 0 <= k < |q[1..]| && q[1..][k].id == id && forall j :: 0 <= j < k ==> q[1..][j].id != id {
        assert q[k + 1].id == id;
        assert forall j :: 0 < j < k + 1 ==> q[j] == q[1..][j - 1];
      } else {
        assert forall i :: 0 < i < |q| ==> q[i] == q[1..][i - 1];
      }
    }
  }

  lemma TakeKeeps(b: Book, id: Id)
    requires Shaped(b)
    ensures Shaped(Take(b, id))
    ensures Uncrossed(b) ==> Uncrossed(Take(b, id))
    ensures StopsQuiet(b, |b.tape|) ==> StopsQuiet(Take(b, id), |b.tape|)
  {
    RemoveKeeps(b.bids, id, Buy, false);
    RemoveKeeps(b.asks, id, Sell, false);
    RemoveKeeps(b.stopBuys, id, Buy, true);
    RemoveKeeps(b.stopSells, id, Sell, true);
  }

  lemma WithdrawGood(b: Book, id: Id)
    requires Good(b)
    ensures Good(Withdraw(b, id).1)
  {
    TakeKeeps(b, id);
    var t := Take(b, id);
    forall x ensures RestTally(t, HeadsOf(x)) + Tally([], HeadsOf(x)) <= 1 {
      assert RestTally(b, HeadsOf(x)) + Tally([], HeadsOf(x)) <= 1;
      RemoveTally(b.bids, id, x);
      RemoveTally(b.asks, id, x);
      RemoveTally(b.stopBuys, id, x);
      RemoveTally(b.stopSells, id, x);
    }
    assert Good(t);
  }

  // ---------- Submit, then cancel ----------

  lemma {:induction false} InsertAt(q: seq<Ord>, o: Ord)
    ensures var k := Pos(q, Rank(o)); Insert(q, o)[k] == o && Cut(Insert(q, o), k) == q
  {
  }

  /** Canceling the newcomer among the resting orders gives the book back. */
  lemma WithdrawNewStop(b: Book, o: Ord)
    requires Good(WithStop(b, o)) && o.Live() && o.IsStop()
    ensures Withdraw(WithStop(b, o), o.id) == (true, b.(closed := b.closed + [o.(status := Canceled)]))
  {
    var b1 := WithStop(b, o);
    var own := if o.side.Buy? then b.stopBuys else b.stopSells;
    var k := Pos(own, Rank(o));
    InsertAt(own, o);
    if o.side.Buy? {
      var i := |b1.bids| + |b1.asks| + k;
      assert Resting(b1)[i] == o;
      WithdrawLive(b1, i);
      TakeStopBuy(b1, k);
    } else {
      var i := |b1.bids| + |b1.asks| + |b1.stopBuys| + k;
      assert Resting(b1)[i] == o;
      WithdrawLive(b1, i);
      TakeStopSell(b1, k);
    }
  }

  lemma WithdrawNewBid(b: Book, o: Ord)
    requires Good(b.(bids := Insert(b.bids, o))) && o.Live()
    ensures Withdraw(b.(bids := Insert(b.bids, o)), o.id)
            == (true, b.(closed := b.closed + [o.(status := Canceled)]))
  {
    var b1, k := b.(bids := Insert(b.bids, o)), Pos(b.bids, Rank(o));
    InsertAt(b.bids, o);
    assert Resting(b1)[k] == o;
    WithdrawLive(b1, k);
    TakeBid(b1, k);
  }

  lemma WithdrawNewAsk(b: Book, o: Ord)
    requires Good(b.(asks := Insert(b.asks, o))) && o.Live()
    ensures Withdraw(b.(asks := Insert(b.asks, o)), o.id)
            == (true, b.(closed := b.closed + [o.(status := Canceled)]))
  {
    var b1, k := b.(asks := Insert(b.asks, o)), Pos(b.asks, Rank(o));
    InsertAt(b.asks, o);
    assert Resting(b1)[|b1.bids| + k] == o;
    WithdrawLive(b1, |b1.bids| + k);
    TakeAsk(b1, k);
  }

  /** When a submission is undone by canceling it: exactly for stops and for limit orders that
      find nothing acceptable on the other side. */
  predicate JustRests(b: Book, o: Ord) {
    o.IsStop() || (o.kind.Limit? && !CanTrade(b, o))
  }

  lemma JustRestsOnBook(b: Book, o: Ord)
    requires Good(b) && Submittable(o) && Submit(b, o).0 && JustRests(b, o)
    ensures var a := Accepted(b, o);
            Submit(b, o).1 == if a.IsStop() then WithStop(b, a) else WithResting(b, a)
  {
  }

  lemma TradesOrLeaves(b: Book, o: Ord)
    requires Good(b) && Submittable(o) && Submit(b, o).0 && !JustRests(b, o)
    ensures |b.tape| < |Submit(b, o).1.tape| || !HasId(Resting(Submit(b, o).1), o.id)
  {
    var a := Accepted(b, o);
    if CanTrade(b, a) {
      FirstTrade(b, a);
      CascadeTape(Settle(b, a), |b.tape|);
    } else {
      assert Submit(b, o).1 == Place(b, a);
    }
  }

  lemma FirstTrade(b: Book, inc: Ord)
    requires Shaped(b) && inc.InHand() && CanTrade(b, inc)
    ensures |b.tape| < |Settle(b, inc).tape|
  {
    TradeStepKeeps(b, inc);
    var (b1, inc1) := TradeStep(b, inc);
    CrossTape(b1, inc1);
    assert Cross(b, inc) == Cross(b1, inc1);
  }

  lemma {:induction false} CascadeTape(b: Book, from: nat)
    requires Shaped(b) && from < |b.tape|
    ensures b.tape <= Cascade(b, from).tape
    decreases Stops(b)
  {
    FireKeeps(b, from);
    var (b1, hand) := Fire(b, from);
    if hand != [] {
      SettleAllTape(b1, hand);
      var b2 := SettleAll(b1, hand);
      if |b2.tape| > |b.tape| {
        CascadeTape(b2, |b.tape|);
      }
    }
  }

  lemma WithdrawTape(b: Book, id: Id)
    ensures Withdraw(b, id).1.tape == b.tape
  {
  }

  lemma NothingToTrade(o: Ord)
    requires o.Live() && o.kind.Market?
    ensures Settle(EMPTY_BOOK, o) == EMPTY_BOOK.(closed := [o.Cancel().1])
  {
    assert Cross(EMPTY_BOOK, o) == (EMPTY_BOOK, o);
  }

  /** A market order on an empty book is gone before anyone can cancel it. */
  lemma MarketGone(o: Ord)
    requires o.Live() && o.kind.Market?
    ensures !JustRests(EMPTY_BOOK, o) && Submit(EMPTY_BOOK, o).0
    ensures Withdraw(Submit(EMPTY_BOOK, o).1, o.id) == (false, Submit(EMPTY_BOOK, o).1)
  {
    hide Settle, Cascade, Take;
    var a := Accepted(EMPTY_BOOK, o);
    NothingToTrade(a);
    var b := EMPTY_BOOK.(closed := [a.Cancel().1]);
    assert Submit(EMPTY_BOOK, o) == (true, b);
    assert Resting(b) == [];
  }

  /** Canceling an order right after submitting it restores every queue and prints nothing, if and
      only if the order just rested. */
  lemma CancelUndoesSubmit(b: Book, o: Ord)
    requires Good(b) && Submittable(o) && Submit(b, o).0
    ensures JustRests(b, o)
            <==> Withdraw(Submit(b, o).1, o.id)
                 == (true, b.(closed := b.closed + [Accepted(b, o).(status := Canceled)]))
  {
    SubmitGood(b, o);
    if JustRests(b, o) {
      JustRestsOnBook(b, o);
      if o.IsStop() {
        WithdrawNewStop(b, Accepted(b, o));
      } else if o.side.Buy? {
        WithdrawNewBid(b, Accepted(b, o));
      } else {
        WithdrawNewAsk(b, Accepted(b, o));
      }
    } else {
      TradesOrLeaves(b, o);
      WithdrawTape(Submit(b, o).1, o.id);
    }
  }
}
