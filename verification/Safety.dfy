/** What every step of the engine keeps: the book's shape, one order per id, an uncrossed book,
    and no resting stop that a trade printed since its arrival has reached. */
module Safety {
  import opened Orders
  import opened Queues
  import opened Matching
  import opened Engine
  import opened Machine
  import opened Tallies

  // ---------- One order per id ----------

  /** No two orders of the book or in hand carry the same id. */
  ghost predicate OneEach(b: Book, hand: seq<Ord>) {
    forall id :: RestTally(b, HeadsOf(id)) + Tally(hand, HeadsOf(id)) <= 1
  }

  lemma TallyLonger(p: seq<Ord>, q: seq<Ord>, id: Id)
    requires p <= q
    ensures Tally(p, HeadsOf(id)) <= Tally(q, HeadsOf(id))
  {
    assert q == p + q[|p|..];
    TallyAppend(p, q[|p|..], HeadsOf(id));
    TallyOf(q[|p|..], id);
  }

  lemma NextOneEach(s: Sys)
    requires Fit(s) && !Idle(s) && OneEach(s.book, s.hand)
    ensures OneEach(Next(s).book, Next(s).hand)
  {
    var t := Next(s);
    forall id ensures RestTally(t.book, HeadsOf(id)) + Tally(t.hand, HeadsOf(id)) <= 1 {
      var m := HeadsOf(id);
      NextLedger(s, m);
      TallyLonger(s.book.closed, t.book.closed, id);
      PrintsNoHeads(s.book.tape, id);
      PrintsNoHeads(t.book.tape, id);
      assert RestTally(s.book, m) + Tally(s.hand, m) <= 1;
    }
  }

  lemma {:induction false} PrintsNoHeads(ts: seq<Trade>, id: Id)
    ensures Printed(ts, HeadsOf(id)) == 0
  {
    if ts != [] { PrintsNoHeads(ts[..|ts| - 1], id); }
  }

  // ---------- Never crossed ----------

  ghost predicate Uncrossed(b: Book) {
    forall i, j :: 0 <= i < |b.bids| && 0 <= j < |b.asks| ==> b.bids[i].price < b.asks[j].price
  }

  lemma TradeStepUncrossed(b: Book, inc: Ord)
    requires Shaped(b) && inc.InHand() && CanTrade(b, inc) && Uncrossed(b)
    ensures Uncrossed(TradeStep(b, inc).0)
  {
    var q := Opposite(b, inc.side);
    var q' := Opposite(TradeStep(b, inc).0, inc.side);
    assert forall i :: 0 <= i < |q'| ==> exists j :: 0 <= j < |q| && q[j].price == q'[i].price by {
      forall i | 0 <= i < |q'| ensures exists j :: 0 <= j < |q| && q[j].price == q'[i].price {
        var j := i + |q| - |q'|;
        assert q[j].price == q'[i].price;
      }
    }
  }

  /** A limit remainder rests only where nothing on the other side is acceptable to it. */
  lemma PlaceUncrossed(b: Book, inc: Ord)
    requires Shaped(b) && inc.InHand() && !CanTrade(b, inc) && Uncrossed(b)
    ensures Uncrossed(Place(b, inc))
  {
    if inc.remaining > 0 && inc.kind.Limit? {
      var own, q := if inc.side.Buy? then b.bids else b.asks, Opposite(b, inc.side);
      forall j | 0 <= j < |q| ensures !Eligible(inc, q[j]) {
        assert Rank(q[0]) <= Rank(q[j]);
      }
      InsertMembers(own, inc);
    }
  }

  // ---------- Stops that rest have not been reached ----------

  predicate Reaches(p: Price, o: Ord) {
    if o.side.Buy? then o.stopPrice <= p else p <= o.stopPrice
  }

  /** No trade of `ts` printed since `o` was accepted reaches its stop price. */
  ghost predicate Unreached(o: Ord, ts: seq<Trade>) {
    o.stamp <= |ts| && forall k :: o.stamp <= k < |ts| ==> !Reaches(ts[k].price, o)
  }

  ghost predicate Quiet(q: seq<Ord>, ts: seq<Trade>) {
    forall i :: 0 <= i < |q| ==> Unreached(q[i], ts)
  }

  ghost predicate StopsQuiet(b: Book, seen: nat) {
    seen <= |b.tape| && Quiet(b.stopBuys, b.tape[..seen]) && Quiet(b.stopSells, b.tape[..seen])
  }

  lemma FireQuiet(b: Book, from: nat)
    requires Shaped(b) && from < |b.tape| && StopsQuiet(b, from)
    ensures StopsQuiet(Fire(b, from).0, |b.tape|)
  {
    var ts := b.tape[from..];
    LowestAtMostHighest(ts);
    var b' := Fire(b, from).0;
    PosSplits(b.stopBuys, Highest(ts));
    PosSplits(b.stopSells, -Lowest(ts));
    var all := b.tape[..|b.tape|];
    forall i | 0 <= i < |b'.stopBuys| ensures Unreached(b'.stopBuys[i], all) {
      var o := b'.stopBuys[i];
      assert o == b.stopBuys[i + |b.stopBuys| - |b'.stopBuys|];
      SeenThenRest(o, b.tape, from);
    }
    forall i | 0 <= i < |b'.stopSells| ensures Unreached(b'.stopSells[i], all) {
      var o := b'.stopSells[i];
      assert o == b.stopSells[i + |b.stopSells| - |b'.stopSells|];
      SeenThenRest(o, b.tape, from);
    }
  }

  lemma SeenThenRest(o: Ord, tape: seq<Trade>, from: nat)
    requires from <= |tape| && Unreached(o, tape[..from])
    requires forall k :: 0 <= k < |tape[from..]| ==> !Reaches(tape[from..][k].price, o)
    ensures Unreached(o, tape[..|tape|])
  {
    forall k | o.stamp <= k < |tape| ensures !Reaches(tape[k].price, o) {
      if k < from { assert tape[..from][k] == tape[k]; }
      else { assert tape[from..][k - from] == tape[k]; }
    }
  }

  // ---------- Leaving the book ----------

  /** Whatever left the book is completely filled or canceled. */
  ghost predicate Over(q: seq<Ord>) {
    forall i :: 0 <= i < |q| ==> q[i].status.Canceled? || (q[i].status.Filled? && q[i].remaining == 0)
  }

  lemma NextOver(s: Sys)
    requires Fit(s) && !Idle(s) && Over(s.book.closed)
    ensures Over(Next(s).book.closed)
  {
    if s.hand != [] {
      assert s.hand[0].InHand();
      if CanTrade(s.book, s.hand[0]) {
        TradeStepKeeps(s.book, s.hand[0]);
      }
    }
  }

  // ---------- The invariant ----------

  ghost predicate Inv(s: Sys) {
    && Fit(s)
    && OneEach(s.book, s.hand)
    && Uncrossed(s.book)
    && StopsQuiet(s.book, s.seen)
    && Over(s.book.closed)
  }

  lemma NextInv(s: Sys)
    requires Inv(s) && !Idle(s)
    ensures Inv(Next(s))
  {
    NextFit(s);
    NextOneEach(s);
    NextOver(s);
    if s.hand == [] {
      FireQuiet(s.book, s.seen);
    } else if CanTrade(s.book, s.hand[0]) {
      TradeStepUncrossed(s.book, s.hand[0]);
      var b := TradeStep(s.book, s.hand[0]).0;
      assert b.tape[..s.seen] == s.book.tape[..s.seen];
    } else {
      PlaceUncrossed(s.book, s.hand[0]);
    }
  }

  lemma {:induction false} DrainInv(s: Sys)
    requires Inv(s)
    ensures Inv(Drain(s))
    decreases Stops(s.book), |s.hand|, Urgency(s)
  {
    if !Idle(s) {
      NextInv(s);
      NextDescends(s);
      DrainInv(Next(s));
    }
  }

  // ---------- Public calls ----------

  /** What holds of the book between calls. */
  ghost predicate Good(b: Book) {
    && Shaped(b)
    && OneEach(b, [])
    && Uncrossed(b)
    && StopsQuiet(b, |b.tape|)
    && Over(b.closed)
  }

  lemma FreshId(b: Book, o: Ord, id: Id)
    requires OneEach(b, []) && !HasId(Resting(b), o.id)
    ensures RestTally(b, HeadsOf(id)) + One(o, HeadsOf(id)) <= 1
  {
    assert RestTally(b, HeadsOf(id)) + Tally([], HeadsOf(id)) <= 1;
    if id == o.id {
      TallyOf(Resting(b), id);
      RestingTally(b, HeadsOf(id));
    }
  }

  /** A new order, under an id that is not in use, starts a run of the machine. */
  lemma AcceptedInv(b: Book, o: Ord)
    requires Good(b) && o.InHand() && !HasId(Resting(b), o.id)
    ensures Inv(Sys(b, [o], |b.tape|))
  {
    forall id ensures RestTally(b, HeadsOf(id)) + Tally([o], HeadsOf(id)) <= 1 {
      FreshId(b, o, id);
      assert Tally([o], HeadsOf(id)) == One(o, HeadsOf(id));
    }
  }

  lemma ProcessGood(b: Book, o: Ord)
    requires Good(b) && o.InHand() && !HasId(Resting(b), o.id)
    ensures Good(Process(b, o))
  {
    var s := Sys(b, [o], |b.tape|);
    AcceptedInv(b, o);
    assert Inv(Drain(s)) by { DrainInv(s); }
    ProcessDrains(b, o);
  }

  lemma StopGood(b: Book, o: Ord)
    requires Good(b) && o.IsStop() && o.Live() && o.stamp == |b.tape| && !HasId(Resting(b), o.id)
    ensures Good(WithStop(b, o))
  {
    WithStopKeeps(b, o);
    NewStopQuiet(b, o);
    forall id ensures RestTally(WithStop(b, o), HeadsOf(id)) + Tally([], HeadsOf(id)) <= 1 {
      FreshId(b, o, id);
      TallyInsert(b.stopBuys, o, HeadsOf(id));
      TallyInsert(b.stopSells, o, HeadsOf(id));
    }
  }

  lemma SubmitGood(b: Book, o: Ord)
    requires Good(b) && Submittable(o)
    ensures Good(Submit(b, o).1)
  {
    if Submit(b, o).0 {
      if o.IsStop() {
        StopGood(b, Accepted(b, o));
      } else {
        ProcessGood(b, Accepted(b, o));
      }
    }
  }

  /** A new stop looks only forward: earlier trades do not trigger it. */
  lemma NewStopQuiet(b: Book, o: Ord)
    requires StopsQuiet(b, |b.tape|) && o.stamp == |b.tape|
    ensures StopsQuiet(WithStop(b, o), |b.tape|)
  {
    InsertMembers(b.stopBuys, o);
    InsertMembers(b.stopSells, o);
  }

  lemma EmptyGood()
    ensures Good(EMPTY_BOOK)
  {
  }
}
