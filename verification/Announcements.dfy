/** Who hears about a submission: the parties of its trades and the submitter. What happens to
    everybody else. */
module Announcements {
  import opened Orders
  import opened Queues
  import opened Matching
  import opened Engine
  import opened Machine
  import opened Safety
  import opened Tallies

  ghost predicate Named(ts: seq<Trade>, id: Id) {
    exists k :: 0 <= k < |ts| && (ts[k].buyId == id || ts[k].sellId == id)
  }

  /** The order is the submitted one or party to a trade printed since the tape had length `n`. */
  ghost predicate Told(b: Book, n: nat, submitted: Id, id: Id) {
    id == submitted || (n <= |b.tape| && Named(b.tape[n..], id))
  }

  /** A stop that was triggered without trading: a stop-limit order now rests on the book, a stop
      order was canceled for want of anything to trade with. */
  predicate Silently(p: Ord, o: Ord) {
    || (p.kind.StopLimit? && o == p.(kind := Limit))
    || (p.kind.Stop? && o == p.(kind := Market, status := Canceled))
  }

  /** Orders on the book `b'`, or gone from it since it was `b`. */
  function Current(b: Book, b': Book): seq<Ord>
    requires b.closed <= b'.closed
  {
    b'.bids + b'.asks + b'.closed[|b.closed|..]
  }

  function AllStops(b: Book): seq<Ord> {
    b.stopBuys + b.stopSells
  }

  ghost predicate WasStop(b: Book, o: Ord) {
    exists p :: p in AllStops(b) && p.Live() && p.IsStop() && o == p.Trigger().1
  }

  ghost predicate WentSilently(b: Book, o: Ord) {
    exists p :: p in AllStops(b) && Silently(p, o)
  }

  /** The order was on the book `b`, or waited there as a stop and changed silently. */
  ghost predicate Untouched(b: Book, o: Ord) {
    o in b.bids + b.asks || WentSilently(b, o)
  }

  /** Where every order of a run that began with book `b` comes from. */
  ghost predicate Traced(s: Sys, b: Book, submitted: Id) {
    && |b.tape| <= |s.book.tape| && b.closed <= s.book.closed
    && (forall o {:trigger o in AllStops(s.book)} :: o in AllStops(s.book) ==> o in AllStops(b))
    && (forall o {:trigger o in s.hand} :: o in s.hand ==>
          Told(s.book, |b.tape|, submitted, o.id) || WasStop(b, o))
    && (forall o {:trigger o in Current(b, s.book)} :: o in Current(b, s.book) ==>
          Told(s.book, |b.tape|, submitted, o.id) || Untouched(b, o))
  }

  lemma ToldMore(b: Book, b': Book, n: nat, submitted: Id, id: Id)
    requires b.tape <= b'.tape && Told(b, n, submitted, id)
    ensures Told(b', n, submitted, id)
  {
    if id != submitted {
      var k :| 0 <= k < |b.tape[n..]| && (b.tape[n..][k].buyId == id || b.tape[n..][k].sellId == id);
      assert b'.tape[n..][k] == b.tape[n..][k];
    }
  }

  lemma JustTold(b: Book, t: Trade, n: nat, submitted: Id, id: Id)
    requires n <= |b.tape| && b.tape != [] && b.tape[|b.tape| - 1] == t && n < |b.tape|
    requires t.buyId == id || t.sellId == id
    ensures Told(b, n, submitted, id)
  {
    assert b.tape[n..][|b.tape| - 1 - n] == t;
  }

  /** A trade changes its two parties, whom it names, and nobody else. */
  lemma TradeTouches(b0: Book, b: Book, inc: Ord, o: Ord)
    requires Shaped(b) && inc.InHand() && CanTrade(b, inc) && b0.closed <= b.closed
    requires o in Current(b0, TradeStep(b, inc).0)
    ensures o in Current(b0, b) || o.id == Opposite(b, inc.side)[0].id
  {
    var q := Opposite(b, inc.side);
    assert q == [q[0]] + q[1..];
  }

  lemma TradeTraced(s: Sys, b: Book, submitted: Id)
    requires Fit(s) && Traced(s, b, submitted) && s.hand != [] && CanTrade(s.book, s.hand[0])
    ensures Traced(Next(s), b, submitted)
  {
    hide Told, WasStop, Untouched, Named, Current;
    var inc, q := s.hand[0], Opposite(s.book, s.hand[0].side);
    assert inc.InHand();
    var t, n := Next(s), |b.tape|;
    TradeStepKeeps(s.book, inc);
    var trade := t.book.tape[|t.book.tape| - 1];
    assert s.book.tape <= t.book.tape;
    forall o | o in t.hand ensures Told(t.book, n, submitted, o.id) || WasStop(b, o) {
      if o == t.hand[0] {
        JustTold(t.book, trade, n, submitted, o.id);
      } else {
        assert o in s.hand[1..] && o in s.hand;
        if Told(s.book, n, submitted, o.id) { ToldMore(s.book, t.book, n, submitted, o.id); }
      }
    }
    forall o | o in Current(b, t.book) ensures Told(t.book, n, submitted, o.id) || Untouched(b, o) {
      TradeTouches(b, s.book, inc, o);
      if o.id == q[0].id {
        JustTold(t.book, trade, n, submitted, o.id);
      } else if Told(s.book, n, submitted, o.id) {
        ToldMore(s.book, t.book, n, submitted, o.id);
      }
    }
    assert AllStops(t.book) == AllStops(s.book);
  }

  lemma PlacedSilently(b: Book, inc: Ord, o: Ord)
    requires WasStop(b, inc) && !inc.IsStop()
    requires if inc.kind.Market? && inc.remaining > 0 then o == inc.Cancel().1 else o == inc
    ensures Untouched(b, o)
  {
    var p :| p in AllStops(b) && p.Live() && p.IsStop() && inc == p.Trigger().1;
    assert Silently(p, o);
  }

  lemma PlaceTraced(s: Sys, b: Book, submitted: Id)
    requires Fit(s) && Traced(s, b, submitted) && s.hand != [] && !CanTrade(s.book, s.hand[0])
    ensures Traced(Next(s), b, submitted)
  {
    hide Told, WasStop, Untouched, Named, Current;
    var inc, t, n := s.hand[0], Next(s), |b.tape|;
    assert inc.InHand() && inc in s.hand;
    assert s.book.tape == t.book.tape;
    forall o | o in t.hand ensures Told(t.book, n, submitted, o.id) || WasStop(b, o) {
      assert o in s.hand;
      if Told(s.book, n, submitted, o.id) { ToldMore(s.book, t.book, n, submitted, o.id); }
    }
    forall o | o in Current(b, t.book) ensures Told(t.book, n, submitted, o.id) || Untouched(b, o) {
      PlaceExact(b, s.book, inc, o);
      if o in Current(b, s.book) {
        if Told(s.book, n, submitted, o.id) { ToldMore(s.book, t.book, n, submitted, o.id); }
      } else if Told(s.book, n, submitted, inc.id) {
        ToldMore(s.book, t.book, n, submitted, inc.id);
      } else {
        PlacedSilently(b, inc, o);
      }
    }
    assert AllStops(t.book) == AllStops(s.book);
  }

  /** A market remainder is never placed as it is. */
  lemma PlaceExact(b0: Book, b: Book, inc: Ord, o: Ord)
    requires inc.InHand() && b0.closed <= b.closed && o in Current(b0, Place(b, inc))
    ensures o in Current(b0, b) || (if inc.kind.Market? && inc.remaining > 0 then o == inc.Cancel().1 else o == inc)
  {
    InsertMembers(b.bids, inc);
    InsertMembers(b.asks, inc);
  }

  lemma ReachedAreStops(b: Book, lo: Price, hi: Price, i: nat)
    requires Shaped(b) && lo <= hi && i < |Reached(b, lo, hi)|
    ensures var p := Reached(b, lo, hi)[i]; p in AllStops(b) && p.Live() && p.IsStop()
  {
    ReachedLive(b, lo, hi);
  }

  lemma LeftAreStops(b: Book, lo: Price, hi: Price, o: Ord)
    requires lo <= hi && o in AllStops(WithoutReached(b, lo, hi))
    ensures o in AllStops(b)
  {
  }

  /** A round of triggering takes live stops into the hand. */
  lemma FireTakes(b: Book, from: nat, o: Ord)
    requires Shaped(b) && from < |b.tape|
    ensures o in Fire(b, from).1 ==> WasStop(b, o)
    ensures o in AllStops(Fire(b, from).0) ==> o in AllStops(b)
  {
    hide Reached, AllStops, Shaped;
    var ts := b.tape[from..];
    LowestAtMostHighest(ts);
    var reached := Reached(b, Lowest(ts), Highest(ts));
    if o in Fire(b, from).1 {
      var i :| 0 <= i < |reached| && reached[i].Trigger().1 == o;
      ReachedAreStops(b, Lowest(ts), Highest(ts), i);
    }
    if o in AllStops(Fire(b, from).0) {
      LeftAreStops(b, Lowest(ts), Highest(ts), o);
    }
  }

  /** It touches nothing else. */
  lemma FireLeaves(b: Book, from: nat)
    requires from < |b.tape|
    ensures var b' := Fire(b, from).0;
            b'.bids == b.bids && b'.asks == b.asks && b'.closed == b.closed && b'.tape == b.tape
  {
  }

  lemma FireTraced(s: Sys, b: Book, submitted: Id)
    requires Fit(s) && Traced(s, b, submitted) && s.hand == [] && !Idle(s)
    ensures Traced(Next(s), b, submitted)
  {
    hide Told, Untouched, Named, Fire, AllStops;
    var t := Next(s);
    FireLeaves(s.book, s.seen);
    forall o | o in t.hand ensures WasStop(b, o) {
      FireTakes(s.book, s.seen, o);
      var p :| p in AllStops(s.book) && p.Live() && p.IsStop() && o == p.Trigger().1;
      assert p in AllStops(b);
    }
    forall o | o in Current(b, t.book) ensures Told(t.book, |b.tape|, submitted, o.id) || Untouched(b, o) {
      assert o in Current(b, s.book);
      if Told(s.book, |b.tape|, submitted, o.id) { ToldMore(s.book, t.book, |b.tape|, submitted, o.id); }
    }
    forall o | o in AllStops(t.book) ensures o in AllStops(b) {
      FireTakes(s.book, s.seen, o);
    }
  }

  lemma {:induction false} DrainTraced(s: Sys, b: Book, submitted: Id)
    requires Fit(s) && Traced(s, b, submitted)
    ensures Traced(Drain(s), b, submitted)
    decreases Stops(s.book), |s.hand|, Urgency(s)
  {
    hide Traced, Next;
    if !Idle(s) {
      NextFit(s);
      NextDescends(s);
      if s.hand == [] {
        FireTraced(s, b, submitted);
      } else if CanTrade(s.book, s.hand[0]) {
        TradeTraced(s, b, submitted);
      } else {
        PlaceTraced(s, b, submitted);
      }
      DrainTraced(Next(s), b, submitted);
    }
  }

  /** After a submission, whatever left the book before is as it was; and whoever is neither the
      submitted order nor named in a trade of the call was resting just so before, or is a stop that
      was triggered without trading: nobody hears of that. */
  lemma UntoldOnlySilently(b: Book, o: Ord, x: Ord)
    requires Good(b) && Submittable(o) && Submit(b, o).0
    ensures b.closed <= Submit(b, o).1.closed
    ensures var b' := Submit(b, o).1;
            && (x in AllStops(b') && !Told(b', |b.tape|, o.id, x.id) ==> x in AllStops(b))
            && (x in Current(b, b') && !Told(b', |b.tape|, o.id, x.id) ==> Untouched(b, x))
  {
    hide Process, Untouched, WasStop;
    var a := Accepted(b, o);
    if a.IsStop() {
      StopTraced(b, a, x);
    } else {
      ProcessTraced(b, a);
    }
  }

  lemma StopTraced(b: Book, a: Ord, x: Ord)
    requires a.IsStop()
    ensures var b' := WithStop(b, a);
            && b.closed <= b'.closed
            && (x in AllStops(b') && x.id != a.id ==> x in AllStops(b))
            && (x in Current(b, b') ==> Untouched(b, x))
  {
    assert b.closed[|b.closed|..] == [];
    InsertMembers(b.stopBuys, a);
    InsertMembers(b.stopSells, a);
  }

  lemma ProcessTraced(b: Book, a: Ord)
    requires Shaped(b) && a.InHand()
    ensures Traced(Sys(Process(b, a), [], |Process(b, a).tape|), b, a.id)
  {
    hide Process;
    var s := Sys(b, [a], |b.tape|);
    ProcessDrains(b, a);
    assert b.closed[|b.closed|..] == [];
    assert Traced(s, b, a.id);
    hide Traced;
    DrainTraced(s, b, a.id);
  }

  // ---------- It does happen ----------

  const RESTING := Ord("a", Sell, Limit, 10.0, 0.0, 1, 1, Pending, 0)
  const WAITING := Ord("s", Buy, Stop, 0.0, 10.0, 1, 1, Pending, 0)
  const TAKER := Ord("b", Buy, Limit, 10.0, 0.0, 1, 1, Pending, 0)

  const BEFORE := EMPTY_BOOK.(asks := [RESTING], stopBuys := [WAITING])
  const TRADED := EMPTY_BOOK.(stopBuys := [WAITING], tape := [Trade("b", "a", 10.0, 1)],
                              closed := [RESTING.(remaining := 0, status := Filled),
                                         TAKER.(remaining := 0, status := Filled)])
  const CANCELED := TRADED.(stopBuys := [],
                            closed := TRADED.closed + [WAITING.(kind := Market, status := Canceled)])

  /** After the one trade, before the taker is dropped. */
  const FILLED := EMPTY_BOOK.(stopBuys := [WAITING], tape := [Trade("b", "a", 10.0, 1)],
                              closed := [RESTING.(remaining := 0, status := Filled)])
  const TAKEN := TAKER.(remaining := 0, status := Filled)

  lemma TakerStep()
    ensures CanTrade(BEFORE, TAKER) && TradeStep(BEFORE, TAKER) == (FILLED, TAKEN)
  {
    assert Opposite(BEFORE, Buy) == [RESTING] && [RESTING][1..] == [];
    assert RESTING.Fill(1) == (true, RESTING.(remaining := 0, status := Filled)) && TAKER.Fill(1) == (true, TAKEN);
    assert BEFORE.tape + [Trade("b", "a", 10.0, 1)] == FILLED.tape;
    assert BEFORE.closed + [RESTING.(remaining := 0, status := Filled)] == FILLED.closed;
    assert TradeBetween(TAKER, RESTING, 1) == Trade("b", "a", 10.0, 1);
  }

  lemma TakerTrades()
    ensures Shaped(BEFORE) && TAKER.InHand() && Settle(BEFORE, TAKER) == TRADED
  {
    hide TradeStep;
    assert RESTING.Live() && WAITING.Live();
    TakerStep();
    TradeStepKeeps(BEFORE, TAKER);
    assert Cross(FILLED, TAKEN) == (FILLED, TAKEN);
    assert Cross(BEFORE, TAKER) == (FILLED, TAKEN);
    assert FILLED.closed + [TAKEN] == TRADED.closed;
  }

  lemma StopCanceled()
    requires Shaped(TRADED)
    ensures Cascade(TRADED, 0) == CANCELED
  {
    var market, after := WAITING.(kind := Market), TRADED.(stopBuys := []);
    var ts := TRADED.tape[0..];
    assert ts == [Trade("b", "a", 10.0, 1)];
    assert Lowest(ts) == 10.0 && Highest(ts) == 10.0;
    assert [WAITING][1..] == [] && Pos([], 10.0) == 0 && Pos([WAITING], 10.0) == 1;
    assert Reached(TRADED, 10.0, 10.0) == [WAITING];
    assert Triggered([WAITING]) == [market];
    assert Fire(TRADED, 0) == (after, [market]);
    FireKeeps(TRADED, 0);
    assert Cross(after, market) == (after, market);
    assert Settle(after, market) == CANCELED;
    assert [market][1..] == [];
    assert SettleAll(CANCELED, []) == CANCELED;
    assert SettleAll(after, [market]) == CANCELED;
  }

  /** The taker's trade triggers the waiting stop, which finds nothing to trade with. */
  lemma CanceledUnheard()
    ensures Good(BEFORE) && Submittable(TAKER)
    ensures WAITING.(kind := Market, status := Canceled) in Submit(BEFORE, TAKER).1.closed
    ensures !Told(Submit(BEFORE, TAKER).1, |BEFORE.tape|, "b", "s")
  {
    hide Settle, Cascade;
    TakerTrades();
    StopCanceled();
    OneOfEach();
    assert Good(BEFORE);
    assert !HasId(Resting(BEFORE), "b");
    assert Accepted(BEFORE, TAKER) == TAKER;
    assert Submit(BEFORE, TAKER).1 == CANCELED;
    assert CANCELED.closed[2] == WAITING.(kind := Market, status := Canceled);
    assert CANCELED.tape[0..] == [Trade("b", "a", 10.0, 1)];
  }

  lemma OneOfEach()
    ensures OneEach(BEFORE, [])
  {
    assert "a"[0] != "s"[0];
    forall id ensures RestTally(BEFORE, HeadsOf(id)) + Tally([], HeadsOf(id)) <= 1 {
      assert [RESTING][1..] == [] && [WAITING][1..] == [];
      assert Tally([RESTING], HeadsOf(id)) == One(RESTING, HeadsOf(id));
      assert Tally([WAITING], HeadsOf(id)) == One(WAITING, HeadsOf(id));
    }
  }
}
