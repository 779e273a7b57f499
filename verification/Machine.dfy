/** The engine once more, as a flat transition system: orders in hand, one small step at a time.
    Everything that holds after every step of a submission is proved here and carried over to
    the nested definition (`Engine.Submit`) by the refinement lemmas at the end. */
module Machine {
  import opened Orders
  import opened Queues
  import opened Matching
  import opened Engine

  /** `hand[0]` is being matched and the rest of `hand` waits, accepted but in no queue; stops
      have been checked against the first `seen` trades of the tape. */
  datatype Sys = Sys(book: Book, hand: seq<Ord>, seen: nat)

  ghost predicate Fit(s: Sys) {
    Shaped(s.book) && Ready(s.hand)
  }

  predicate Idle(s: Sys) {
    s.hand == [] && s.seen >= |s.book.tape|
  }

  function Next(s: Sys): Sys
    requires !Idle(s)
  {
    if s.hand == [] then
      var (b, hand) := Fire(s.book, s.seen);
      Sys(b, hand, |s.book.tape|)
    else if CanTrade(s.book, s.hand[0]) then
      var (b, inc) := TradeStep(s.book, s.hand[0]);
      Sys(b, [inc] + s.hand[1..], s.seen)
    else
      Sys(Place(s.book, s.hand[0]), s.hand[1..], s.seen)
  }

  lemma NextFit(s: Sys)
    requires Fit(s) && !Idle(s)
    ensures Fit(Next(s))
  {
    if s.hand == [] {
      FireKeeps(s.book, s.seen);
    } else if CanTrade(s.book, s.hand[0]) {
      TradeStepKeeps(s.book, s.hand[0]);
    } else {
      PlaceKeeps(s.book, s.hand[0]);
    }
  }

  function Urgency(s: Sys): nat {
    if s.hand == [] then (if s.seen < |s.book.tape| then 1 else 0) else TradesLeft(s.book, s.hand[0])
  }

  lemma NextDescends(s: Sys)
    requires Fit(s) && !Idle(s)
    ensures var t := Next(s);
            Stops(t.book) < Stops(s.book)
            || (Stops(t.book) == Stops(s.book) && |t.hand| < |s.hand|)
            || (Stops(t.book) == Stops(s.book) && |t.hand| == |s.hand| && Urgency(t) < Urgency(s))
  {
    if s.hand == [] {
      FireKeeps(s.book, s.seen);
    } else if CanTrade(s.book, s.hand[0]) {
      TradeStepKeeps(s.book, s.hand[0]);
    }
  }

  /** Runs the machine to a standstill; that it gets there is the termination of the cascade. */
  function Drain(s: Sys): (r: Sys)
    requires Fit(s)
    ensures Fit(r) && Idle(r)
    decreases Stops(s.book), |s.hand|, Urgency(s)
  {
    if Idle(s) then s
    else
      NextFit(s);
      NextDescends(s);
      Drain(Next(s))
  }

  // ---------- The nested definitions refine the machine ----------

  lemma {:induction false} CrossDrains(b: Book, inc: Ord, rest: seq<Ord>, seen: nat)
    requires Fit(Sys(b, [inc] + rest, seen)) && inc.InHand()
    ensures Ready([Cross(b, inc).1] + rest)
    ensures Drain(Sys(b, [inc] + rest, seen)) == Drain(Sys(Cross(b, inc).0, [Cross(b, inc).1] + rest, seen))
    decreases TradesLeft(b, inc)
  {
    if CanTrade(b, inc) {
      TradeStepKeeps(b, inc);
      var s := Sys(b, [inc] + rest, seen);
      var (b', inc') := TradeStep(b, inc);
      assert s.hand[1..] == rest;
      NextFit(s);
      assert Drain(s) == Drain(Next(s));
      CrossDrains(b', inc', rest, seen);
    }
  }

  lemma SettleDrains(b: Book, inc: Ord, rest: seq<Ord>, seen: nat)
    requires Fit(Sys(b, [inc] + rest, seen)) && inc.InHand()
    ensures Ready(rest)
    ensures Drain(Sys(b, [inc] + rest, seen)) == Drain(Sys(Settle(b, inc), rest, seen))
  {
    CrossDrains(b, inc, rest, seen);
    assert forall i :: 0 <= i < |rest| ==> rest[i] == ([inc] + rest)[i + 1];
    PlaceDrains(Cross(b, inc).0, Cross(b, inc).1, rest, seen);
  }

  lemma PlaceDrains(b: Book, inc: Ord, rest: seq<Ord>, seen: nat)
    requires Fit(Sys(b, [inc] + rest, seen)) && Ready(rest) && inc.InHand() && !CanTrade(b, inc)
    ensures Shaped(Place(b, inc))
    ensures Drain(Sys(b, [inc] + rest, seen)) == Drain(Sys(Place(b, inc), rest, seen))
  {
    PlaceKeeps(b, inc);
    var s := Sys(b, [inc] + rest, seen);
    assert s.hand[1..] == rest;
    assert Next(s) == Sys(Place(b, inc), rest, seen);
  }

  lemma {:induction false} SettleAllDrains(b: Book, hand: seq<Ord>, seen: nat)
    requires Fit(Sys(b, hand, seen))
    ensures Drain(Sys(b, hand, seen)) == Drain(Sys(SettleAll(b, hand), [], seen))
    decreases |hand|
  {
    if hand != [] {
      assert hand == [hand[0]] + hand[1..];
      SettleDrains(b, hand[0], hand[1..], seen);
      SettleAllDrains(Settle(b, hand[0]), hand[1..], seen);
    }
  }

  lemma {:induction false} CrossTape(b: Book, inc: Ord)
    requires Shaped(b) && inc.InHand()
    ensures b.tape <= Cross(b, inc).0.tape
    decreases TradesLeft(b, inc)
  {
    if CanTrade(b, inc) {
      TradeStepKeeps(b, inc);
      CrossTape(TradeStep(b, inc).0, TradeStep(b, inc).1);
    }
  }

  lemma {:induction false} SettleAllTape(b: Book, hand: seq<Ord>)
    requires Shaped(b) && Ready(hand)
    ensures b.tape <= SettleAll(b, hand).tape
    decreases |hand|
  {
    if hand != [] {
      SettleTape(b, hand[0]);
      SettleAllTape(Settle(b, hand[0]), hand[1..]);
    }
  }

  lemma {:induction false} CascadeDrains(b: Book, from: nat)
    requires Shaped(b) && from < |b.tape|
    ensures Drain(Sys(b, [], from)).book == Cascade(b, from)
    decreases Stops(b)
  {
    FireKeeps(b, from);
    var (b1, hand) := Fire(b, from);
    assert Next(Sys(b, [], from)) == Sys(b1, hand, |b.tape|);
    if hand != [] {
      SettleAllDrains(b1, hand, |b.tape|);
      SettleAllTape(b1, hand);
      var b2 := SettleAll(b1, hand);
      if |b2.tape| > |b.tape| {
        CascadeDrains(b2, |b.tape|);
      }
    }
  }

  lemma SettleTape(b: Book, inc: Ord)
    requires Shaped(b) && inc.InHand()
    ensures b.tape <= Settle(b, inc).tape
  {
    CrossTape(b, inc);
  }

  /** Settling an order and its cascade is exactly a run of the machine. */
  lemma ProcessDrains(b: Book, inc: Ord)
    requires Shaped(b) && inc.InHand()
    ensures Fit(Sys(b, [inc], |b.tape|))
    ensures Drain(Sys(b, [inc], |b.tape|)) == Sys(Process(b, inc), [], |Process(b, inc).tape|)
  {
    hide Settle, Cascade, Next;
    var b' := Settle(b, inc);
    assert [inc] + [] == [inc];
    SettleDrains(b, inc, [], |b.tape|);
    SettleTape(b, inc);
    DrainSeen(Sys(b', [], |b.tape|));
    if |b'.tape| > |b.tape| {
      CascadeDrains(b', |b.tape|);
    }
  }

  lemma {:induction false} DrainSeen(s: Sys)
    requires Fit(s) && s.seen <= |s.book.tape|
    ensures var r := Drain(s); r == Sys(r.book, [], |r.book.tape|)
    decreases Stops(s.book), |s.hand|, Urgency(s)
  {
    if !Idle(s) {
      NextFit(s);
      NextDescends(s);
      DrainSeen(Next(s));
    }
  }
}
