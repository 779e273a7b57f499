/** Why there are fewer trades than orders: every trade uses up at least one of its two sides. */
module TradeBound {
  import opened Orders
  import opened Queues
  import opened Matching
  import opened Engine
  import opened Machine

  /** How many more orders have left the book than trades were printed. */
  function Slack(b: Book): int {
    |b.closed| - |b.tape|
  }

  predicate SomeoneRests(b: Book) {
    b.bids != [] || b.asks != []
  }

  /** Matching and placing one order prints no more trades than it closes orders, and equality
      leaves somebody resting on the book. */
  lemma {:induction false} SettleSlack(b: Book, inc: Ord)
    requires Shaped(b) && inc.Live() && !inc.IsStop()
    ensures Slack(b) <= Slack(Settle(b, inc))
    ensures Slack(b) == Slack(Settle(b, inc)) ==> SomeoneRests(Settle(b, inc))
    decreases TradesLeft(b, inc)
  {
    if CanTrade(b, inc) {
      TradeStepKeeps(b, inc);
      var (b', inc') := TradeStep(b, inc);
      if inc'.remaining > 0 {
        SettleSlack(b', inc');
      } else {
        assert Cross(b', inc') == (b', inc');
        assert Settle(b, inc) == Place(b', inc');
      }
    } else if inc.kind.Limit? {
      assert Settle(b, inc) == WithResting(b, inc);
      assert inc in Insert(b.bids, inc) && inc in Insert(b.asks, inc);
    }
  }

  ghost predicate AllLive(hand: seq<Ord>) {
    forall i :: 0 <= i < |hand| ==> hand[i].Live() && !hand[i].IsStop()
  }

  lemma {:induction false} SettleAllSlack(b: Book, hand: seq<Ord>)
    requires Shaped(b) && AllLive(hand)
    ensures Ready(hand)
    ensures Slack(b) <= Slack(SettleAll(b, hand))
    ensures hand != [] && Slack(b) == Slack(SettleAll(b, hand)) ==> SomeoneRests(SettleAll(b, hand))
    decreases |hand|
  {
    if hand != [] {
      SettleSlack(b, hand[0]);
      SettleAllSlack(Settle(b, hand[0]), hand[1..]);
    }
  }

  lemma FireSlack(b: Book, from: nat)
    requires Shaped(b) && from < |b.tape|
    ensures Slack(Fire(b, from).0) == Slack(b) && AllLive(Fire(b, from).1)
    ensures SomeoneRests(Fire(b, from).0) == SomeoneRests(b)
  {
    var ts := b.tape[from..];
    LowestAtMostHighest(ts);
    ReachedLive(b, Lowest(ts), Highest(ts));
  }

  lemma {:induction false} CascadeSlack(b: Book, from: nat)
    requires Shaped(b) && from < |b.tape|
    ensures Slack(b) <= Slack(Cascade(b, from))
    ensures Slack(b) == Slack(Cascade(b, from)) && SomeoneRests(b) ==> SomeoneRests(Cascade(b, from))
    decreases Stops(b)
  {
    FireKeeps(b, from);
    FireSlack(b, from);
    var (b1, hand) := Fire(b, from);
    if hand != [] {
      SettleAllSlack(b1, hand);
      var b2 := SettleAll(b1, hand);
      if |b2.tape| > |b.tape| {
        CascadeSlack(b2, |b.tape|);
      }
    }
  }

  lemma ProcessSlack(b: Book, inc: Ord)
    requires Shaped(b) && inc.Live() && !inc.IsStop()
    ensures Slack(b) <= Slack(Process(b, inc))
    ensures Slack(b) == Slack(Process(b, inc)) ==> SomeoneRests(Process(b, inc))
  {
    SettleSlack(b, inc);
    var b' := Settle(b, inc);
    if |b'.tape| > |b.tape| {
      CascadeSlack(b', |b.tape|);
    }
  }
}
