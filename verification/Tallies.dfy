/** Sums over the orders of a book, and the one ledger every step of the engine balances. */
module Tallies {
  import opened Orders
  import opened Queues
  import opened Matching
  import opened Engine
  import opened Machine

  datatype Sel = ById(id: Id) | BySide(side: Side)

  /** What is summed: heads, heads carrying an id, or the executed quantity of selected orders. */
  datatype Measure = Heads | HeadsOf(id: Id) | Executed(sel: Sel)

  predicate Picks(sel: Sel, o: Ord) {
    match sel
    case ById(id) => o.id == id
    case BySide(side) => o.side == side
  }

  function One(o: Ord, m: Measure): int {
    match m
    case Heads => 1
    case HeadsOf(id) => if o.id == id then 1 else 0
    case Executed(sel) => if Picks(sel, o) then o.Executed() else 0
  }

  function Tally(q: seq<Ord>, m: Measure): int {
    if q == [] then 0 else One(q[0], m) + Tally(q[1..], m)
  }

  /** What a trade adds to the executed quantity of the selected orders. */
  function Print(t: Trade, m: Measure): int {
    match m
    case Executed(ById(id)) =>
      (if t.buyId == id then t.quantity else 0) + (if t.sellId == id then t.quantity else 0)
    case Executed(BySide(_)) => t.quantity
    case _ => 0
  }

  function Printed(ts: seq<Trade>, m: Measure): int {
    if ts == [] then 0 else Printed(ts[..|ts| - 1], m) + Print(ts[|ts| - 1], m)
  }

  // ---------- Sums over queues ----------

  lemma {:induction false} TallyAppend(p: seq<Ord>, q: seq<Ord>, m: Measure)
    ensures Tally(p + q, m) == Tally(p, m) + Tally(q, m)
  {
    if p == [] {
      assert p + q == q;
    } else {
      TallyAppend(p[1..], q, m);
      assert (p + q)[1..] == p[1..] + q;
    }
  }

  lemma TallyHead(q: seq<Ord>, o: Ord, m: Measure)
    ensures Tally([o] + q, m) == One(o, m) + Tally(q, m)
    ensures Tally(q + [o], m) == One(o, m) + Tally(q, m)
  {
    assert ([o] + q)[1..] == q;
    TallyAppend(q, [o], m);
  }

  lemma TallySplit(q: seq<Ord>, k: nat, m: Measure)
    requires k <= |q|
    ensures Tally(q, m) == Tally(q[..k], m) + Tally(q[k..], m)
  {
    assert q == q[..k] + q[k..];
    TallyAppend(q[..k], q[k..], m);
  }

  lemma TallyInsert(q: seq<Ord>, o: Ord, m: Measure)
    ensures Tally(Insert(q, o), m) == Tally(q, m) + One(o, m)
  {
    var k := Pos(q, Rank(o));
    TallySplit(q, k, m);
    TallyHead(q[..k], o, m);
    TallyAppend(q[..k] + [o], q[k..], m);
  }

  /** `q` without its k-th element. */
  function Cut(q: seq<Ord>, k: nat): seq<Ord>
    requires k < |q|
  {
    q[..k] + q[k + 1..]
  }

  lemma TallyCut(q: seq<Ord>, k: nat, m: Measure)
    requires k < |q|
    ensures Tally(q, m) == Tally(Cut(q, k), m) + One(q[k], m)
  {
    TallySplit(q, k, m);
    assert q[k..] == [q[k]] + q[k + 1..];
    TallyHead(q[k + 1..], q[k], m);
    TallyAppend(q[..k], q[k + 1..], m);
  }

  lemma {:induction false} TallyTriggered(q: seq<Ord>, m: Measure)
    ensures Tally(Triggered(q), m) == Tally(q, m)
  {
    if q != [] {
      TallyTriggered(q[1..], m);
      assert Triggered(q)[1..] == Triggered(q[1..]);
    }
  }

  lemma {:induction false} TallyHeads(q: seq<Ord>)
    ensures Tally(q, Heads) == |q|
  {
    if q != [] { TallyHeads(q[1..]); }
  }

  lemma {:induction false} TallyOf(q: seq<Ord>, id: Id)
    ensures 0 <= Tally(q, HeadsOf(id))
    ensures Tally(q, HeadsOf(id)) == 0 <==> forall i :: 0 <= i < |q| ==> q[i].id != id
  {
    if q != [] {
      TallyOf(q[1..], id);
      if Tally(q[1..], HeadsOf(id)) == 0 {
        assert forall i :: 0 < i < |q| ==> q[i] == q[1..][i - 1];
      } else {
        var i :| 0 <= i < |q[1..]| && q[1..][i].id == id;
        assert q[i + 1].id == id;
      }
    }
  }

  // ---------- Sums over books ----------

  function RestTally(b: Book, m: Measure): int {
    Tally(b.bids, m) + Tally(b.asks, m) + Tally(b.stopBuys, m) + Tally(b.stopSells, m)
  }

  lemma RestingTally(b: Book, m: Measure)
    ensures Tally(Resting(b), m) == RestTally(b, m)
  {
    TallyAppend(b.bids + b.asks + b.stopBuys, b.stopSells, m);
    TallyAppend(b.bids + b.asks, b.stopBuys, m);
    TallyAppend(b.bids, b.asks, m);
  }

  /** Everything accepted, less everything printed. */
  function Ledger(b: Book, m: Measure): int {
    RestTally(b, m) + Tally(b.closed, m) - Printed(b.tape, m)
  }

  lemma PrintedOne(ts: seq<Trade>, t: Trade, m: Measure)
    ensures Printed(ts + [t], m) == Printed(ts, m) + Print(t, m)
  {
    assert (ts + [t])[..|ts|] == ts;
  }

  /** What the head and the incoming order gain is what the trade prints. */
  lemma TradePrints(b: Book, inc: Ord, m: Measure)
    requires Shaped(b) && inc.InHand() && CanTrade(b, inc)
    ensures var q := Opposite(b, inc.side);
            var n := Min(inc.remaining, q[0].remaining);
            One(q[0].Fill(n).1, m) + One(inc.Fill(n).1, m)
            == One(q[0], m) + One(inc, m) + Print(TradeBetween(inc, q[0], n), m)
  {
    TradeStepKeeps(b, inc);
    assert Opposite(b, inc.side)[0].side != inc.side;
  }

  lemma OppositeTally(b: Book, side: Side, q: seq<Ord>, m: Measure)
    ensures RestTally(WithOpposite(b, side, q), m) == RestTally(b, m) - Tally(Opposite(b, side), m) + Tally(q, m)
  {
  }

  lemma TradeStepLedger(b: Book, inc: Ord, m: Measure)
    requires Shaped(b) && inc.InHand() && CanTrade(b, inc)
    ensures Ledger(TradeStep(b, inc).0, m) + One(TradeStep(b, inc).1, m) == Ledger(b, m) + One(inc, m)
    ensures b.closed <= TradeStep(b, inc).0.closed
  {
    var q := Opposite(b, inc.side);
    var n := Min(inc.remaining, q[0].remaining);
    var head := q[0].Fill(n).1;
    TradePrints(b, inc, m);
    PrintedOne(b.tape, TradeBetween(inc, q[0], n), m);
    if head.remaining == 0 {
      OppositeTally(b, inc.side, q[1..], m);
      TallyHead(b.closed, head, m);
    } else {
      OppositeTally(b, inc.side, [head] + q[1..], m);
      TallyHead(q[1..], head, m);
    }
  }

  lemma PlaceLedger(b: Book, inc: Ord, m: Measure)
    ensures Ledger(Place(b, inc), m) == Ledger(b, m) + One(inc, m)
    ensures b.closed <= Place(b, inc).closed
  {
    if inc.remaining > 0 && !inc.status.Filled? && !inc.status.Canceled? {
      if inc.kind.Market? {
        TallyHead(b.closed, inc.Cancel().1, m);
      } else if inc.side.Buy? {
        TallyInsert(b.bids, inc, m);
      } else {
        TallyInsert(b.asks, inc, m);
      }
    } else {
      TallyHead(b.closed, inc, m);
    }
  }

  lemma ReachedTally(b: Book, lo: Price, hi: Price, m: Measure)
    requires lo <= hi
    ensures RestTally(WithoutReached(b, lo, hi), m) + Tally(Reached(b, lo, hi), m) == RestTally(b, m)
  {
    PosMonotone(b.stopBuys, lo, hi);
    var k, k', j := Pos(b.stopBuys, lo), Pos(b.stopBuys, hi), Pos(b.stopSells, -lo);
    TallySplit(b.stopSells, j, m);
    TallySplit(b.stopBuys, k', m);
    TallySplit(b.stopBuys[..k'], k, m);
    assert b.stopBuys[..k'][..k] == b.stopBuys[..k];
    assert b.stopBuys[..k'][k..] == b.stopBuys[k..k'];
    TallyAppend(b.stopBuys[..k] + b.stopSells[..j], b.stopBuys[k..k'], m);
    TallyAppend(b.stopBuys[..k], b.stopSells[..j], m);
  }

  lemma FireLedger(b: Book, from: nat, m: Measure)
    requires from < |b.tape|
    ensures Ledger(Fire(b, from).0, m) + Tally(Fire(b, from).1, m) == Ledger(b, m)
  {
    var ts := b.tape[from..];
    LowestAtMostHighest(ts);
    ReachedTally(b, Lowest(ts), Highest(ts), m);
    TallyTriggered(Reached(b, Lowest(ts), Highest(ts)), m);
  }

  /** No step of the engine changes the ledger, whatever it measures. */
  lemma NextLedger(s: Sys, m: Measure)
    requires Fit(s) && !Idle(s)
    ensures Ledger(Next(s).book, m) + Tally(Next(s).hand, m) == Ledger(s.book, m) + Tally(s.hand, m)
    ensures s.book.closed <= Next(s).book.closed
  {
    if s.hand == [] {
      FireLedger(s.book, s.seen, m);
    } else if CanTrade(s.book, s.hand[0]) {
      TradeStepLedger(s.book, s.hand[0], m);
      TallyHead(s.hand[1..], TradeStep(s.book, s.hand[0]).1, m);
    } else {
      PlaceLedger(s.book, s.hand[0], m);
    }
  }

  lemma {:induction false} DrainLedger(s: Sys, m: Measure)
    requires Fit(s)
    ensures Ledger(Drain(s).book, m) == Ledger(s.book, m) + Tally(s.hand, m)
    decreases Stops(s.book), |s.hand|, Urgency(s)
  {
    if !Idle(s) {
      NextFit(s);
      NextDescends(s);
      NextLedger(s, m);
      DrainLedger(Next(s), m);
    }
  }

  lemma ProcessLedger(b: Book, inc: Ord, m: Measure)
    requires Shaped(b) && inc.InHand()
    ensures Ledger(Process(b, inc), m) == Ledger(b, m) + One(inc, m)
  {
    var s := Sys(b, [inc], |b.tape|);
    ProcessDrains(b, inc);
    DrainLedger(s, m);
    TallyHead([], inc, m);
    assert [inc] + [] == [inc];
  }

  /** A submission, its cascade included, adds the order itself to the ledger and nothing else. */
  lemma SubmitLedger(b: Book, o: Ord, m: Measure)
    requires Shaped(b) && Submittable(o) && Submit(b, o).0
    ensures Ledger(Submit(b, o).1, m) == Ledger(b, m) + One(o, m)
  {
    var a := Accepted(b, o);
    if !a.IsStop() {
      ProcessLedger(b, a, m);
    } else if a.side.Buy? {
      TallyInsert(b.stopBuys, a, m);
    } else {
      TallyInsert(b.stopSells, a, m);
    }
  }
}
