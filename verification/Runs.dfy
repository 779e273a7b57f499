/** Whole runs: any sequence of submissions and cancellations on an empty book. */
module Runs {
  import opened Orders
  import opened Queues
  import opened Matching
  import opened Engine
  import opened Machine
  import opened Safety
  import opened Tallies
  import opened TradeBound
  import opened Canceling

  datatype Op = Enter(o: Ord) | Leave(id: Id)

  ghost predicate Legal(ops: seq<Op>) {
    forall i :: 0 <= i < |ops| && ops[i].Enter? ==> Submittable(ops[i].o)
  }

  ghost function Perform(b: Book, op: Op): (bool, Book)
    requires Shaped(b) && (op.Enter? ==> Submittable(op.o))
  {
    match op
    case Enter(o) => Submit(b, o)
    case Leave(id) => Withdraw(b, id)
  }

  /** The book after the run. Its shape, its one order per id, its uncrossed sides and its
      unreached stops hold in every reachable state. */
  ghost function Run(ops: seq<Op>): (b: Book)
    requires Legal(ops)
    ensures Good(b)
  {
    if ops == [] then EMPTY_BOOK
    else
      var b, op := Run(ops[..|ops| - 1]), ops[|ops| - 1];
      PerformGood(b, op);
      Perform(b, op).1
  }

  lemma PerformGood(b: Book, op: Op)
    requires Good(b) && (op.Enter? ==> Submittable(op.o))
    ensures Good(Perform(b, op).1)
  {
    match op
    case Enter(o) => SubmitGood(b, o);
    case Leave(id) => WithdrawGood(b, id);
  }

  /** The orders the run accepted, as they were submitted. */
  ghost function Taken(ops: seq<Op>): seq<Ord>
    requires Legal(ops)
  {
    if ops == [] then []
    else
      var b, op := Run(ops[..|ops| - 1]), ops[|ops| - 1];
      Taken(ops[..|ops| - 1]) + if op.Enter? && Submit(b, op.o).0 then [op.o] else []
  }

  // ---------- The ledger over a run ----------

  lemma WithdrawLedger(b: Book, id: Id, m: Measure)
    requires Good(b)
    ensures Ledger(Withdraw(b, id).1, m) == Ledger(b, m)
  {
    if i :| 0 <= i < |Resting(b)| && Resting(b)[i].id == id {
      WithdrawLive(b, i);
      TallyCut(Resting(b), i, m);
      TallyHead(b.closed, Resting(b)[i].(status := Canceled), m);
      RestingTally(b, m);
      RestingTally(Withdraw(b, id).1, m);
    } else {
      WithdrawUnknown(b, id);
    }
  }

  lemma PerformLedger(b: Book, op: Op, m: Measure)
    requires Good(b) && (op.Enter? ==> Submittable(op.o))
    ensures Ledger(Perform(b, op).1, m)
            == Ledger(b, m) + if op.Enter? && Perform(b, op).0 then One(op.o, m) else 0
  {
    hide Ledger, One;
    match op
    case Leave(id) =>
      WithdrawLedger(b, id, m);
    case Enter(o) =>
      if Submit(b, o).0 {
        SubmitLedger(b, o, m);
      }
  }

  lemma TakenTally(ops: seq<Op>, m: Measure)
    requires Legal(ops) && ops != []
    ensures var b, op := Run(ops[..|ops| - 1]), ops[|ops| - 1];
            Tally(Taken(ops), m)
            == Tally(Taken(ops[..|ops| - 1]), m) + if op.Enter? && Perform(b, op).0 then One(op.o, m) else 0
  {
    hide One, Submit, Withdraw, Good;
    var before, op := ops[..|ops| - 1], ops[|ops| - 1];
    if op.Enter? {
      TallyHead(Taken(before), op.o, m);
    }
    assert Taken(before) + [] == Taken(before);
  }

  /** Over any run the ledger is the sum of what the run accepted. */
  lemma {:induction false} RunLedger(ops: seq<Op>, m: Measure)
    requires Legal(ops)
    ensures Ledger(Run(ops), m) == Tally(Taken(ops), m)
    decreases |ops|, 1
  {
    if ops != [] {
      RunLedgerStep(ops, m);
    }
  }

  lemma {:induction false} RunLedgerStep(ops: seq<Op>, m: Measure)
    requires Legal(ops) && ops != []
    ensures Ledger(Run(ops), m) == Tally(Taken(ops), m)
    decreases |ops|, 0
  {
    hide Ledger, Tally, One, Good, Perform;
    var before := ops[..|ops| - 1];
    RunLedger(before, m);
    TakenTally(ops, m);
    PerformLedger(Run(before), ops[|ops| - 1], m);
  }

  // ---------- Conservation ----------

  /** Every order enters with nothing executed yet. */
  ghost predicate Fresh(ops: seq<Op>) {
    forall i :: 0 <= i < |ops| && ops[i].Enter? ==> ops[i].o.remaining == ops[i].o.quantity
  }

  lemma {:induction false} FreshTally(ops: seq<Op>, sel: Sel)
    requires Legal(ops) && Fresh(ops)
    ensures Tally(Taken(ops), Executed(sel)) == 0
  {
    if ops != [] {
      var before, op := ops[..|ops| - 1], ops[|ops| - 1];
      FreshTally(before, sel);
      if op.Enter? && Submit(Run(before), op.o).0 {
        TallyHead(Taken(before), op.o, Executed(sel));
      } else {
        assert Taken(ops) == Taken(before);
      }
    }
  }

  /** All orders the book ever accepted, in the state they are in now. */
  function Everyone(b: Book): seq<Ord> {
    Resting(b) + b.closed
  }

  lemma EveryoneTally(b: Book, m: Measure)
    ensures Tally(Everyone(b), m) == RestTally(b, m) + Tally(b.closed, m)
  {
    TallyAppend(Resting(b), b.closed, m);
    RestingTally(b, m);
  }

  /** Over any run, what the orders carrying an id (or standing on a side) have executed is what
      the tape prints for it, no matter how often ids are reused. */
  lemma RunBalanced(ops: seq<Op>, sel: Sel)
    requires Legal(ops) && Fresh(ops)
    ensures Tally(Everyone(Run(ops)), Executed(sel)) == Printed(Run(ops).tape, Executed(sel))
  {
    RunLedger(ops, Executed(sel));
    FreshTally(ops, sel);
    EveryoneTally(Run(ops), Executed(sel));
  }

  function Volume(ts: seq<Trade>): int {
    if ts == [] then 0 else Volume(ts[..|ts| - 1]) + ts[|ts| - 1].quantity
  }

  lemma {:induction false} PrintedIsVolume(ts: seq<Trade>, side: Side)
    ensures Printed(ts, Executed(BySide(side))) == Volume(ts)
  {
    if ts != [] { PrintedIsVolume(ts[..|ts| - 1], side); }
  }

  /** Bought equals sold equals traded. */
  lemma RunBoughtIsSold(ops: seq<Op>, side: Side)
    requires Legal(ops) && Fresh(ops)
    ensures Tally(Everyone(Run(ops)), Executed(BySide(side))) == Volume(Run(ops).tape)
  {
    RunBalanced(ops, BySide(side));
    PrintedIsVolume(Run(ops).tape, side);
  }

  /** No id was accepted twice. */
  ghost predicate NoReuse(ops: seq<Op>)
    requires Legal(ops)
  {
    forall id :: Tally(Taken(ops), HeadsOf(id)) <= 1
  }

  lemma {:induction false} TallyAlone(q: seq<Ord>, id: Id)
    requires forall i :: 0 <= i < |q| ==> q[i].id != id
    ensures Tally(q, Executed(ById(id))) == 0
  {
    if q != [] { TallyAlone(q[1..], id); }
  }

  /** Order by order: quantity minus remaining is the sum of the trades that name the order,
      whether it still rests or has been filled or canceled. */
  lemma RunConservesEach(ops: seq<Op>, i: nat)
    requires Legal(ops) && Fresh(ops) && NoReuse(ops)
    requires i < |Everyone(Run(ops))|
    ensures var o := Everyone(Run(ops))[i];
            o.quantity - o.remaining == Printed(Run(ops).tape, Executed(ById(o.id)))
  {
    var b := Run(ops);
    var all, id := Everyone(b), Everyone(b)[i].id;
    RunLedger(ops, HeadsOf(id));
    PrintsNoHeads(b.tape, id);
    EveryoneTally(b, HeadsOf(id));
    OnlyHere(all, i);
    TallyAlone(Cut(all, i), id);
    TallyCut(all, i, Executed(ById(id)));
    RunBalanced(ops, ById(id));
  }

  // ---------- The bound on trades ----------

  lemma {:induction false} RunSlack(ops: seq<Op>)
    requires Legal(ops)
    ensures 0 <= Slack(Run(ops))
    ensures Slack(Run(ops)) == 0 && Taken(ops) != [] ==> Resting(Run(ops)) != []
  {
    if ops != [] {
      var before, op := ops[..|ops| - 1], ops[|ops| - 1];
      var b := Run(before);
      RunSlack(before);
      match op
      case Leave(id) =>
        assert Taken(ops) == Taken(before);
        if i :| 0 <= i < |Resting(b)| && Resting(b)[i].id == id {
          WithdrawLive(b, i);
        } else {
          WithdrawUnknown(b, id);
        }
      case Enter(o) =>
        if Submit(b, o).0 {
          SubmitSlack(b, o);
        } else {
          assert Taken(ops) == Taken(before);
        }
    }
  }

  lemma SubmitSlack(b: Book, o: Ord)
    requires Shaped(b) && Submittable(o) && Submit(b, o).0
    ensures Slack(b) <= Slack(Submit(b, o).1)
    ensures Slack(b) == Slack(Submit(b, o).1) ==> Resting(Submit(b, o).1) != []
  {
    var a := Accepted(b, o);
    if a.IsStop() {
      assert a in Insert(b.stopBuys, a) && a in Insert(b.stopSells, a);
    } else {
      ProcessSlack(b, a);
    }
  }

  lemma {:induction false} PrintsNoPeople(ts: seq<Trade>)
    ensures Printed(ts, Heads) == 0
  {
    if ts != [] { PrintsNoPeople(ts[..|ts| - 1]); }
  }

  lemma Population(b: Book)
    ensures Ledger(b, Heads) == |Resting(b)| + |b.closed|
  {
    RestingTally(b, Heads);
    TallyHeads(Resting(b));
    TallyHeads(b.closed);
    PrintsNoPeople(b.tape);
  }

  /** A run prints fewer trades than it accepts orders. */
  lemma RunTradeBound(ops: seq<Op>)
    requires Legal(ops) && Taken(ops) != []
    ensures |Run(ops).tape| < |Taken(ops)|
  {
    hide Run, Taken, Tally, Resting;
    RunSlack(ops);
    RunLedger(ops, Heads);
    TallyHeads(Taken(ops));
    Population(Run(ops));
  }

  /** One submission, its cascade included, prints no more trades than orders were resting. */
  lemma SubmitTradeBound(b: Book, o: Ord)
    requires Shaped(b) && Submittable(o)
    ensures |Submit(b, o).1.tape| - |b.tape| <= |Resting(b)|
  {
    if Submit(b, o).0 {
      SubmitSlack(b, o);
      SubmitLedger(b, o, Heads);
      Population(b);
      Population(Submit(b, o).1);
    }
  }
}
