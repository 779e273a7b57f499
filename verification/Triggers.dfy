/** Exactly which stops a submission triggers. */
module Triggers {
  import opened Orders
  import opened Queues
  import opened Matching
  import opened Engine
  import opened Machine
  import opened Safety

  lemma NextTape(s: Sys)
    requires Fit(s) && !Idle(s)
    ensures s.book.tape <= Next(s).book.tape
  {
  }

  lemma {:induction false} DrainTape(s: Sys)
    requires Fit(s)
    ensures s.book.tape <= Drain(s).book.tape
    decreases Stops(s.book), |s.hand|, Urgency(s)
  {
    if !Idle(s) {
      NextFit(s);
      NextDescends(s);
      NextTape(s);
      DrainTape(Next(s));
    }
  }

  /** Some trade of `tape[from..]` reaches the stop. */
  ghost predicate Hit(o: Ord, tape: seq<Trade>, from: nat) {
    exists k :: from <= k < |tape| && Reaches(tape[k].price, o)
  }

  /** The first `n` stops of `q` were all hit. */
  ghost predicate AllHit(q: seq<Ord>, n: nat, tape: seq<Trade>, from: nat) {
    n <= |q| && forall i :: 0 <= i < n ==> Hit(q[i], tape, from)
  }

  lemma AllHitLonger(q: seq<Ord>, n: nat, tape: seq<Trade>, tape': seq<Trade>, from: nat)
    requires AllHit(q, n, tape, from) && tape <= tape'
    ensures AllHit(q, n, tape', from)
  {
    forall i | 0 <= i < n ensures Hit(q[i], tape', from) {
      var k :| from <= k < |tape| && Reaches(tape[k].price, q[i]);
      assert Reaches(tape'[k].price, q[i]);
    }
  }

  /** `q'` is what is left of `q` after only stops that were hit were taken from its front. */
  ghost predicate TakenWhenHit(q: seq<Ord>, q': seq<Ord>, tape: seq<Trade>, from: nat) {
    |q'| <= |q| && q' == q[|q| - |q'|..] && AllHit(q, |q| - |q'|, tape, from)
  }

  lemma TakenTwice(q: seq<Ord>, q': seq<Ord>, q'': seq<Ord>, tape: seq<Trade>, tape': seq<Trade>, from: nat)
    requires TakenWhenHit(q, q', tape, from) && TakenWhenHit(q', q'', tape', from) && tape <= tape'
    ensures TakenWhenHit(q, q'', tape', from)
  {
    AllHitLonger(q, |q| - |q'|, tape, tape', from);
    forall i | 0 <= i < |q| - |q''| ensures Hit(q[i], tape', from) {
      if |q| - |q'| <= i {
        assert q'[i - (|q| - |q'|)] == q[i];
      }
    }
  }

  ghost predicate StopsTaken(b: Book, b': Book, from: nat) {
    TakenWhenHit(b.stopBuys, b'.stopBuys, b'.tape, from) && TakenWhenHit(b.stopSells, b'.stopSells, b'.tape, from)
  }

  lemma NextTaken(s: Sys, from: nat)
    requires Fit(s) && !Idle(s) && from <= s.seen
    ensures StopsTaken(s.book, Next(s).book, from)
  {
    if s.hand == [] {
      FireTaken(s.book, s.seen, from);
    }
  }

  lemma FireTaken(b: Book, seen: nat, from: nat)
    requires Shaped(b) && from <= seen < |b.tape|
    ensures StopsTaken(b, Fire(b, seen).0, from)
  {
    var ts := b.tape[seen..];
    LowestAtMostHighest(ts);
    var j :| 0 <= j < |ts| && ts[j].price == Lowest(ts);
    var k :| 0 <= k < |ts| && ts[k].price == Highest(ts);
    assert b.tape[seen + j].price == Lowest(ts) && b.tape[seen + k].price == Highest(ts);
    forall i | 0 <= i < Pos(b.stopBuys, Highest(ts)) ensures Hit(b.stopBuys[i], b.tape, from) {
      assert Reaches(b.tape[seen + k].price, b.stopBuys[i]);
    }
    forall i | 0 <= i < Pos(b.stopSells, -Lowest(ts)) ensures Hit(b.stopSells[i], b.tape, from) {
      assert Reaches(b.tape[seen + j].price, b.stopSells[i]);
    }
  }

  lemma {:induction false} DrainTaken(s: Sys, from: nat)
    requires Fit(s) && from <= s.seen <= |s.book.tape|
    ensures StopsTaken(s.book, Drain(s).book, from)
    decreases Stops(s.book), |s.hand|, Urgency(s)
  {
    if !Idle(s) {
      NextFit(s);
      NextDescends(s);
      NextTaken(s, from);
      DrainTaken(Next(s), from);
      DrainTape(Next(s));
      var b, b1, b' := s.book, Next(s).book, Drain(s).book;
      TakenTwice(b.stopBuys, b1.stopBuys, b'.stopBuys, b1.tape, b'.tape, from);
      TakenTwice(b.stopSells, b1.stopSells, b'.stopSells, b1.tape, b'.tape, from);
    }
  }

  /** What is left of `q` is a suffix of it, and a stop was taken if and only if a trade hit it. */
  ghost predicate TakenExactlyWhenHit(q: seq<Ord>, q': seq<Ord>, tape: seq<Trade>, from: nat) {
    && |q'| <= |q|
    && q' == q[|q| - |q'|..]
    && forall i :: 0 <= i < |q| ==> (i < |q| - |q'| <==> Hit(q[i], tape, from))
  }

  lemma QuietNotHit(q: seq<Ord>, q': seq<Ord>, tape: seq<Trade>, from: nat)
    requires TakenWhenHit(q, q', tape, from)
    requires Quiet(q', tape)
    requires forall i :: 0 <= i < |q| ==> q[i].stamp <= from
    ensures TakenExactlyWhenHit(q, q', tape, from)
  {
    forall i | |q| - |q'| <= i < |q| ensures !Hit(q[i], tape, from) {
      assert q'[i - (|q| - |q'|)] == q[i];
    }
  }

  /** A submission, with its whole cascade, triggers exactly the stops some trade of the same
      call reaches; the others stay where they are, in their order. */
  lemma TriggersExactly(b: Book, o: Ord)
    requires Good(b) && Submittable(o) && Submit(b, o).0 && !o.IsStop()
    ensures var b' := Submit(b, o).1;
            && TakenExactlyWhenHit(b.stopBuys, b'.stopBuys, b'.tape, |b.tape|)
            && TakenExactlyWhenHit(b.stopSells, b'.stopSells, b'.tape, |b.tape|)
  {
    var a := Accepted(b, o);
    var b' := Process(b, a);
    ProcessDrains(b, a);
    DrainTaken(Sys(b, [a], |b.tape|), |b.tape|);
    ProcessGood(b, a);
    assert b'.tape[..|b'.tape|] == b'.tape;
    QuietNotHit(b.stopBuys, b'.stopBuys, b'.tape, |b.tape|);
    QuietNotHit(b.stopSells, b'.stopSells, b'.tape, |b.tape|);
  }
}
