/** Exactly which changes a submission makes without telling anybody. */
module Unheard {
  import opened Orders
  import opened Queues
  import opened Matching
  import opened Engine
  import opened Safety
  import opened Tallies
  import opened Canceling
  import opened Triggers
  import opened Announcements

  // ---------- What becomes of an order ----------

  /** The orders that rest after a call, and those that left the book in it. */
  function Accounted(b: Book, b': Book): seq<Ord>
    requires b.closed <= b'.closed
  {
    Resting(b') + b'.closed[|b.closed|..]
  }

  /** After the call from `b` to `b'`, the order `p` has become `x`. */
  ghost predicate Becomes(b: Book, b': Book, p: Ord, x: Ord) {
    b.closed <= b'.closed && x in Accounted(b, b') && x.id == p.id
  }

  lemma AccountedTally(b: Book, o: Ord, id: Id)
    requires Good(b) && Submittable(o) && Submit(b, o).0
    ensures b.closed <= Submit(b, o).1.closed
    ensures Tally(Accounted(b, Submit(b, o).1), HeadsOf(id)) == RestTally(b, HeadsOf(id)) + One(o, HeadsOf(id))
  {
    hide Submit, RestTally, Tally, One, Resting, Shaped, OneEach, Uncrossed, StopsQuiet, Over;
    var b', m := Submit(b, o).1, HeadsOf(id);
    UntoldOnlySilently(b, o, o);
    SubmitLedger(b, o, m);
    PrintsNoHeads(b.tape, id);
    PrintsNoHeads(b'.tape, id);
    RestingTally(b', m);
    TallySplit(b'.closed, |b.closed|, m);
    assert b'.closed[..|b.closed|] == b.closed;
    TallyAppend(Resting(b'), b'.closed[|b.closed|..], m);
  }

  /** The id of a resting order occurs once, and a submission under it is refused. */
  lemma RestsOnce(b: Book, p: Ord)
    requires Good(b) && p in Resting(b)
    ensures RestTally(b, HeadsOf(p.id)) == 1 && HasId(Resting(b), p.id)
    ensures forall q :: q in Resting(b) && q.id == p.id ==> q == p
  {
    hide Resting, RestTally, Tally, Shaped, Uncrossed, StopsQuiet, Over;
    var k :| 0 <= k < |Resting(b)| && Resting(b)[k] == p;
    RestingTally(b, HeadsOf(p.id));
    OnceInAll(b, p.id);
    OnlyHere(Resting(b), k);
  }

  /** Every resting order becomes exactly one order: it rests, or it has just left. */
  lemma BecomesOne(b: Book, o: Ord, p: Ord)
    requires Good(b) && Submittable(o) && Submit(b, o).0 && p in Resting(b)
    ensures exists x :: Becomes(b, Submit(b, o).1, p, x)
    ensures forall x, y :: Becomes(b, Submit(b, o).1, p, x) && Becomes(b, Submit(b, o).1, p, y) ==> x == y
  {
    hide Submit, Tally, RestTally, Resting, Accounted, Shaped, OneEach, Uncrossed, StopsQuiet, Over;
    var b' := Submit(b, o).1;
    RestsOnce(b, p);
    FreshIdHere(b, o);
    AccountedTally(b, o, p.id);
    var all := Accounted(b, b');
    TallyOf(all, p.id);
    var k :| 0 <= k < |all| && all[k].id == p.id;
    assert Becomes(b, b', p, all[k]);
    OnlyHere(all, k);
  }

  // ---------- Stops ----------

  lemma SubmitKeepsStop(b: Book, o: Ord, p: Ord)
    requires Good(b) && Submittable(o) && Submit(b, o).0 && o.IsStop() && p in AllStops(b)
    ensures p in AllStops(Submit(b, o).1) && Submit(b, o).1.tape == b.tape
  {
    KeptByInsert(b.stopBuys, Accepted(b, o), p);
    KeptByInsert(b.stopSells, Accepted(b, o), p);
  }

  lemma KeptByInsert(q: seq<Ord>, o: Ord, p: Ord)
    ensures p in q ==> p in Insert(q, o)
  {
    var k := Pos(q, Rank(o));
    assert q == q[..k] + q[k..];
  }

  /** In a queue that repeats nothing, a stop is left behind exactly if it was not hit. */
  lemma LeftUnlessHit(q: seq<Ord>, q': seq<Ord>, tape: seq<Trade>, from: nat, p: Ord)
    requires TakenExactlyWhenHit(q, q', tape, from) && p in q
    requires forall i, j :: 0 <= i < j < |q| ==> q[i] != q[j]
    ensures p in q' <==> !Hit(p, tape, from)
  {
    var i :| 0 <= i < |q| && q[i] == p;
    var d := |q| - |q'|;
    if d <= i { assert q'[i - d] == p; }
    if p in q' {
      var j :| 0 <= j < |q'| && q'[j] == p;
      assert q[j + d] == p;
    }
  }

  lemma StopsDiffer(b: Book)
    requires Good(b)
    ensures forall i, j :: 0 <= i < j < |b.stopBuys| ==> b.stopBuys[i] != b.stopBuys[j]
    ensures forall i, j :: 0 <= i < j < |b.stopSells| ==> b.stopSells[i] != b.stopSells[j]
  {
    hide Shaped, Uncrossed, StopsQuiet, Over;
    forall i, j | 0 <= i < j < |b.stopBuys| ensures b.stopBuys[i] != b.stopBuys[j] {
      OnceInAll(b, b.stopBuys[i].id);
      OnlyHere(b.stopBuys, i);
    }
    forall i, j | 0 <= i < j < |b.stopSells| ensures b.stopSells[i] != b.stopSells[j] {
      OnceInAll(b, b.stopSells[i].id);
      OnlyHere(b.stopSells, i);
    }
  }

  lemma OwnQueue(b: Book, p: Ord)
    requires Shaped(b) && p.IsStop()
    ensures p in Resting(b) <==> p in AllStops(b)
    ensures p in AllStops(b) <==> if p.side.Buy? then p in b.stopBuys else p in b.stopSells
    ensures p !in b.bids + b.asks
  {
  }

  lemma OnBook(b: Book, x: Ord)
    requires Shaped(b) && x in b.bids + b.asks
    ensures !x.IsStop()
  {
  }

  /** A waiting stop still waits after the call exactly if no trade of the call reached it. */
  lemma WaitsUnlessHit(b: Book, o: Ord, p: Ord)
    requires Good(b) && Submittable(o) && Submit(b, o).0 && p.IsStop() && p in Resting(b)
    ensures p in AllStops(Submit(b, o).1) <==> !Hit(p, Submit(b, o).1.tape, |b.tape|)
  {
    hide Submit, Shaped, OneEach, Uncrossed, StopsQuiet, Over, Resting, AllStops, Hit, TakenExactlyWhenHit;
    var b' := Submit(b, o).1;
    OwnQueue(b, p);
    SubmitGood(b, o);
    OwnQueue(b', p);
    if o.IsStop() {
      SubmitKeepsStop(b, o, p);
      NotHitYet(p, b.tape);
    } else {
      TriggersExactly(b, o);
      StopsDiffer(b);
      if p.side.Buy? {
        LeftUnlessHit(b.stopBuys, b'.stopBuys, b'.tape, |b.tape|, p);
      } else {
        LeftUnlessHit(b.stopSells, b'.stopSells, b'.tape, |b.tape|, p);
      }
    }
  }

  lemma NotHitYet(p: Ord, tape: seq<Trade>)
    ensures !Hit(p, tape, |tape|)
  {
  }

  // ---------- Unheard changes ----------

  /** A waiting stop that some trade of the call reaches and none names. */
  ghost predicate HitUnnamed(b: Book, b': Book, p: Ord) {
    && p.IsStop() && Hit(p, b'.tape, |b.tape|)
    && |b.tape| <= |b'.tape| && !Named(b'.tape[|b.tape|..], p.id)
  }

  lemma SubmitTape(b: Book, o: Ord)
    requires Good(b) && Submittable(o) && Submit(b, o).0
    ensures b.tape <= Submit(b, o).1.tape
  {
    var a := Accepted(b, o);
    if !a.IsStop() {
      ProcessTape(b, a);
    }
  }

  lemma ProcessTape(b: Book, inc: Ord)
    requires Shaped(b) && inc.InHand()
    ensures b.tape <= Process(b, inc).tape
  {
    hide Settle, Cascade;
    Machine.SettleTape(b, inc);
    var b1 := Settle(b, inc);
    if |b1.tape| > |b.tape| { CascadeTape(b1, |b.tape|); }
  }

  /** Somebody who was not told of has not changed, or has changed silently, and then from a stop. */
  lemma UntoldBecomes(b: Book, o: Ord, p: Ord, x: Ord)
    requires Good(b) && Submittable(o) && Submit(b, o).0 && p in Resting(b)
    requires Becomes(b, Submit(b, o).1, p, x) && !Told(Submit(b, o).1, |b.tape|, o.id, p.id)
    ensures x in AllStops(Submit(b, o).1) ==> x == p
    ensures x !in AllStops(Submit(b, o).1) ==> if p.IsStop() then Silently(p, x) else x == p
  {
    hide Submit, Told, Shaped, OneEach, Uncrossed, StopsQuiet, Over;
    var b' := Submit(b, o).1;
    RestsOnce(b, p);
    UntoldOnlySilently(b, o, x);
    if x in AllStops(b') {
      assert x in AllStops(b);
    } else {
      assert x in Current(b, b');
      if WentSilently(b, x) {
        var q :| q in AllStops(b) && Silently(q, x);
        assert q in Resting(b) && q.IsStop();
      } else {
        assert x in Resting(b);
        OnBook(b, x);
      }
    }
  }

  /** Of all orders that rested before a call, exactly those stops change without anybody being told
      that a trade of the call reaches and none names; and they change in just one way. */
  lemma UnheardExactly(b: Book, o: Ord, p: Ord, x: Ord)
    requires Good(b) && Submittable(o) && Submit(b, o).0 && p in Resting(b)
    requires Becomes(b, Submit(b, o).1, p, x)
    ensures x != p && !Told(Submit(b, o).1, |b.tape|, o.id, p.id) <==> HitUnnamed(b, Submit(b, o).1, p)
    ensures HitUnnamed(b, Submit(b, o).1, p) ==> Silently(p, x)
  {
    hide Submit, Hit, Named, Silently, Becomes, Resting, AllStops, Shaped, OneEach, Uncrossed, StopsQuiet, Over;
    var b' := Submit(b, o).1;
    RestsOnce(b, p);
    FreshIdHere(b, o);
    SubmitTape(b, o);
    if !Told(b', |b.tape|, o.id, p.id) {
      UntoldBecomes(b, o, p, x);
      if p.IsStop() {
        SilentlyDiffers(p, x);
        WaitsUnlessHit(b, o, p);
        WaitingStays(b, o, p, x);
      }
    }
  }

  lemma SilentlyDiffers(p: Ord, x: Ord)
    ensures Silently(p, x) ==> x != p
  {
  }

  lemma FreshIdHere(b: Book, o: Ord)
    requires Good(b) && Submittable(o) && Submit(b, o).0
    ensures !HasId(Resting(b), o.id)
  {
  }

  /** A stop that still waits is what it has become. */
  lemma WaitingStays(b: Book, o: Ord, p: Ord, x: Ord)
    requires Good(b) && Submittable(o) && Submit(b, o).0 && p in Resting(b)
    requires Becomes(b, Submit(b, o).1, p, x)
    ensures p in AllStops(Submit(b, o).1) ==> x == p
  {
    hide Submit, Shaped, OneEach, Uncrossed, StopsQuiet, Over;
    BecomesOne(b, o, p);
    if p in AllStops(Submit(b, o).1) {
      assert Becomes(b, Submit(b, o).1, p, p);
    }
  }

  /** A call announces all it changes if and only if each waiting stop that one of its trades reaches
      is named in one of its trades. */
  lemma AllHeard(b: Book, o: Ord)
    requires Good(b) && Submittable(o) && Submit(b, o).0
    ensures (forall p, x :: p in Resting(b) && Becomes(b, Submit(b, o).1, p, x) && x != p
               ==> Told(Submit(b, o).1, |b.tape|, o.id, p.id))
            <==> (forall p :: p in Resting(b) ==> !HitUnnamed(b, Submit(b, o).1, p))
  {
    hide Submit, Told, HitUnnamed, Becomes, Resting, Shaped, OneEach, Uncrossed, StopsQuiet, Over;
    var b' := Submit(b, o).1;
    forall p, x | p in Resting(b) && Becomes(b, b', p, x)
      ensures x != p && !Told(b', |b.tape|, o.id, p.id) <==> HitUnnamed(b, b', p)
    {
      UnheardExactly(b, o, p, x);
    }
    forall p | p in Resting(b) ensures exists x :: Becomes(b, b', p, x) {
      BecomesOne(b, o, p);
    }
  }
}
