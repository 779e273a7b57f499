/** The session's write queue under any interleaving of senders, write starts, partial transfers and
    completions. Each event is one section under the queue's lock, or one move of the network. */
module WriteQueue {
  import opened Frames

  /** An asynchronous write of a copy of a frame, `done` bytes of which are on the wire. */
  datatype Flight = Flight(frame: Bytes, done: nat)

  /** `starting` counts the threads that have decided to start a write and not yet done so. `sent`
      is history: every frame handed to the session, in order. */
  datatype Outbox = Outbox(
    messages: seq<Bytes>,
    writing: bool,
    starting: nat,
    flights: seq<Flight>,
    wire: Bytes,
    sent: seq<Bytes>)

  const EMPTY_OUTBOX := Outbox([], false, 0, [], [], [])

  datatype Event =
    | Send(frame: Bytes)
    | Begin
    | Transfer(i: nat, n: nat)
    | Complete(i: nat)

  /** Begin needs a thread about to start, a transfer something left to transfer, a completion a
      fully transferred frame. Sends come at any time. */
  predicate Enabled(o: Outbox, e: Event) {
    match e
    case Send(_) => true
    case Begin => o.starting > 0
    case Transfer(i, n) => i < |o.flights| && o.flights[i].done + n <= |o.flights[i].frame|
    case Complete(i) => i < |o.flights| && o.flights[i].done == |o.flights[i].frame|
  }

  function Step(o: Outbox, e: Event): Outbox
    requires Enabled(o, e)
  {
    match e
    case Send(frame) =>
      var p := o.(messages := o.messages + [frame], sent := o.sent + [frame]);
      if o.writing then p else p.(writing := true, starting := o.starting + 1)
    case Begin =>
      var p := o.(starting := o.starting - 1);
      if o.messages == [] then p.(writing := false)
      else p.(flights := o.flights + [Flight(o.messages[0], 0)])
    case Transfer(i, n) =>
      var f := o.flights[i];
      o.(wire := o.wire + f.frame[f.done..f.done + n], flights := o.flights[i := f.(done := f.done + n)])
    case Complete(i) =>
      var left := if o.messages == [] then [] else o.messages[1..];
      var p := o.(messages := left, flights := o.flights[..i] + o.flights[i + 1..]);
      if left == [] then p.(writing := false) else p.(starting := o.starting + 1)
  }

  // ---------- The invariant ----------

  function Concat(fs: seq<Bytes>): Bytes {
    if fs == [] then [] else fs[0] + Concat(fs[1..])
  }

  /** What still has to go on the wire. */
  function Rest(o: Outbox): Bytes {
    if o.flights == [] || o.messages == [] || o.flights[0].done > |o.flights[0].frame| then Concat(o.messages)
    else o.flights[0].frame[o.flights[0].done..] + Concat(o.messages[1..])
  }

  /** One write is being started or in flight exactly while `writing` is set; it is the write of the
      front frame, and nothing queues up otherwise. */
  ghost predicate OneWrite(o: Outbox) {
    if o.writing then
      && o.messages != []
      && o.starting + |o.flights| == 1
      && (o.flights != [] ==> o.flights[0].frame == o.messages[0] && o.flights[0].done <= |o.flights[0].frame|)
    else
      o.messages == [] && o.starting == 0 && o.flights == []
  }

  ghost predicate Ordered(o: Outbox) {
    OneWrite(o) && o.wire + Rest(o) == Concat(o.sent)
  }

  lemma {:induction false} ConcatMore(fs: seq<Bytes>, f: Bytes)
    ensures Concat(fs + [f]) == Concat(fs) + f
  {
    if fs == [] {
      assert [f][1..] == [] && [] + [f] == [f];
    } else {
      ConcatMore(fs[1..], f);
      assert (fs + [f])[1..] == fs[1..] + [f];
    }
  }

  lemma SendOrdered(o: Outbox, frame: Bytes)
    requires Ordered(o)
    ensures Ordered(Step(o, Send(frame)))
  {
    var p := Step(o, Send(frame));
    ConcatMore(o.sent, frame);
    if o.flights == [] {
      ConcatMore(o.messages, frame);
      assert Rest(p) == Rest(o) + frame;
    } else {
      assert (o.messages + [frame])[1..] == o.messages[1..] + [frame];
      ConcatMore(o.messages[1..], frame);
      assert Rest(p) == Rest(o) + frame;
    }
    assert o.wire + Rest(p) == o.wire + Rest(o) + frame;
  }

  lemma BeginOrdered(o: Outbox)
    requires Ordered(o) && Enabled(o, Begin)
    ensures Ordered(Step(o, Begin))
  {
    assert o.flights == [];
    assert o.messages[0][0..] == o.messages[0];
  }

  lemma TransferOrdered(o: Outbox, i: nat, n: nat)
    requires Ordered(o) && Enabled(o, Transfer(i, n))
    ensures Ordered(Step(o, Transfer(i, n)))
  {
    var f, p := o.flights[0], Step(o, Transfer(i, n));
    var tail := Concat(o.messages[1..]);
    assert f.frame[f.done..] == f.frame[f.done..f.done + n] + f.frame[f.done + n..];
    assert o.wire + (f.frame[f.done..] + tail)
        == (o.wire + f.frame[f.done..f.done + n]) + (f.frame[f.done + n..] + tail);
  }

  lemma CompleteOrdered(o: Outbox, i: nat)
    requires Ordered(o) && Enabled(o, Complete(i))
    ensures Ordered(Step(o, Complete(i)))
  {
    var f, p := o.flights[0], Step(o, Complete(i));
    assert p.flights == [];
    assert f.frame[f.done..] == [];
    assert [] + Concat(o.messages[1..]) == Concat(o.messages[1..]);
    assert Concat([]) == [];
  }

  lemma StepOrdered(o: Outbox, e: Event)
    requires Ordered(o) && Enabled(o, e)
    ensures Ordered(Step(o, e))
  {
    match e
    case Send(frame) => SendOrdered(o, frame);
    case Begin => BeginOrdered(o);
    case Transfer(i, n) => TransferOrdered(o, i, n);
    case Complete(i) => CompleteOrdered(o, i);
  }

  // ---------- All interleavings ----------

  /** The events can happen in this order, from an empty queue. */
  ghost predicate Possible(es: seq<Event>)
    decreases |es|, 0
  {
    es == [] || (Possible(es[..|es| - 1]) && Enabled(After(es[..|es| - 1]), es[|es| - 1]))
  }

  ghost function After(es: seq<Event>): Outbox
    requires Possible(es)
    decreases |es|, 1
  {
    if es == [] then EMPTY_OUTBOX else Step(After(es[..|es| - 1]), es[|es| - 1])
  }

  lemma {:induction false} AlwaysOrdered(es: seq<Event>)
    requires Possible(es)
    ensures Ordered(After(es))
    decreases |es|
  {
    hide Ordered, Step, Enabled;
    if es == [] {
      EmptyOrdered();
    } else {
      AlwaysOrdered(es[..|es| - 1]);
      StepOrdered(After(es[..|es| - 1]), es[|es| - 1]);
    }
  }

  lemma EmptyOrdered()
    ensures Ordered(EMPTY_OUTBOX)
  {
  }

  /** At every moment at most one write is being started or in flight, and exactly while `writing` is
      set; without it the queue is empty; whoever starts a write finds a frame to write. */
  lemma {:induction false} NeverTwoWrites(es: seq<Event>)
    requires Possible(es)
    ensures var o := After(es);
            && o.starting + |o.flights| == (if o.writing then 1 else 0)
            && (!o.writing ==> o.messages == [])
            && (o.starting > 0 ==> o.messages != [])
            && (o.flights != [] ==> o.messages != [])
  {
    AlwaysOrdered(es);
  }

  /** At every moment the wire holds the start of what was sent, byte for byte and in order, and
      all of it once the session is not writing. */
  lemma {:induction false} WireInOrder(es: seq<Event>)
    requires Possible(es)
    ensures var o := After(es);
            && o.wire <= Concat(o.sent)
            && (!o.writing ==> o.wire == Concat(o.sent))
  {
    AlwaysOrdered(es);
    var o := After(es);
    assert o.wire + Rest(o) == Concat(o.sent);
  }

  /** The frames handed to the session, in order. */
  function Sends(es: seq<Event>): seq<Bytes> {
    if es == [] then []
    else
      var e := es[|es| - 1];
      Sends(es[..|es| - 1]) + if e.Send? then [e.frame] else []
  }

  lemma {:induction false} SentIsSends(es: seq<Event>)
    requires Possible(es)
    ensures After(es).sent == Sends(es)
    decreases |es|
  {
    if es != [] { SentIsSends(es[..|es| - 1]); }
  }

  // ---------- Nothing gets stuck ----------

  /** Without further sends: start the write, transfer it, complete it, until the session is idle. */
  function Flush(o: Outbox): (r: Outbox)
    requires Ordered(o)
    ensures Ordered(r) && !r.writing && r.sent == o.sent
    decreases |o.messages|, o.starting
  {
    if !o.writing then o
    else if o.starting > 0 then
      StepOrdered(o, Begin);
      Flush(Step(o, Begin))
    else
      var f := o.flights[0];
      StepOrdered(o, Transfer(0, |f.frame| - f.done));
      var p := Step(o, Transfer(0, |f.frame| - f.done));
      StepOrdered(p, Complete(0));
      Flush(Step(p, Complete(0)))
  }

  /** From any reachable state the queue empties onto the wire. */
  lemma {:induction false} FlushDelivers(es: seq<Event>)
    requires Possible(es)
    ensures Ordered(After(es)) && Flush(After(es)).wire == Concat(After(es).sent)
  {
    AlwaysOrdered(es);
    var r := Flush(After(es));
    assert Rest(r) == [];
  }

  // ---------- End to end ----------

  function FramesOf(ps: seq<Bytes>): (fs: seq<Bytes>)
    ensures |fs| == |ps| && forall i :: 0 <= i < |ps| ==> fs[i] == Frame(ps[i])
  {
    seq(|ps|, i requires 0 <= i < |ps| => Frame(ps[i]))
  }

  lemma {:induction false} FramesConcat(ps: seq<Bytes>)
    ensures Concat(FramesOf(ps)) == Stream(ps)
    decreases |ps|
  {
    hide Frame;
    if ps != [] {
      var before, p := ps[..|ps| - 1], ps[|ps| - 1];
      FramesConcat(before);
      ConcatMore(FramesOf(before), Frame(p));
      assert FramesOf(ps) == FramesOf(before) + [Frame(p)];
    }
  }

  lemma {:induction false} DeliveredGrows(r: Reader, bs: Bytes)
    ensures r.delivered <= FeedAll(r, bs).delivered
    decreases |bs|
  {
    hide ExtractLength;
    if bs != [] { DeliveredGrows(r, bs[..|bs| - 1]); }
  }

  /** A peer that reads the wire, at any moment of any interleaving, has been handed a start of the
      payloads that were sent, and all of them once the session is idle. */
  lemma {:induction false} DeliveredInOrder(es: seq<Event>, ps: seq<Bytes>)
    requires Possible(es) && Sends(es) == FramesOf(ps)
    requires forall i :: 0 <= i < |ps| ==> 1 <= |ps[i]| <= 1048576
    ensures FeedAll(OPENED, After(es).wire).delivered <= ps
    ensures !After(es).writing ==> FeedAll(OPENED, After(es).wire) == Reader(InHeader([]), ps)
  {
    hide FeedAll, Frame;
    WireInOrder(es);
    SentIsSends(es);
    var wire, stream := After(es).wire, Stream(ps);
    FramesConcat(ps);
    StreamRoundTrip(ps);
    assert stream == wire + stream[|wire|..];
    FeedChunks(OPENED, wire, stream[|wire|..]);
    DeliveredGrows(FeedAll(OPENED, wire), stream[|wire|..]);
  }
}
