/** The session object: its write queue and its frame reader, updated in place. */
module Sessions {
  import opened Frames
  import opened WriteQueue

  class Session {
    var writeMessages: seq<Bytes>
    var writing: bool

    /** The surroundings of the queue: threads about to start a write, writes in flight, the wire. */
    var starting: nat
    var flights: seq<Flight>
    var wire: Bytes
    ghost var sent: seq<Bytes>

    /** The reader: what it waits for, and what it handed to the message callback. */
    var waiting: Waiting
    var delivered: seq<Bytes>

    ghost function Out(): Outbox
      reads this
    {
      Outbox(writeMessages, writing, starting, flights, wire, sent)
    }

    ghost function In(): Reader
      reads this
    {
      Reader(waiting, delivered)
    }

    ghost predicate Valid()
      reads this
    {
      Ordered(Out())
    }

    constructor ()
      ensures Valid() && Out() == EMPTY_OUTBOX && In() == OPENED
    {
      writeMessages, writing, starting, flights, wire, sent := [], false, 0, [], [], [];
      waiting, delivered := InHeader([]), [];
      new;
      EmptyOrdered();
    }

    /** Frames and queues a message; the first one in starts a write. */
    method SendMessage(message: Bytes)
      requires Valid()
      modifies this
      ensures Valid() && Out() == Step(old(Out()), Send(Frame(message))) && In() == old(In())
      ensures sent == old(sent) + [Frame(message)] && writeMessages == old(writeMessages) + [Frame(message)]
      ensures writing && starting == old(starting) + (if old(writing) then 0 else 1)
      ensures flights == old(flights) && wire == old(wire)
    {
      StepOrdered(Out(), Send(Frame(message)));
      var shouldStartWrite := false;
      var framed := FrameMessage(message);
      writeMessages := writeMessages + [framed];
      sent := sent + [framed];
      if !writing {
        writing := true;
        shouldStartWrite := true;
      }
      if shouldStartWrite {
        starting := starting + 1;
      }
    }

    /** Starts writing a copy of the front frame. */
    method DoWriteNext()
      requires Valid() && starting > 0
      modifies this
      ensures Valid() && Out() == Step(old(Out()), Begin) && In() == old(In())
      ensures writing && flights != []
    {
      StepOrdered(Out(), Begin);
      starting := starting - 1;
      if writeMessages == [] {
        // Clearing `writing` here is never needed.
        assert false;
      }
      var buf := writeMessages[0];
      flights := flights + [Flight(buf, 0)];
    }

    /** The network takes some more bytes of a write. */
    method OnTransfer(i: nat, n: nat)
      requires Valid() && Enabled(Out(), Transfer(i, n))
      modifies this
      ensures Valid() && Out() == Step(old(Out()), Transfer(i, n)) && In() == old(In())
    {
      StepOrdered(Out(), Transfer(i, n));
      var f := flights[i];
      wire := wire + f.frame[f.done..f.done + n];
      flights := flights[i := f.(done := f.done + n)];
    }

    /** The completion handler of a write: drops its frame and starts the next write, if any. */
    method OnWritten(i: nat)
      requires Valid() && Enabled(Out(), Complete(i))
      modifies this
      ensures Valid() && Out() == Step(old(Out()), Complete(i)) && In() == old(In())
    {
      StepOrdered(Out(), Complete(i));
      flights := flights[..i] + flights[i + 1..];
      var more := false;
      writeMessages := writeMessages[1..];
      if writeMessages == [] {
        writing := false;
      } else {
        more := true;
      }
      if more {
        starting := starting + 1;
      }
    }

    /** One byte reaches the reader. */
    method OnByte(b: Byte)
      modifies this`waiting, this`delivered
      ensures In() == Feed(old(In()), b)
    {
      match waiting
      case Closed =>
      case InHeader(got) =>
        var lengthBuffer := got + [b];
        if |lengthBuffer| < HEADER_SIZE {
          waiting := InHeader(lengthBuffer);
        } else if |lengthBuffer| == HEADER_SIZE {
          var messageLength := ExtractLength(lengthBuffer);
          if messageLength == 0 || messageLength > MAX_MESSAGE_SIZE {
            waiting := Closed;
            return;
          }
          waiting := InContent(messageLength, []);
        } else {
          waiting := Closed;
        }
      case InContent(need, got) =>
        var content := got + [b];
        if |content| < need {
          waiting := InContent(need, content);
        } else {
          delivered := delivered + [content];
          waiting := InHeader([]);
        }
    }

    /** A chunk of any size reaches the reader. */
    method Receive(chunk: Bytes)
      modifies this`waiting, this`delivered
      ensures In() == FeedAll(old(In()), chunk)
    {
      hide Feed;
      for i := 0 to |chunk|
        invariant In() == FeedAll(old(In()), chunk[..i])
      {
        assert chunk[..i + 1][..i] == chunk[..i];
        OnByte(chunk[i]);
      }
      assert chunk[..|chunk|] == chunk;
    }
  }
}
