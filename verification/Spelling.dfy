/** The wire format spelled out: what is printed, letter by letter, and what each line of a message
    does to what was read before it. */
module Spelling {
  import opened Orders
  import opened Texts
  import opened Fields
  import opened Wire
  import opened Snapshots
  import Protocol
  import PythonParser

  // ---------- Numbers ----------

  lemma DigitsSpelled(n: nat, d: nat)
    requires d < 10
    ensures Digits(d) == ["0123456789"[d]]
    ensures n > 0 ==> Digits(10 * n + d) == Digits(n) + ["0123456789"[d]]
  {
    assert Digit(d) == "0123456789"[d];
    if n > 0 {
      assert (10 * n + d) / 10 == n && (10 * n + d) % 10 == d;
    }
  }

  lemma CentsNear(x: real, c: nat)
    requires var a := if x < 0.0 then -x else x; c as real / 100.0 - 0.005 < a < c as real / 100.0 + 0.005
    ensures Cents(x) == (if x < 0.0 then -1 else 1) * c
  {
  }

  lemma DigitSpelled(d: nat)
    requires d < 10
    ensures Digit(d) == "0123456789"[d]
  {
  }

  lemma Hundredths(w: nat, h: nat)
    requires h < 100
    ensures (100 * w + h) / 100 == w && (100 * w + h) / 10 % 10 == h / 10 && (100 * w + h) % 10 == h % 10
    ensures InCents(100 * w + h) == w as real + h as real / 100.0
  {
    assert (100 * w + h) / 10 == 10 * w + h / 10;
    assert (100 * w + h) as real == 100.0 * w as real + h as real;
  }

  lemma HundredthsSpelled(w: nat, h: nat)
    requires h < 100
    ensures Unsigned2(100 * w + h) == Digits(w) + "." + ["0123456789"[h / 10], "0123456789"[h % 10]]
  {
    hide Digits, Digit;
    Hundredths(w, h);
    DigitSpelled(h / 10);
    DigitSpelled(h % 10);
  }

  /** Two decimals: the sign, and the nearest hundredth in full. */
  lemma Fixed2Spelled(x: real, w: nat, h: nat)
    requires h < 100
    requires var a := if x < 0.0 then -x else x;
             w as real + h as real / 100.0 - 0.005 < a < w as real + h as real / 100.0 + 0.005
    ensures Fixed2(x) == (if x < 0.0 then "-" else "") + Digits(w) + "." + ["0123456789"[h / 10], "0123456789"[h % 10]]
  {
    hide Digits, Cents, Unsigned2;
    HundredthsSpelled(w, h);
    Hundredths(w, h);
    CentsNear(x, 100 * w + h);
  }

  /** C++ reads the leading digits, up to a limit; Python reads all or nothing. */
  lemma NatSpelled(n: nat, rest: string, max: nat)
    requires rest == "" || !('0' <= rest[0] <= '9')
    ensures StreamNat(Digits(n) + rest, max) == if n <= max then n else max
    ensures rest != "" ==> StreamNat(rest, max) == 0
    ensures PythonNat(rest) == 0
    ensures PythonNat(Digits(n) + rest) == if rest == "" then n else 0
  {
    hide Digits;
    DigitsRead(n);
    RunOf(Digits(n), rest);
    RunOf("", rest);
    assert "" + rest == rest;
    if rest == "" {
      assert Digits(n) + rest == Digits(n);
    } else {
      assert (Digits(n) + rest)[|Digits(n)|] == rest[0];
    }
  }

  /** A number with two decimals is that number, for either reader. */
  lemma RealSpelled(w: nat, h: nat)
    requires h < 100
    ensures var s := Digits(w) + "." + ["0123456789"[h / 10], "0123456789"[h % 10]];
            var x := w as real + h as real / 100.0;
            && StreamReal(s) == x && StreamReal("-" + s) == -x
            && PythonReal(s) == x && PythonReal("-" + s) == -x
    ensures PythonReal("") == 0.0
  {
    hide StreamUnsigned, PlainDecimal, Digits, Unsigned2, InCents;
    var c := 100 * w + h;
    Unsigned2Read(c);
    HundredthsSpelled(w, h);
    Hundredths(w, h);
    assert ("-" + Unsigned2(c))[1..] == Unsigned2(c);
    NothingRead();
  }

  lemma NothingRead()
    ensures !PlainDecimal("")
  {
  }

  /** What comes back of a price is the hundredth next to it; whole hundredths come back. */
  lemma RoundedNear(x: real)
    ensures x - 0.005 <= Rounded(x) <= x + 0.005
    ensures Rounded(x) * 100.0 == (Rounded(x) * 100.0).Floor as real
    ensures Whole(x) <==> x * 100.0 == (x * 100.0).Floor as real
  {
  }

  // ---------- Printing ----------

  lemma WordsSpelled()
    ensures SideText(Buy) == "BUY" && SideText(Sell) == "SELL"
    ensures KindText(Limit) == "LIMIT" && KindText(Market) == "MARKET"
    ensures KindText(Stop) == "STOP" && KindText(StopLimit) == "STOP_LIMIT"
    ensures StatusText(Pending) == "PENDING" && StatusText(Partial) == "PARTIAL" && StatusText(Filled) == "FILLED"
    ensures StatusText(Canceled) == "CANCELED" && StatusText(Rejected) == "REJECTED"
  {
  }

  lemma NamesSpelled(v: string)
    ensures Field(ClientId, v) == "client_id=" + v && Field(OrderId, v) == "order_id=" + v
    ensures Field(Symbol, v) == "symbol=" + v && Field(SideKey, v) == "side=" + v
    ensures Field(KindKey, v) == "order_type=" + v && Field(StatusKey, v) == "status=" + v
    ensures Field(TimestampKey, v) == "timestamp=" + v
  {
  }

  lemma TypeSpelled(v: string)
    ensures Named("type", v) == "type=" + v
  {
  }

  lemma NumbersSpelled(v: string)
    ensures Field(PriceKey, v) == "price=" + v && Field(StopPriceKey, v) == "stop_price=" + v
    ensures Field(QuantityKey, v) == "quantity=" + v && Field(FilledKey, v) == "filled_quantity=" + v
    ensures Field(CountKey, v) == "order_count=" + v
  {
  }

  /** Joining puts a newline between any two lines and nowhere else. */
  lemma {:induction false} JoinedMore(ls: seq<string>, line: string)
    ensures Joined([line]) == line && (ls != [] ==> Joined(ls + [line]) == Joined(ls) + "\n" + line)
  {
    if ls == [] {
      assert ls + [line] == [line];
    } else {
      JoinedMore(ls[1..], line);
      assert (ls + [line])[1..] == ls[1..] + [line];
    }
  }

  /** Ending puts one behind each line. */
  lemma EndedMore(ls: seq<string>, line: string)
    ensures Ended([]) == "" && Ended(ls + [line]) == Ended(ls) + line + "\n"
  {
    Protocol.EndedAppend(ls, [line]);
    assert [line][1..] == [];
  }

  lemma TermsSpelled(t: Terms)
    ensures TermLines(t)
            == ["client_id=" + t.clientId, "symbol=" + t.symbol, "side=" + SideText(t.side),
                "order_type=" + KindText(t.kind), "price=" + Fixed2(t.price)]
    ensures StopLines(t.stopPrice) == if t.stopPrice > 0.0 then ["stop_price=" + Fixed2(t.stopPrice)] else []
    ensures QuantityLine(t) == ["quantity=" + Digits(t.quantity)]
  {
    hide Field, Fixed2, SideText, KindText, Digits;
    NamesSpelled(t.clientId);
    NamesSpelled(t.symbol);
    NamesSpelled(SideText(t.side));
    NamesSpelled(KindText(t.kind));
    NumbersSpelled(Fixed2(t.price));
    NumbersSpelled(Fixed2(t.stopPrice));
    NumbersSpelled(Digits(t.quantity));
  }

  /** An order submission as text; Python puts the quantity before the stop price. */
  lemma SubmitSpelled(t: Terms)
    ensures var head := ["type=" + "ORDER_SUBMIT", "client_id=" + t.clientId, "symbol=" + t.symbol,
                         "side=" + SideText(t.side), "order_type=" + KindText(t.kind), "price=" + Fixed2(t.price)];
            var stop := if t.stopPrice > 0.0 then ["stop_price=" + Fixed2(t.stopPrice)] else [];
            var quantity := ["quantity=" + Digits(t.quantity)];
            SubmitText(t) == Joined(head + stop + quantity) && PythonSubmitText(t) == Joined(head + quantity + stop)
  {
    hide Joined, Field, TermLines, StopLines, QuantityLine, Fixed2, Digits, SideText, KindText;
    TypeSpelled("ORDER_SUBMIT");
    TermsSpelled(t);
    var head := ["type=" + "ORDER_SUBMIT", "client_id=" + t.clientId, "symbol=" + t.symbol,
                 "side=" + SideText(t.side), "order_type=" + KindText(t.kind), "price=" + Fixed2(t.price)];
    assert [Named("type", "ORDER_SUBMIT")] + TermLines(t) == head;
    assert [Named("type", "ORDER_SUBMIT")] + SubmitFields(t) == head + StopLines(t.stopPrice) + QuantityLine(t);
    assert [Named("type", "ORDER_SUBMIT")] + PythonSubmitFields(t) == head + QuantityLine(t) + StopLines(t.stopPrice);
  }

  lemma CancelSpelled(c: Cancellation)
    ensures CancelText(c) == Joined(["type=" + "ORDER_CANCEL", "order_id=" + c.orderId, "client_id=" + c.clientId])
  {
    hide Joined, Field;
    TypeSpelled("ORDER_CANCEL");
    NamesSpelled(c.orderId);
    NamesSpelled(c.clientId);
    assert [Named("type", "ORDER_CANCEL")] + CancelFields(c)
        == ["type=" + "ORDER_CANCEL", "order_id=" + c.orderId, "client_id=" + c.clientId];
  }

  lemma ReportSpelled(r: Report, timestamp: string)
    ensures var t := r.terms;
            var head := ["type=" + "ORDER_STATUS", "order_id=" + r.orderId, "client_id=" + t.clientId,
                         "symbol=" + t.symbol, "side=" + SideText(t.side), "order_type=" + KindText(t.kind),
                         "price=" + Fixed2(t.price)];
            var stop := if t.stopPrice > 0.0 then ["stop_price=" + Fixed2(t.stopPrice)] else [];
            ReportText(r, timestamp)
            == Joined(head + stop + ["quantity=" + Digits(t.quantity), "filled_quantity=" + Digits(r.filled),
                                     "status=" + StatusText(r.status), "timestamp=" + timestamp])
  {
    hide Joined, Field, TermLines, StopLines, QuantityLine, Fixed2, Digits, SideText, KindText, StatusText;
    var t := r.terms;
    TypeSpelled("ORDER_STATUS");
    NamesSpelled(r.orderId);
    TermsSpelled(t);
    NumbersSpelled(Digits(r.filled));
    NamesSpelled(StatusText(r.status));
    NamesSpelled(timestamp);
    var head := ["type=" + "ORDER_STATUS", "order_id=" + r.orderId, "client_id=" + t.clientId,
                 "symbol=" + t.symbol, "side=" + SideText(t.side), "order_type=" + KindText(t.kind),
                 "price=" + Fixed2(t.price)];
    var tail := ["quantity=" + Digits(t.quantity), "filled_quantity=" + Digits(r.filled),
                 "status=" + StatusText(r.status), "timestamp=" + timestamp];
    assert [Named("type", "ORDER_STATUS")] + [Field(OrderId, r.orderId)] + TermLines(t) == head;
    assert [Named("type", "ORDER_STATUS")] + ReportFields(r, timestamp) == head + StopLines(t.stopPrice) + tail;
  }

  /** A snapshot as text: a header, the bids and the asks under their markers, three lines a level. */
  lemma SnapshotSpelled(symbol: string, bids: seq<PriceLevel>, asks: seq<PriceLevel>)
    ensures SnapshotText(symbol, bids, asks)
            == Ended(["type=" + "ORDERBOOK_SNAPSHOT", "symbol=" + symbol, "BIDS:"] + AllLevelLines(bids)
                     + ["ASKS:"] + AllLevelLines(asks))
  {
    hide Ended, Field, AllLevelLines;
    TypeSpelled("ORDERBOOK_SNAPSHOT");
    NamesSpelled(symbol);
    assert [Named("type", "ORDERBOOK_SNAPSHOT")] + SnapshotBody(symbol, bids, asks)
        == ["type=" + "ORDERBOOK_SNAPSHOT", "symbol=" + symbol, "BIDS:"] + AllLevelLines(bids)
           + ["ASKS:"] + AllLevelLines(asks);
  }

  lemma LevelsSpelled(ls: seq<PriceLevel>, l: PriceLevel)
    ensures AllLevelLines([]) == []
    ensures AllLevelLines(ls + [l])
            == AllLevelLines(ls)
               + ["price=" + Fixed2(l.price), "quantity=" + Digits(l.quantity), "order_count=" + Digits(l.orderCount)]
  {
    hide Field, Fixed2, Digits;
    NumbersSpelled(Fixed2(l.price));
    NumbersSpelled(Digits(l.quantity));
    NumbersSpelled(Digits(l.orderCount));
    assert (ls + [l])[..|ls|] == ls;
  }
}
