/** Whole messages: parsing by type, and what survives a trip from one implementation to the other. */
module Protocol {
  import opened Orders
  import opened Texts
  import opened Fields
  import opened Wire
  import opened Snapshots

  /** Types whose fields are not modelled parse to `Other`. */
  datatype Message =
    | OrderSubmit(terms: Terms)
    | OrderCancel(cancellation: Cancellation)
    | OrderStatus(report: Report)
    | OrderbookSnapshot(symbol: string, bids: seq<Entry>, asks: seq<Entry>)
    | Error(code: string, description: string)
    | Other(messageType: string)

  const OTHER_TYPES := ["TRADE_NOTIFICATION", "ERROR", "SNAPSHOT_REQUEST", "LOGIN", "LOGIN_RESPONSE", "REGISTER",
                        "REGISTER_RESPONSE"]

  function Finished(d: Draft): Message {
    match d
    case Submitting(t) => OrderSubmit(t)
    case Canceling(c) => OrderCancel(c)
    case Reporting(r) => OrderStatus(r)
  }

  /** The C++ parser. */
  function Parsed(data: string): Message {
    var ls := Lines(data);
    if ls == [] then Error("PARSE_ERROR", "Empty message")
    else
      var t := ValueOf(ls[0]);
      if t == "ORDER_SUBMIT" then Finished(ReadAll(Submitting(NO_TERMS), ls[1..]))
      else if t == "ORDER_CANCEL" then Finished(ReadAll(Canceling(NO_CANCEL), ls[1..]))
      else if t == "ORDER_STATUS" then Finished(ReadAll(Reporting(NO_REPORT), ls[1..]))
      else if t == "ORDERBOOK_SNAPSHOT" then
        var s := ScanAll(Cpp, START, ls[1..]);
        OrderbookSnapshot(s.symbol, s.bids, s.asks)
      else if t in OTHER_TYPES then Other(t)
      else Error("PARSE_ERROR", "Unknown message type: " + t)
  }

  // ---------- The parsing loops ----------

  /** Takes the next line off the stream, if there is one. */
  method GetLine(data: string) returns (ok: bool, line: string, rest: string)
    ensures ok <==> Lines(data) != []
    ensures ok ==> Lines(data) == [line] + Lines(rest) && |rest| < |data|
  {
    if data == "" {
      return false, "", "";
    }
    var i := Break(data);
    ok, line := true, data[..i];
    if i == |data| {
      rest := "";
      assert data[..i] == data;
    } else {
      rest := data[i + 1..];
    }
  }

  method ReadLines(start: Draft, data: string) returns (d: Draft)
    ensures d == ReadAll(start, Lines(data))
  {
    hide Read;
    d := start;
    var ok, line, rest := GetLine(data);
    while ok
      invariant ReadAll(start, Lines(data)) == ReadAll(d, if ok then [line] + Lines(rest) else [])
      decreases ok, |rest|
    {
      assert ([line] + Lines(rest))[1..] == Lines(rest);
      d := Read(d, line);
      ok, line, rest := GetLine(rest);
    }
  }

  method ScanLines(dialect: Dialect, data: string) returns (s: Scan)
    ensures s == ScanAll(dialect, START, Lines(data))
  {
    hide ScanLine;
    s := START;
    var ok, line, rest := GetLine(data);
    while ok
      invariant ScanAll(dialect, START, Lines(data)) == ScanAll(dialect, s, if ok then [line] + Lines(rest) else [])
      decreases ok, |rest|
    {
      assert ([line] + Lines(rest))[1..] == Lines(rest);
      s := ScanLine(dialect, s, line);
      ok, line, rest := GetLine(rest);
    }
  }

  method ParseMessage(data: string) returns (m: Message)
    ensures m == Parsed(data)
  {
    hide ReadAll, ScanAll, ValueOf, Lines;
    var ok, line, rest := GetLine(data);
    if !ok {
      return Error("PARSE_ERROR", "Empty message");
    }
    assert ([line] + Lines(rest))[1..] == Lines(rest);
    var messageType := ValueOf(line);
    if messageType == "ORDER_SUBMIT" {
      var d := ReadLines(Submitting(NO_TERMS), rest);
      return Finished(d);
    } else if messageType == "ORDER_CANCEL" {
      var d := ReadLines(Canceling(NO_CANCEL), rest);
      return Finished(d);
    } else if messageType == "ORDER_STATUS" {
      var d := ReadLines(Reporting(NO_REPORT), rest);
      return Finished(d);
    } else if messageType == "ORDERBOOK_SNAPSHOT" {
      var s := ScanLines(Cpp, rest);
      return OrderbookSnapshot(s.symbol, s.bids, s.asks);
    } else if messageType in OTHER_TYPES {
      return Other(messageType);
    }
    return Error("PARSE_ERROR", "Unknown message type: " + messageType);
  }

  /** The snapshot printer's stream: header, then the two lists of levels. */
  method SerializeSnapshot(symbol: string, bids: seq<PriceLevel>, asks: seq<PriceLevel>) returns (ss: string)
    ensures ss == SnapshotText(symbol, bids, asks)
  {
    hide Field, Fixed2, Digits;
    var head := [Named("type", "ORDERBOOK_SNAPSHOT")] + [Field(Symbol, symbol)] + ["BIDS:"];
    ss := Ended([Named("type", "ORDERBOOK_SNAPSHOT")]) + Ended([Field(Symbol, symbol)]) + Ended(["BIDS:"]);
    EndedAppend([Named("type", "ORDERBOOK_SNAPSHOT")], [Field(Symbol, symbol)]);
    EndedAppend([Named("type", "ORDERBOOK_SNAPSHOT")] + [Field(Symbol, symbol)], ["BIDS:"]);
    ss := AppendLevels(ss, head, bids);
    EndedAppend(head + AllLevelLines(bids), ["ASKS:"]);
    ss := ss + Ended(["ASKS:"]);
    ss := AppendLevels(ss, head + AllLevelLines(bids) + ["ASKS:"], asks);
    assert head + AllLevelLines(bids) + ["ASKS:"] + AllLevelLines(asks)
        == [Named("type", "ORDERBOOK_SNAPSHOT")] + SnapshotBody(symbol, bids, asks);
  }

  method AppendLevels(stream: string, ghost lines: seq<string>, levels: seq<PriceLevel>) returns (ss: string)
    requires stream == Ended(lines)
    ensures ss == Ended(lines + AllLevelLines(levels))
  {
    hide Ended, LevelLines;
    ss := stream;
    assert lines + [] == lines;
    for i := 0 to |levels|
      invariant ss == Ended(lines + AllLevelLines(levels[..i]))
    {
      assert levels[..i + 1][..i] == levels[..i];
      EndedAppend(lines + AllLevelLines(levels[..i]), LevelLines(levels[i]));
      assert lines + AllLevelLines(levels[..i]) + LevelLines(levels[i]) == lines + AllLevelLines(levels[..i + 1]);
      ss := ss + Ended(LevelLines(levels[i]));
    }
    assert levels[..|levels|] == levels;
  }

  lemma {:induction false} EndedAppend(p: seq<string>, q: seq<string>)
    ensures Ended(p + q) == Ended(p) + Ended(q)
  {
    if p == [] {
      assert p + q == q;
    } else {
      EndedAppend(p[1..], q);
      assert (p + q)[1..] == p[1..] + q;
    }
  }

  // ---------- Lines survive ----------

  ghost predicate FieldLines(ls: seq<string>) {
    forall i :: 0 <= i < |ls| ==> OneLine(ls[i]) && ls[i] != ""
  }

  lemma OneFieldLine(k: Key, v: string)
    requires OneLine(v)
    ensures FieldLines([Field(k, v)])
  {
    FieldOneLine(k, v);
  }

  lemma TermLinesFit(t: Terms)
    requires OneLine(t.clientId) && OneLine(t.symbol)
    ensures FieldLines(TermLines(t)) && FieldLines(StopLines(t.stopPrice)) && FieldLines(QuantityLine(t))
  {
    hide Field, Fixed2, Digits, OneLine;
    OneFieldLine(ClientId, t.clientId);
    OneFieldLine(Symbol, t.symbol);
    SideReadsBack(t.side);
    OneFieldLine(SideKey, SideText(t.side));
    KindReadsBack(t.kind);
    OneFieldLine(KindKey, KindText(t.kind));
    Fixed2OneLine(t.price);
    OneFieldLine(PriceKey, Fixed2(t.price));
    Fixed2OneLine(t.stopPrice);
    OneFieldLine(StopPriceKey, Fixed2(t.stopPrice));
    NatOneLine(t.quantity);
    OneFieldLine(QuantityKey, Digits(t.quantity));
  }

  lemma TypeLine(name: string, body: seq<string>)
    requires name in ["ORDER_SUBMIT", "ORDER_CANCEL", "ORDER_STATUS", "ORDERBOOK_SNAPSHOT"]
    requires FieldLines(body)
    ensures ValueOf(Named("type", name)) == name && FieldLines([Named("type", name)] + body)
  {
    EqualsAt("type", name);
    assert OneLine("type") && OneLine(name);
  }

  /** A message of joined field lines comes apart into its type and these lines. */
  lemma ComesApart(name: string, body: seq<string>)
    requires name in ["ORDER_SUBMIT", "ORDER_CANCEL", "ORDER_STATUS"]
    requires FieldLines(body)
    ensures var text := Joined([Named("type", name)] + body);
            Lines(text) == [Named("type", name)] + body && Split(text) == Lines(text)
            && ValueOf(Lines(text)[0]) == name && Lines(text)[1..] == body
  {
    TypeLine(name, body);
    JoinedLines([Named("type", name)] + body);
  }

  // ---------- What the C++ parser reads is one line ----------

  predicate DraftOneLine(d: Draft) {
    match d
    case Submitting(t) => OneLine(t.clientId) && OneLine(t.symbol)
    case Canceling(c) => OneLine(c.orderId) && OneLine(c.clientId)
    case Reporting(r) => OneLine(r.orderId) && OneLine(r.terms.clientId) && OneLine(r.terms.symbol)
  }

  lemma ReadOneLine(d: Draft, line: string)
    requires DraftOneLine(d) && OneLine(line)
    ensures DraftOneLine(Read(d, line))
  {
    hide OneLine, ValueOf, Is, SideOf, KindOf, StatusOf, StreamReal, StreamNat;
    ValueOneLine(line);
  }

  lemma {:induction false} ReadAllOneLine(d: Draft, ls: seq<string>)
    requires DraftOneLine(d) && AllOneLine(ls)
    ensures DraftOneLine(ReadAll(d, ls))
    decreases |ls|
  {
    hide DraftOneLine, Read;
    if ls != [] {
      ReadOneLine(d, ls[0]);
      ReadAllOneLine(Read(d, ls[0]), ls[1..]);
    }
  }

  /** No text parses to an order with a newline in a name. */
  lemma ParsedOneLine(data: string)
    ensures Parsed(data).OrderSubmit? ==> DraftOneLine(Submitting(Parsed(data).terms))
    ensures Parsed(data).OrderCancel? ==> DraftOneLine(Canceling(Parsed(data).cancellation))
    ensures Parsed(data).OrderStatus? ==> DraftOneLine(Reporting(Parsed(data).report))
  {
    hide ReadAll, ScanAll, ValueOf, Lines;
    var ls := Lines(data);
    if ls != [] {
      var rest := ls[1..];
      ReadAllOneLine(Submitting(NO_TERMS), rest);
      ReadAllOneLine(Canceling(NO_CANCEL), rest);
      ReadAllOneLine(Reporting(NO_REPORT), rest);
      DraftKind(Submitting(NO_TERMS), rest);
      DraftKind(Canceling(NO_CANCEL), rest);
      DraftKind(Reporting(NO_REPORT), rest);
    }
  }

  // ---------- Round trips ----------

  /** What two decimals and one line can carry. */
  ghost predicate Printable(t: Terms) {
    OneLine(t.clientId) && OneLine(t.symbol) && Whole(t.price) && Whole(t.stopPrice) && t.stopPrice >= 0.0
  }

  lemma PrintableRecovers(t: Terms)
    ensures Recovered(t) == t <==> Whole(t.price) && Whole(t.stopPrice) && t.stopPrice >= 0.0
  {
    assert Cents(0.0) == 0;
  }

  lemma SubmitRecovered(t: Terms)
    requires OneLine(t.clientId) && OneLine(t.symbol)
    ensures Parsed(SubmitText(t)) == OrderSubmit(Recovered(t))
    ensures Parsed(PythonSubmitText(t)) == OrderSubmit(Recovered(t))
  {
    hide ReadAll, ScanAll, ValueOf, Lines, Joined, TermLines, StopLines, QuantityLine, Recovered;
    TermLinesFit(t);
    ComesApart("ORDER_SUBMIT", SubmitFields(t));
    ComesApart("ORDER_SUBMIT", PythonSubmitFields(t));
    SubmitFieldsRead(t);
  }

  /** The C++ server reads back exactly the order that was printed, by C++ or by Python with its
      other order of fields, if and only if the order is printable. */
  lemma SubmitRoundTrip(t: Terms)
    ensures Parsed(SubmitText(t)) == OrderSubmit(t) <==> Printable(t)
    ensures Parsed(PythonSubmitText(t)) == OrderSubmit(t) <==> Printable(t)
  {
    hide Parsed, SubmitText, PythonSubmitText, Recovered, Whole;
    if OneLine(t.clientId) && OneLine(t.symbol) {
      SubmitRecovered(t);
      PrintableRecovers(t);
    } else {
      ParsedOneLine(SubmitText(t));
      ParsedOneLine(PythonSubmitText(t));
    }
  }

  /** A price of a tenth of a hundredth arrives as zero. */
  lemma SmallPriceLost(t: Terms)
    requires t.price == 0.001 && OneLine(t.clientId) && OneLine(t.symbol)
    ensures Parsed(SubmitText(t)) == OrderSubmit(Recovered(t)) && Recovered(t).price == 0.0
  {
    hide Parsed, SubmitText, PythonSubmitText;
    SubmitRecovered(t);
    assert Cents(0.001) == 0;
  }

  lemma CancelRecovered(c: Cancellation)
    requires OneLine(c.orderId) && OneLine(c.clientId)
    ensures Parsed(CancelText(c)) == OrderCancel(c)
  {
    hide ReadAll, ScanAll, ValueOf, Lines, Joined, Field;
    OneFieldLine(OrderId, c.orderId);
    OneFieldLine(ClientId, c.clientId);
    ComesApart("ORDER_CANCEL", CancelFields(c));
    CancelFieldsRead(c);
  }

  /** A cancellation is read back if and only if its names have no newline. */
  lemma CancelRoundTrip(c: Cancellation)
    ensures Parsed(CancelText(c)) == OrderCancel(c) <==> OneLine(c.orderId) && OneLine(c.clientId)
  {
    hide Parsed, CancelText;
    if OneLine(c.orderId) && OneLine(c.clientId) {
      CancelRecovered(c);
    } else {
      ParsedOneLine(CancelText(c));
    }
  }

  lemma ReportLinesFit(r: Report, timestamp: string)
    requires OneLine(r.orderId) && OneLine(r.terms.clientId) && OneLine(r.terms.symbol) && OneLine(timestamp)
    ensures FieldLines(ReportFields(r, timestamp))
  {
    hide Field, TermLines, StopLines, QuantityLine, Digits, OneLine;
    TermLinesFit(r.terms);
    OneFieldLine(OrderId, r.orderId);
    NatOneLine(r.filled);
    OneFieldLine(FilledKey, Digits(r.filled));
    StatusReadsBack(r.status);
    OneFieldLine(StatusKey, StatusText(r.status));
    OneFieldLine(TimestampKey, timestamp);
  }

  lemma ReportRecovered(r: Report, timestamp: string)
    requires OneLine(r.orderId) && OneLine(r.terms.clientId) && OneLine(r.terms.symbol) && OneLine(timestamp)
    ensures Parsed(ReportText(r, timestamp)) == OrderStatus(r.(terms := Recovered(r.terms)))
  {
    hide ReadAll, ScanAll, ValueOf, Lines, Joined, ReportFields, Recovered;
    ReportLinesFit(r, timestamp);
    ComesApart("ORDER_STATUS", ReportFields(r, timestamp));
    ReportFieldsRead(r, timestamp);
  }

  /** A status report, its timestamp aside, is read back if and only if its order is printable and
      its id has no newline. */
  lemma ReportRoundTrip(r: Report, timestamp: string)
    requires OneLine(timestamp)
    ensures Parsed(ReportText(r, timestamp)) == OrderStatus(r) <==> OneLine(r.orderId) && Printable(r.terms)
  {
    hide Parsed, ReportText, Recovered, Whole;
    if OneLine(r.orderId) && OneLine(r.terms.clientId) && OneLine(r.terms.symbol) {
      ReportRecovered(r, timestamp);
      PrintableRecovers(r.terms);
    } else {
      ParsedOneLine(ReportText(r, timestamp));
    }
  }

  // ---------- Snapshots ----------

  lemma {:induction false} LevelLinesFit(ls: seq<PriceLevel>)
    ensures FieldLines(AllLevelLines(ls))
  {
    hide Field, Fixed2, Digits, OneLine;
    if ls != [] {
      var l := ls[|ls| - 1];
      LevelLinesFit(ls[..|ls| - 1]);
      Fixed2OneLine(l.price);
      OneFieldLine(PriceKey, Fixed2(l.price));
      NatOneLine(l.quantity);
      OneFieldLine(QuantityKey, Digits(l.quantity));
      NatOneLine(l.orderCount);
      OneFieldLine(CountKey, Digits(l.orderCount));
    }
  }

  lemma SnapshotComesApart(symbol: string, bids: seq<PriceLevel>, asks: seq<PriceLevel>)
    requires OneLine(symbol)
    ensures var (text, body) := (SnapshotText(symbol, bids, asks), SnapshotBody(symbol, bids, asks));
            && Lines(text) == [Named("type", "ORDERBOOK_SNAPSHOT")] + body
            && Split(text) == Lines(text) + [""]
            && ValueOf(Lines(text)[0]) == "ORDERBOOK_SNAPSHOT" && Lines(text)[1..] == body
  {
    hide Field, AllLevelLines, Lines, Split, Ended, ValueOf;
    var body := SnapshotBody(symbol, bids, asks);
    LevelLinesFit(bids);
    LevelLinesFit(asks);
    OneFieldLine(Symbol, symbol);
    assert FieldLines(["BIDS:"]) && FieldLines(["ASKS:"]);
    assert FieldLines(body);
    TypeLine("ORDERBOOK_SNAPSHOT", body);
    EndedLines([Named("type", "ORDERBOOK_SNAPSHOT")] + body);
  }

  /** The C++ parser recovers every level of a printed snapshot, prices to the hundredth. */
  lemma SnapshotRecovered(symbol: string, bids: seq<PriceLevel>, asks: seq<PriceLevel>)
    requires OneLine(symbol) && CountsFit(bids) && CountsFit(asks)
    ensures Parsed(SnapshotText(symbol, bids, asks)) == OrderbookSnapshot(symbol, EntriesOf(bids), EntriesOf(asks))
  {
    hide ReadAll, ScanAll, ValueOf, Lines, SnapshotText, SnapshotBody, EntriesOf;
    SnapshotComesApart(symbol, bids, asks);
    BodyScanned(Cpp, symbol, bids, asks);
  }

  /** The levels themselves, all fields given. */
  function ExactEntries(ls: seq<PriceLevel>): (es: seq<Entry>)
    ensures |es| == |ls|
    ensures forall i :: 0 <= i < |ls| ==>
              es[i] == Entry(ls[i].price, ls[i].quantity, ls[i].orderCount, {PriceKey, QuantityKey, CountKey})
  {
    seq(|ls|, i requires 0 <= i < |ls| =>
      Entry(ls[i].price, ls[i].quantity, ls[i].orderCount, {PriceKey, QuantityKey, CountKey}))
  }

  ghost predicate AllWhole(ls: seq<PriceLevel>) {
    forall i :: 0 <= i < |ls| ==> Whole(ls[i].price)
  }

  lemma EntriesExact(ls: seq<PriceLevel>)
    ensures EntriesOf(ls) == ExactEntries(ls) <==> AllWhole(ls)
  {
    assert forall i :: 0 <= i < |ls| ==> EntriesOf(ls)[i].price == Rounded(ls[i].price);
    if EntriesOf(ls) == ExactEntries(ls) {
      forall i | 0 <= i < |ls| ensures Whole(ls[i].price) {
        assert EntriesOf(ls)[i] == ExactEntries(ls)[i];
      }
    }
  }

  lemma {:induction false} ScanOneLine(d: Dialect, s: Scan, ls: seq<string>)
    requires OneLine(s.symbol) && AllOneLine(ls)
    ensures OneLine(ScanAll(d, s, ls).symbol)
    decreases |ls|
  {
    hide OneLine;
    if ls != [] {
      ValueOneLine(ls[0]);
      ScanOneLine(d, ScanLine(d, s, ls[0]), ls[1..]);
    }
  }

  /** No text parses to a snapshot with a newline in its symbol. */
  lemma SnapshotOneLine(data: string)
    ensures Parsed(data).OrderbookSnapshot? ==> OneLine(Parsed(data).symbol)
  {
    hide ReadAll, ScanAll, ValueOf, Lines;
    if Lines(data) != [] {
      ScanOneLine(Cpp, START, Lines(data)[1..]);
    }
  }

  /** The C++ parser reads back exactly the symbol and levels that were printed, if and only if the
      symbol has no newline and every price is a whole hundredth. */
  lemma SnapshotRoundTrip(symbol: string, bids: seq<PriceLevel>, asks: seq<PriceLevel>)
    requires CountsFit(bids) && CountsFit(asks)
    ensures Parsed(SnapshotText(symbol, bids, asks))
            == OrderbookSnapshot(symbol, ExactEntries(bids), ExactEntries(asks))
            <==> OneLine(symbol) && AllWhole(bids) && AllWhole(asks)
  {
    hide Parsed, SnapshotText, EntriesOf, ExactEntries, AllWhole;
    if OneLine(symbol) {
      SnapshotRecovered(symbol, bids, asks);
      EntriesExact(bids);
      EntriesExact(asks);
    } else {
      SnapshotOneLine(SnapshotText(symbol, bids, asks));
    }
  }
}
