/** What one more line does to a message already read, for the C++ and the Python parser. */
module LineByLine {
  import opened Orders
  import opened Texts
  import opened Fields
  import opened Wire
  import opened Snapshots
  import opened Protocol
  import opened Spelling
  import PythonParser

  // ---------- One more line ----------

  /** One line more is read last; after a final newline an empty line comes before it. */
  lemma {:induction false} LinesMore(data: string, line: string)
    requires OneLine(line) && line != ""
    ensures Lines(data + "\n" + line)
            == Lines(data) + (if data == "" || data[|data| - 1] == '\n' then [""] else []) + [line]
    ensures Split(data + "\n" + line) == Split(data) + [line]
    decreases |data|
  {
    hide Lines, Split;
    var i := Break(data);
    NoLines();
    FirstLine(line, "");
    if i == |data| {
      assert data[..i] == data;
      FirstLine(data, line);
    } else {
      var first, rest := data[..i], data[i + 1..];
      assert data == first + "\n" + rest;
      assert data + "\n" + line == first + "\n" + (rest + "\n" + line);
      FirstLine(first, rest);
      FirstLine(first, rest + "\n" + line);
      LinesMore(rest, line);
    }
  }

  lemma NoLines()
    ensures Lines("") == []
  {
  }

  lemma EmptyIgnored(d: Draft)
    ensures Read(d, "") == d && ReadAll(d, [""]) == d && ReadAll(d, []) == d
  {
    hide Is;
    NoField("");
    assert [""][1..] == [];
    assert ReadAll(Read(d, ""), []) == d;
  }

  lemma ReadLast(d: Draft, ls: seq<string>, extra: seq<string>, line: string)
    requires extra == [] || extra == [""]
    ensures ReadAll(d, ls + extra + [line]) == Read(ReadAll(d, ls), line)
  {
    hide Read;
    ReadAppend(d, ls + extra, [line]);
    ReadAppend(d, ls, extra);
    EmptyIgnored(ReadAll(d, ls));
    assert [line][1..] == [];
    assert ReadAll(Read(ReadAll(d, ls), line), []) == Read(ReadAll(d, ls), line);
  }

  /** The C++ parser takes a message up where it stood before the line. */
  lemma ParsedMore(data: string, line: string)
    requires OneLine(line) && line != ""
    ensures var m, n := Parsed(data), Parsed(data + "\n" + line);
            && (m.OrderSubmit? ==> n == OrderSubmit(ReadSubmit(m.terms, line)))
            && (m.OrderCancel? ==> n == OrderCancel(ReadCancel(m.cancellation, line)))
            && (m.OrderStatus? ==> n == OrderStatus(ReadReport(m.report, line)))
  {
    hide ReadAll, ScanAll, ValueOf, Lines, ReadSubmit, ReadCancel, ReadReport;
    var ls := Lines(data);
    LinesMore(data, line);
    if ls != [] {
      var extra := if data == "" || data[|data| - 1] == '\n' then [""] else [];
      var rest := ls[1..];
      assert (ls + extra + [line])[1..] == rest + extra + [line];
      ReadLast(Submitting(NO_TERMS), rest, extra, line);
      ReadLast(Canceling(NO_CANCEL), rest, extra, line);
      ReadLast(Reporting(NO_REPORT), rest, extra, line);
      DraftKind(Submitting(NO_TERMS), rest);
      DraftKind(Canceling(NO_CANCEL), rest);
      DraftKind(Reporting(NO_REPORT), rest);
    }
  }

  // ---------- Beginnings ----------

  /** The first line names the type; whatever is not given then is empty, zero, or the first of
      its enumeration. */
  lemma Begins(name: string)
    requires OneLine(name) && '=' !in name
    ensures Parsed(name + "=" + "ORDER_SUBMIT") == OrderSubmit(Terms("", "", Buy, Limit, 0.0, 0.0, 0))
    ensures Parsed(name + "=" + "ORDER_CANCEL") == OrderCancel(Cancellation("", ""))
    ensures Parsed(name + "=" + "ORDER_STATUS")
            == OrderStatus(Report("", Terms("", "", Buy, Limit, 0.0, 0.0, 0), 0, Pending))
    ensures Parsed(name + "=" + "ORDERBOOK_SNAPSHOT") == OrderbookSnapshot("", [], [])
  {
    hide Lines, ValueOf;
    FirstIs(name, "ORDER_SUBMIT");
    FirstIs(name, "ORDER_CANCEL");
    FirstIs(name, "ORDER_STATUS");
    FirstIs(name, "ORDERBOOK_SNAPSHOT");
  }

  lemma FirstIs(name: string, v: string)
    requires OneLine(name) && '=' !in name && OneLine(v)
    ensures Lines(name + "=" + v) == [name + "=" + v] && ValueOf(name + "=" + v) == v
    ensures Split(name + "=" + v) == [name + "=" + v]
  {
    hide Lines, ValueOf, Split;
    EqualsAt(name, v);
    FirstLine(name + "=" + v, "");
  }

  /** No line at all, or a type nobody knows, is an error. */
  lemma Refused(name: string, v: string)
    requires OneLine(name) && '=' !in name && OneLine(v)
    ensures Parsed("") == Error("PARSE_ERROR", "Empty message")
    ensures v !in ["ORDER_SUBMIT", "ORDER_CANCEL", "ORDER_STATUS", "ORDERBOOK_SNAPSHOT", "TRADE_NOTIFICATION", "ERROR",
                   "SNAPSHOT_REQUEST", "LOGIN", "LOGIN_RESPONSE", "REGISTER", "REGISTER_RESPONSE"]
            ==> Parsed(name + "=" + v) == Error("PARSE_ERROR", "Unknown message type: " + v)
    ensures v in ["TRADE_NOTIFICATION", "ERROR", "SNAPSHOT_REQUEST", "LOGIN", "LOGIN_RESPONSE", "REGISTER",
                  "REGISTER_RESPONSE"]
            ==> Parsed(name + "=" + v) == Other(v)
  {
    hide ValueOf, ReadAll, ScanAll;
    FirstIs(name, v);
  }

  // ---------- Lines of a submission, a cancellation, a report ----------

  /** Each field of an order goes where its key says; a side, kind or status nobody knows counts as
      a purchase, a limit order, pending. */
  lemma SubmitTakes(data: string, v: string)
    requires Parsed(data).OrderSubmit? && OneLine(v)
    ensures var t := Parsed(data).terms;
            && Parsed(data + "\n" + ("client_id=" + v)) == OrderSubmit(t.(clientId := v))
            && Parsed(data + "\n" + ("symbol=" + v)) == OrderSubmit(t.(symbol := v))
            && Parsed(data + "\n" + ("side=" + v)) == OrderSubmit(t.(side := if v == "SELL" then Sell else Buy))
            && Parsed(data + "\n" + ("order_type=" + v))
               == OrderSubmit(t.(kind := if v == "MARKET" then Market else if v == "STOP" then Stop
                                         else if v == "STOP_LIMIT" then StopLimit else Limit))
            && Parsed(data + "\n" + ("price=" + v)) == OrderSubmit(t.(price := StreamReal(v)))
            && Parsed(data + "\n" + ("quantity=" + v)) == OrderSubmit(t.(quantity := StreamNat(v, 0xFFFF_FFFF)))
            && Parsed(data + "\n" + ("stop_price=" + v)) == OrderSubmit(t.(stopPrice := StreamReal(v)))
  {
    hide Parsed, Field, Is, ValueOf, StreamReal, StreamNat, SideOf, KindOf, StatusOf, ReadSubmit;
    var t := Parsed(data).terms;
    KnownWords(v);
    NamesSpelled(v);
    NumbersSpelled(v);
    forall k: Key
      ensures Parsed(data + "\n" + Field(k, v)) == OrderSubmit(PutTerm(t, k, v))
    {
      FieldOneLine(k, v);
      ParsedMore(data, Field(k, v));
      ReadPuts(Submitting(t), k, v);
    }
  }

  /** Words nobody knows count as a purchase, a limit order, pending. */
  lemma KnownWords(v: string)
    ensures SideOf(v) == if v == "SELL" then Sell else Buy
    ensures KindOf(v)
            == if v == "MARKET" then Market else if v == "STOP" then Stop
               else if v == "STOP_LIMIT" then StopLimit else Limit
    ensures StatusOf(v)
            == if v == "PARTIAL" then Partial else if v == "FILLED" then Filled
               else if v == "CANCELED" then Canceled else if v == "REJECTED" then Rejected else Pending
  {
  }

  lemma CancelTakes(data: string, v: string)
    requires Parsed(data).OrderCancel? && OneLine(v)
    ensures var c := Parsed(data).cancellation;
            && Parsed(data + "\n" + ("order_id=" + v)) == OrderCancel(c.(orderId := v))
            && Parsed(data + "\n" + ("client_id=" + v)) == OrderCancel(c.(clientId := v))
  {
    hide Parsed, Field, Is, ValueOf, ReadCancel;
    NamesSpelled(v);
    forall k | k in {OrderId, ClientId}
      ensures Parsed(data + "\n" + Field(k, v)) == Finished(Put(Canceling(Parsed(data).cancellation), k, v))
    {
      FieldOneLine(k, v);
      ParsedMore(data, Field(k, v));
      ReadPuts(Canceling(Parsed(data).cancellation), k, v);
    }
  }

  lemma ReportTakes(data: string, v: string)
    requires Parsed(data).OrderStatus? && OneLine(v)
    ensures var r := Parsed(data).report;
            var t := r.terms;
            && Parsed(data + "\n" + ("order_id=" + v)) == OrderStatus(r.(orderId := v))
            && Parsed(data + "\n" + ("client_id=" + v)) == OrderStatus(r.(terms := t.(clientId := v)))
            && Parsed(data + "\n" + ("symbol=" + v)) == OrderStatus(r.(terms := t.(symbol := v)))
            && Parsed(data + "\n" + ("side=" + v))
               == OrderStatus(r.(terms := t.(side := if v == "SELL" then Sell else Buy)))
            && Parsed(data + "\n" + ("order_type=" + v))
               == OrderStatus(r.(terms := t.(kind := if v == "MARKET" then Market else if v == "STOP" then Stop
                                                     else if v == "STOP_LIMIT" then StopLimit else Limit)))
            && Parsed(data + "\n" + ("status=" + v))
               == OrderStatus(r.(status := if v == "PARTIAL" then Partial else if v == "FILLED" then Filled
                                           else if v == "CANCELED" then Canceled
                                           else if v == "REJECTED" then Rejected else Pending))
  {
    hide Parsed, Field, Is, ValueOf, StreamReal, StreamNat, SideOf, KindOf, StatusOf, ReadReport;
    KnownWords(v);
    NamesSpelled(v);
    ReportTakesField(data, v);
  }

  lemma ReportTakesField(data: string, v: string)
    requires Parsed(data).OrderStatus? && OneLine(v)
    ensures forall k :: Parsed(data + "\n" + Field(k, v)) == Finished(Put(Reporting(Parsed(data).report), k, v))
  {
    hide Parsed, Field, Is, ValueOf, ReadReport, Put;
    forall k: Key
      ensures Parsed(data + "\n" + Field(k, v)) == Finished(Put(Reporting(Parsed(data).report), k, v))
    {
      FieldOneLine(k, v);
      ParsedMore(data, Field(k, v));
      ReadPuts(Reporting(Parsed(data).report), k, v);
    }
  }

  lemma ReportTakesNumbers(data: string, v: string)
    requires Parsed(data).OrderStatus? && OneLine(v)
    ensures var r := Parsed(data).report;
            var t := r.terms;
            && Parsed(data + "\n" + ("price=" + v)) == OrderStatus(r.(terms := t.(price := StreamReal(v))))
            && Parsed(data + "\n" + ("stop_price=" + v)) == OrderStatus(r.(terms := t.(stopPrice := StreamReal(v))))
            && Parsed(data + "\n" + ("quantity=" + v))
               == OrderStatus(r.(terms := t.(quantity := StreamNat(v, 0xFFFF_FFFF))))
            && Parsed(data + "\n" + ("filled_quantity=" + v)) == OrderStatus(r.(filled := StreamNat(v, 0xFFFF_FFFF)))
  {
    hide Parsed, Field, Is, ValueOf, StreamReal, StreamNat, SideOf, KindOf, StatusOf, ReadReport;
    NumbersSpelled(v);
    ReportTakesField(data, v);
  }

  /** The line gives none of the fields of an order. */
  predicate NoOrderKey(line: string) {
    && !("client_id=" <= line) && !("symbol=" <= line) && !("side=" <= line) && !("order_type=" <= line)
    && !("price=" <= line) && !("quantity=" <= line) && !("stop_price=" <= line)
  }

  /** Nor any that only a status report has. */
  predicate NoReportKey(line: string) {
    NoOrderKey(line) && !("order_id=" <= line) && !("filled_quantity=" <= line) && !("status=" <= line)
  }

  lemma StartsSpelled(line: string)
    ensures Is(line, ClientId) == ("client_id=" <= line) && Is(line, OrderId) == ("order_id=" <= line)
    ensures Is(line, Symbol) == ("symbol=" <= line) && Is(line, SideKey) == ("side=" <= line)
    ensures Is(line, KindKey) == ("order_type=" <= line) && Is(line, StatusKey) == ("status=" <= line)
    ensures Is(line, PriceKey) == ("price=" <= line) && Is(line, StopPriceKey) == ("stop_price=" <= line)
    ensures Is(line, QuantityKey) == ("quantity=" <= line) && Is(line, FilledKey) == ("filled_quantity=" <= line)
    ensures Is(line, CountKey) == ("order_count=" <= line) && Is(line, TimestampKey) == ("timestamp=" <= line)
  {
    hide Field, Name;
    NamesSpelled("");
    NumbersSpelled("");
    forall k: Key ensures Is(line, k) == (Field(k, "") <= line) {
      FieldOfNothing(k);
    }
  }

  lemma FieldOfNothing(k: Key)
    ensures Field(k, "") == Name(k) + "="
  {
    hide Name;
    assert Name(k) + "=" + "" == Name(k) + "=";
  }

  /** A line without a known key in front changes nothing. */
  lemma OthersIgnored(data: string, line: string)
    requires OneLine(line) && line != ""
    ensures Parsed(data).OrderSubmit? && NoOrderKey(line) ==> Parsed(data + "\n" + line) == Parsed(data)
    ensures Parsed(data).OrderCancel? && !("order_id=" <= line) && !("client_id=" <= line)
            ==> Parsed(data + "\n" + line) == Parsed(data)
    ensures Parsed(data).OrderStatus? && NoReportKey(line) ==> Parsed(data + "\n" + line) == Parsed(data)
  {
    hide Parsed, Is, ValueOf;
    ParsedMore(data, line);
    StartsSpelled(line);
  }

  // ---------- Lines of a snapshot ----------

  /** Prices and quantities belong to the level being read; its order count completes it, on the
      side of the last marker. Outside the two sections they are ignored. */
  lemma ScanTakes(d: Dialect, s: Scan, v: string)
    ensures var e, inside := s.current, s.inBids || s.inAsks;
            var count := NatIn(d, v, 0x7FFF_FFFF);
            var full := Entry(e.price, e.quantity, count, e.given + {CountKey});
            && ScanLine(d, s, Field(PriceKey, v))
               == (if inside then s.(current := Entry(RealIn(d, v), e.quantity, e.orderCount, e.given + {PriceKey}))
                   else s)
            && ScanLine(d, s, Field(QuantityKey, v))
               == (if inside
                   then s.(current := Entry(e.price, NatIn(d, v, 0xFFFF_FFFF), e.orderCount, e.given + {QuantityKey}))
                   else s)
            && ScanLine(d, s, Field(CountKey, v))
               == (if s.inBids then s.(bids := s.bids + [full], current := Entry(0.0, 0, 0, {}))
                   else if s.inAsks then s.(asks := s.asks + [full], current := Entry(0.0, 0, 0, {}))
                   else s)
    ensures START == Scan("", [], [], false, false, Entry(0.0, 0, 0, {}))
    ensures RealIn(Cpp, v) == StreamReal(v) && RealIn(Python, v) == PythonReal(v)
    ensures NatIn(Cpp, v, 7) == StreamNat(v, 7) && NatIn(Python, v, 7) == PythonNat(v)
  {
    hide Field, Is, ValueOf, StreamReal, PythonReal, StreamNat, PythonNat;
    forall k: Key ensures ValueOf(Field(k, v)) == v && Field(k, v) != "BIDS:" && Field(k, v) != "ASKS:" {
      FieldIs(k, v);
      FieldIsNoMarker(k, v);
    }
    FieldIs(PriceKey, v);
    FieldIs(QuantityKey, v);
    FieldIs(CountKey, v);
    FieldIsNoMarker(PriceKey, v);
    FieldIsNoMarker(QuantityKey, v);
    FieldIsNoMarker(CountKey, v);
  }

  // ---------- Python ----------

  lemma PythonBegins(name: string, v: string)
    requires OneLine(name) && '=' !in name && OneLine(v)
    ensures PythonParser.Parsed(name + "=" + "ORDER_STATUS") == PythonParser.OrderStatus(map[])
    ensures PythonParser.Parsed(name + "=" + "ORDERBOOK_SNAPSHOT") == PythonParser.OrderbookSnapshot("", [], [])
    ensures v !in ["ORDER_STATUS", "ORDERBOOK_SNAPSHOT", "TRADE_NOTIFICATION", "ERROR", "LOGIN_RESPONSE",
                   "REGISTER_RESPONSE"]
            ==> PythonParser.Parsed(name + "=" + v) == PythonParser.Unknown(name + "=" + v)
    ensures PythonParser.Parsed("") == PythonParser.Unknown("")
  {
    hide Lines, Split, ValueOf;
    FirstIs(name, "ORDER_STATUS");
    FirstIs(name, "ORDERBOOK_SNAPSHOT");
    FirstIs(name, v);
    FirstLine("", "");
    NoValue();
  }

  lemma NoValue()
    ensures ValueOf("") == ""
  {
  }

  lemma PythonMore(data: string, line: string)
    requires OneLine(line) && line != "" && PythonParser.Parsed(data).OrderStatus?
    ensures PythonParser.Parsed(data + "\n" + line)
            == PythonParser.OrderStatus(PythonParser.ReadField(PythonParser.Parsed(data).fields, line))
  {
    hide Lines, Split, ValueOf, PythonParser.ReadField, PythonParser.ReadFields, ScanAll;
    var ls := Split(data);
    LinesMore(data, line);
    assert (ls + [line])[1..] == ls[1..] + [line];
    PythonParser.ReadAppend(map[], ls[1..], [line]);
    ReadLastField(PythonParser.ReadFields(map[], ls[1..]), line);
  }

  lemma ReadLastField(d: PythonParser.Dict, line: string)
    ensures PythonParser.ReadFields(d, [line]) == PythonParser.ReadField(d, line)
  {
    hide PythonParser.ReadField;
    assert [line][1..] == [];
    assert PythonParser.ReadFields(PythonParser.ReadField(d, line), []) == PythonParser.ReadField(d, line);
  }

  /** Python keeps words as they are, makes the numbers numbers, and gives no key that no line gave. */
  lemma PythonTakes(data: string, v: string)
    requires PythonParser.Parsed(data).OrderStatus? && OneLine(v)
    ensures var f := PythonParser.Parsed(data).fields;
            forall k | k != CountKey ::
              PythonParser.Parsed(data + "\n" + Field(k, v))
              == PythonParser.OrderStatus(
                   f[k := if k == PriceKey || k == StopPriceKey then PythonParser.Num(PythonReal(v))
                          else if k == QuantityKey || k == FilledKey then PythonParser.Int(PythonNat(v))
                          else PythonParser.Str(v)])
    ensures PythonParser.Parsed(data + "\n" + Field(CountKey, v)) == PythonParser.Parsed(data)
  {
    hide PythonParser.Parsed, PythonParser.ReadField, Field, PythonReal, PythonNat;
    forall k: Key
      ensures PythonParser.Parsed(data + "\n" + Field(k, v))
           == PythonParser.OrderStatus(PythonParser.Put(PythonParser.Parsed(data).fields, k, v))
    {
      FieldOneLine(k, v);
      PythonMore(data, Field(k, v));
      PythonParser.ReadPuts(PythonParser.Parsed(data).fields, k, v);
    }
  }

  lemma PythonIgnores(data: string, line: string)
    requires PythonParser.Parsed(data).OrderStatus? && OneLine(line) && line != ""
    requires NoReportKey(line) && !("timestamp=" <= line)
    ensures PythonParser.Parsed(data + "\n" + line) == PythonParser.Parsed(data)
  {
    hide PythonParser.Parsed, Is, ValueOf;
    PythonMore(data, line);
    StartsSpelled(line);
  }
}
