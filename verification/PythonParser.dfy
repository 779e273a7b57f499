/** The Python parser of server messages. */
module PythonParser {
  import opened Orders
  import opened Texts
  import opened Fields
  import opened Wire
  import opened Snapshots
  import Protocol

  datatype Value = Str(s: string) | Num(x: real) | Int(n: nat)

  /** A dictionary has only the keys some line gave. */
  type Dict = map<Key, Value>

  datatype Message =
    | OrderStatus(fields: Dict)
    | OrderbookSnapshot(symbol: string, bids: seq<Entry>, asks: seq<Entry>)
    | Other(messageType: string)
    | Unknown(raw: string)

  const OTHER_TYPES := ["TRADE_NOTIFICATION", "ERROR", "LOGIN_RESPONSE", "REGISTER_RESPONSE"]

  function ReadField(d: Dict, line: string): Dict {
    var v := ValueOf(line);
    if line == "" then d
    else if Is(line, OrderId) then d[OrderId := Str(v)]
    else if Is(line, ClientId) then d[ClientId := Str(v)]
    else if Is(line, Symbol) then d[Symbol := Str(v)]
    else if Is(line, SideKey) then d[SideKey := Str(v)]
    else if Is(line, PriceKey) then d[PriceKey := Num(PythonReal(v))]
    else if Is(line, QuantityKey) then d[QuantityKey := Int(PythonNat(v))]
    else if Is(line, FilledKey) then d[FilledKey := Int(PythonNat(v))]
    else if Is(line, StatusKey) then d[StatusKey := Str(v)]
    else if Is(line, KindKey) then d[KindKey := Str(v)]
    else if Is(line, StopPriceKey) then d[StopPriceKey := Num(PythonReal(v))]
    else if Is(line, TimestampKey) then d[TimestampKey := Str(v)]
    else d
  }

  function ReadFields(d: Dict, ls: seq<string>): Dict
    decreases |ls|
  {
    if ls == [] then d else ReadFields(ReadField(d, ls[0]), ls[1..])
  }

  function Parsed(data: string): Message {
    var ls := Split(data);
    var t := ValueOf(ls[0]);
    if t == "ORDER_STATUS" then OrderStatus(ReadFields(map[], ls[1..]))
    else if t == "ORDERBOOK_SNAPSHOT" then
      var s := ScanAll(Python, START, ls[1..]);
      OrderbookSnapshot(s.symbol, s.bids, s.asks)
    else if t in OTHER_TYPES then Other(t)
    else Unknown(data)
  }

  // ---------- The parsing loops ----------

  method ParseOrderStatus(lines: seq<string>) returns (result: Dict)
    ensures result == ReadFields(map[], lines)
  {
    hide ReadField;
    result := map[];
    for i := 0 to |lines|
      invariant ReadFields(map[], lines) == ReadFields(result, lines[i..])
    {
      assert lines[i..][1..] == lines[i + 1..];
      result := ReadField(result, lines[i]);
    }
  }

  method ParseSnapshot(lines: seq<string>) returns (s: Scan)
    ensures s == ScanAll(Python, START, lines)
  {
    hide ScanLine;
    s := START;
    for i := 0 to |lines|
      invariant ScanAll(Python, START, lines) == ScanAll(Python, s, lines[i..])
    {
      assert lines[i..][1..] == lines[i + 1..];
      s := ScanLine(Python, s, lines[i]);
    }
  }

  method ParseMessage(data: string) returns (m: Message)
    ensures m == Parsed(data)
  {
    hide ReadFields, ScanAll, ValueOf, Split;
    var lines := Split(data);
    var messageType := ValueOf(lines[0]);
    if messageType == "ORDER_STATUS" {
      var fields := ParseOrderStatus(lines[1..]);
      return OrderStatus(fields);
    } else if messageType == "ORDERBOOK_SNAPSHOT" {
      var s := ParseSnapshot(lines[1..]);
      return OrderbookSnapshot(s.symbol, s.bids, s.asks);
    } else if messageType in OTHER_TYPES {
      return Other(messageType);
    }
    return Unknown(data);
  }

  // ---------- Status reports ----------

  function Put(d: Dict, k: Key, v: string): Dict {
    match k
    case PriceKey => d[k := Num(PythonReal(v))]
    case StopPriceKey => d[k := Num(PythonReal(v))]
    case QuantityKey => d[k := Int(PythonNat(v))]
    case FilledKey => d[k := Int(PythonNat(v))]
    case CountKey => d
    case _ => d[k := Str(v)]
  }

  lemma ReadPuts(d: Dict, k: Key, v: string)
    ensures ReadField(d, Field(k, v)) == Put(d, k, v)
  {
    hide Field, Is, ValueOf, PythonReal, PythonNat;
    FieldIs(k, v);
    FieldIsNoMarker(k, v);
  }

  lemma {:induction false} ReadAppend(d: Dict, p: seq<string>, q: seq<string>)
    ensures ReadFields(d, p + q) == ReadFields(ReadFields(d, p), q)
    decreases |p|
  {
    hide ReadField;
    if p == [] {
      assert p + q == q;
    } else {
      ReadAppend(ReadField(d, p[0]), p[1..], q);
      assert (p + q)[1..] == p[1..] + q;
    }
  }

  lemma ReadMore(d: Dict, ls: seq<string>, k: Key, v: string)
    ensures ReadFields(d, ls + [Field(k, v)]) == Put(ReadFields(d, ls), k, v)
  {
    hide ReadField, Put;
    ReadAppend(d, ls, [Field(k, v)]);
    ReadPuts(ReadFields(d, ls), k, v);
    assert [Field(k, v)][1..] == [];
  }

  /** The dictionary of a status report: a stop price only if it is positive, prices to the hundredth. */
  function DictOf(r: Report, timestamp: string): Dict {
    var t := r.terms;
    map[OrderId := Str(r.orderId), ClientId := Str(t.clientId), Symbol := Str(t.symbol),
        SideKey := Str(SideText(t.side)), KindKey := Str(KindText(t.kind)), PriceKey := Num(Rounded(t.price)),
        QuantityKey := Int(t.quantity), FilledKey := Int(r.filled), StatusKey := Str(StatusText(r.status)),
        TimestampKey := Str(timestamp)]
    + if t.stopPrice > 0.0 then map[StopPriceKey := Num(Rounded(t.stopPrice))] else map[]
  }

  lemma ReadTerms(d: Dict, ls: seq<string>, t: Terms)
    ensures ReadFields(d, ls + TermLines(t))
            == ReadFields(d, ls)[ClientId := Str(t.clientId)][Symbol := Str(t.symbol)][SideKey := Str(SideText(t.side))]
                 [KindKey := Str(KindText(t.kind))][PriceKey := Num(Rounded(t.price))]
  {
    hide ReadFields, PythonReal, Fixed2, SideText, KindText, Field;
    var a := ls + [Field(ClientId, t.clientId)];
    var b := a + [Field(Symbol, t.symbol)];
    var c := b + [Field(SideKey, SideText(t.side))];
    var e := c + [Field(KindKey, KindText(t.kind))];
    ReadMore(d, ls, ClientId, t.clientId);
    ReadMore(d, a, Symbol, t.symbol);
    ReadMore(d, b, SideKey, SideText(t.side));
    ReadMore(d, c, KindKey, KindText(t.kind));
    ReadMore(d, e, PriceKey, Fixed2(t.price));
    Fixed2Read(t.price);
    assert ls + TermLines(t) == e + [Field(PriceKey, Fixed2(t.price))];
  }

  lemma ReadStop(d: Dict, ls: seq<string>, stopPrice: real)
    ensures ReadFields(d, ls + StopLines(stopPrice))
            == if stopPrice > 0.0 then ReadFields(d, ls)[StopPriceKey := Num(Rounded(stopPrice))] else ReadFields(d, ls)
  {
    hide ReadFields, PythonReal, Fixed2, Field;
    if stopPrice > 0.0 {
      ReadMore(d, ls, StopPriceKey, Fixed2(stopPrice));
      Fixed2Read(stopPrice);
    } else {
      assert ls + [] == ls;
    }
  }

  lemma ReadRest(d: Dict, ls: seq<string>, r: Report, timestamp: string)
    ensures ReadFields(d, ls + QuantityLine(r.terms) + [Field(FilledKey, Digits(r.filled))]
                             + [Field(StatusKey, StatusText(r.status))] + [Field(TimestampKey, timestamp)])
            == ReadFields(d, ls)[QuantityKey := Int(r.terms.quantity)][FilledKey := Int(r.filled)]
                 [StatusKey := Str(StatusText(r.status))][TimestampKey := Str(timestamp)]
  {
    hide ReadFields, Field, PythonNat, Digits, StatusText;
    var e := ls + QuantityLine(r.terms);
    var f := e + [Field(FilledKey, Digits(r.filled))];
    var g := f + [Field(StatusKey, StatusText(r.status))];
    ReadMore(d, ls, QuantityKey, Digits(r.terms.quantity));
    NatReadBack(r.terms.quantity, MAX_UINT32);
    ReadMore(d, e, FilledKey, Digits(r.filled));
    NatReadBack(r.filled, MAX_UINT32);
    ReadMore(d, f, StatusKey, StatusText(r.status));
    ReadMore(d, g, TimestampKey, timestamp);
  }

  lemma ReportFieldsRead(r: Report, timestamp: string)
    ensures ReadFields(map[], ReportFields(r, timestamp)) == DictOf(r, timestamp)
  {
    hide ReadFields, TermLines, StopLines, QuantityLine, Field, Rounded, SideText, KindText, StatusText, Digits;
    var t := r.terms;
    var a := [Field(OrderId, r.orderId)];
    var b := a + TermLines(t);
    assert [] + a == a;
    NoFields();
    ReadMore(map[], [], OrderId, r.orderId);
    ReadTerms(map[], a, t);
    ReadStop(map[], b, t.stopPrice);
    ReadRest(map[], b + StopLines(t.stopPrice), r, timestamp);
    SameDict(ReadFields(map[], ReportFields(r, timestamp)), r, timestamp);
  }

  lemma SameDict(d: Dict, r: Report, timestamp: string)
    requires var t := r.terms;
             var head := map[OrderId := Str(r.orderId)][ClientId := Str(t.clientId)][Symbol := Str(t.symbol)]
                            [SideKey := Str(SideText(t.side))][KindKey := Str(KindText(t.kind))]
                            [PriceKey := Num(Rounded(t.price))];
             var body := if t.stopPrice > 0.0 then head[StopPriceKey := Num(Rounded(t.stopPrice))] else head;
             d == body[QuantityKey := Int(t.quantity)][FilledKey := Int(r.filled)]
                      [StatusKey := Str(StatusText(r.status))][TimestampKey := Str(timestamp)]
    ensures d == DictOf(r, timestamp)
  {
    hide Rounded, SideText, KindText, StatusText;
  }

  lemma NoFields()
    ensures ReadFields(map[], []) == map[]
  {
  }

  /** Python reads a status report the C++ server printed into the dictionary of that report. */
  lemma ReportReadByPython(r: Report, timestamp: string)
    requires OneLine(r.orderId) && OneLine(r.terms.clientId) && OneLine(r.terms.symbol) && OneLine(timestamp)
    ensures Parsed(ReportText(r, timestamp)) == OrderStatus(DictOf(r, timestamp))
  {
    hide ReadFields, ScanAll, ValueOf, Lines, Split, Joined, ReportFields, DictOf;
    Protocol.ReportLinesFit(r, timestamp);
    Protocol.ComesApart("ORDER_STATUS", ReportFields(r, timestamp));
    ReportFieldsRead(r, timestamp);
  }

  // ---------- Snapshots ----------

  /** Python recovers every level of a snapshot the C++ server printed, just as C++ would. */
  lemma SnapshotReadByPython(symbol: string, bids: seq<PriceLevel>, asks: seq<PriceLevel>)
    requires OneLine(symbol) && CountsFit(bids) && CountsFit(asks)
    ensures Parsed(SnapshotText(symbol, bids, asks)) == OrderbookSnapshot(symbol, EntriesOf(bids), EntriesOf(asks))
  {
    hide ScanAll, ValueOf, Lines, Split, SnapshotText, SnapshotBody, EntriesOf;
    var body := SnapshotBody(symbol, bids, asks);
    Protocol.SnapshotComesApart(symbol, bids, asks);
    BodyScanned(Python, symbol, bids, asks);
    var s := Scan(symbol, EntriesOf(bids), EntriesOf(asks), false, true, BLANK);
    ScanAppend(Python, START, body, [""]);
    ScanOne(Python, s, "");
    assert Split(SnapshotText(symbol, bids, asks))[1..] == body + [""];
  }

  lemma SnapshotOneLine(data: string)
    ensures Parsed(data).OrderbookSnapshot? ==> OneLine(Parsed(data).symbol)
  {
    hide ReadFields, ScanAll, ValueOf, Split;
    Protocol.ScanOneLine(Python, START, Split(data)[1..]);
  }

  /** Python, too, reads back exactly what the C++ server printed under exactly that condition. */
  lemma SnapshotRoundTrip(symbol: string, bids: seq<PriceLevel>, asks: seq<PriceLevel>)
    requires CountsFit(bids) && CountsFit(asks)
    ensures Parsed(SnapshotText(symbol, bids, asks))
            == OrderbookSnapshot(symbol, Protocol.ExactEntries(bids), Protocol.ExactEntries(asks))
            <==> OneLine(symbol) && Protocol.AllWhole(bids) && Protocol.AllWhole(asks)
  {
    hide Parsed, SnapshotText, EntriesOf, Protocol.ExactEntries, Protocol.AllWhole;
    if OneLine(symbol) {
      SnapshotReadByPython(symbol, bids, asks);
      Protocol.EntriesExact(bids);
      Protocol.EntriesExact(asks);
    } else {
      SnapshotOneLine(SnapshotText(symbol, bids, asks));
    }
  }
}
