/** Messages as text: the C++ printer and parser, and the Python printer for orders. */
module Wire {
  import opened Orders
  import opened Texts
  import opened Fields

  /** What a submission and a status report both say about an order. */
  datatype Terms = Terms(clientId: string, symbol: string, side: Side, kind: Kind, price: real, stopPrice: real,
                         quantity: Qty)

  datatype Cancellation = Cancellation(orderId: string, clientId: string)

  datatype Report = Report(orderId: string, terms: Terms, filled: Qty, status: Status)

  const MAX_UINT32 := 0xFFFF_FFFF

  const NO_TERMS := Terms("", "", Buy, Limit, 0.0, 0.0, 0)
  const NO_CANCEL := Cancellation("", "")
  const NO_REPORT := Report("", NO_TERMS, 0, Pending)

  // ---------- Printing ----------

  /** A stop price is printed only if it is positive. */
  function StopLines(stopPrice: real): seq<string> {
    if stopPrice > 0.0 then [Field(StopPriceKey, Fixed2(stopPrice))] else []
  }

  function TermLines(t: Terms): seq<string> {
    [Field(ClientId, t.clientId)] + [Field(Symbol, t.symbol)] + [Field(SideKey, SideText(t.side))]
    + [Field(KindKey, KindText(t.kind))] + [Field(PriceKey, Fixed2(t.price))]
  }

  function QuantityLine(t: Terms): seq<string> {
    [Field(QuantityKey, Digits(t.quantity))]
  }

  function SubmitFields(t: Terms): seq<string> {
    TermLines(t) + StopLines(t.stopPrice) + QuantityLine(t)
  }

  /** Python puts the quantity before the stop price. */
  function PythonSubmitFields(t: Terms): seq<string> {
    TermLines(t) + QuantityLine(t) + StopLines(t.stopPrice)
  }

  function CancelFields(c: Cancellation): seq<string> {
    [Field(OrderId, c.orderId)] + [Field(ClientId, c.clientId)]
  }

  function ReportFields(r: Report, timestamp: string): seq<string> {
    [Field(OrderId, r.orderId)] + TermLines(r.terms) + StopLines(r.terms.stopPrice) + QuantityLine(r.terms)
    + [Field(FilledKey, Digits(r.filled))] + [Field(StatusKey, StatusText(r.status))]
    + [Field(TimestampKey, timestamp)]
  }

  function SubmitText(t: Terms): string {
    Joined([Named("type", "ORDER_SUBMIT")] + SubmitFields(t))
  }

  function PythonSubmitText(t: Terms): string {
    Joined([Named("type", "ORDER_SUBMIT")] + PythonSubmitFields(t))
  }

  /** Both implementations print a cancellation this way. */
  function CancelText(c: Cancellation): string {
    Joined([Named("type", "ORDER_CANCEL")] + CancelFields(c))
  }

  function ReportText(r: Report, timestamp: string): string {
    Joined([Named("type", "ORDER_STATUS")] + ReportFields(r, timestamp))
  }

  // ---------- Reading a line ----------

  function ReadSubmit(t: Terms, line: string): Terms {
    if Is(line, ClientId) then t.(clientId := ValueOf(line))
    else if Is(line, Symbol) then t.(symbol := ValueOf(line))
    else if Is(line, SideKey) then t.(side := SideOf(ValueOf(line)))
    else if Is(line, KindKey) then t.(kind := KindOf(ValueOf(line)))
    else if Is(line, PriceKey) then t.(price := StreamReal(ValueOf(line)))
    else if Is(line, QuantityKey) then t.(quantity := StreamNat(ValueOf(line), MAX_UINT32))
    else if Is(line, StopPriceKey) then t.(stopPrice := StreamReal(ValueOf(line)))
    else t
  }

  function ReadCancel(c: Cancellation, line: string): Cancellation {
    if Is(line, OrderId) then c.(orderId := ValueOf(line))
    else if Is(line, ClientId) then c.(clientId := ValueOf(line))
    else c
  }

  /** The timestamp is read too, into a field that is not part of this model. */
  function ReadReport(r: Report, line: string): Report {
    var t := r.terms;
    if Is(line, OrderId) then r.(orderId := ValueOf(line))
    else if Is(line, ClientId) then r.(terms := t.(clientId := ValueOf(line)))
    else if Is(line, Symbol) then r.(terms := t.(symbol := ValueOf(line)))
    else if Is(line, SideKey) then r.(terms := t.(side := SideOf(ValueOf(line))))
    else if Is(line, PriceKey) then r.(terms := t.(price := StreamReal(ValueOf(line))))
    else if Is(line, QuantityKey) then r.(terms := t.(quantity := StreamNat(ValueOf(line), MAX_UINT32)))
    else if Is(line, FilledKey) then r.(filled := StreamNat(ValueOf(line), MAX_UINT32))
    else if Is(line, StatusKey) then r.(status := StatusOf(ValueOf(line)))
    else if Is(line, KindKey) then r.(terms := t.(kind := KindOf(ValueOf(line))))
    else if Is(line, StopPriceKey) then r.(terms := t.(stopPrice := StreamReal(ValueOf(line))))
    else r
  }

  // ---------- Reading all lines ----------

  /** A message being read. */
  datatype Draft = Submitting(t: Terms) | Canceling(c: Cancellation) | Reporting(r: Report)

  function Read(d: Draft, line: string): Draft {
    match d
    case Submitting(t) => Submitting(ReadSubmit(t, line))
    case Canceling(c) => Canceling(ReadCancel(c, line))
    case Reporting(r) => Reporting(ReadReport(r, line))
  }

  function ReadAll(d: Draft, ls: seq<string>): Draft
    decreases |ls|
  {
    if ls == [] then d else ReadAll(Read(d, ls[0]), ls[1..])
  }

  // ---------- Field by field ----------

  function PutTerm(t: Terms, k: Key, v: string): Terms {
    match k
    case ClientId => t.(clientId := v)
    case Symbol => t.(symbol := v)
    case SideKey => t.(side := SideOf(v))
    case KindKey => t.(kind := KindOf(v))
    case PriceKey => t.(price := StreamReal(v))
    case StopPriceKey => t.(stopPrice := StreamReal(v))
    case QuantityKey => t.(quantity := StreamNat(v, MAX_UINT32))
    case _ => t
  }

  /** What a field does to a draft, whichever line it stands on. */
  function Put(d: Draft, k: Key, v: string): Draft {
    match d
    case Submitting(t) => Submitting(PutTerm(t, k, v))
    case Canceling(c) =>
      Canceling(match k case OrderId => c.(orderId := v) case ClientId => c.(clientId := v) case _ => c)
    case Reporting(r) =>
      Reporting(
        match k
        case OrderId => r.(orderId := v)
        case FilledKey => r.(filled := StreamNat(v, MAX_UINT32))
        case StatusKey => r.(status := StatusOf(v))
        case _ => r.(terms := PutTerm(r.terms, k, v)))
  }

  lemma ReadPuts(d: Draft, k: Key, v: string)
    ensures Read(d, Field(k, v)) == Put(d, k, v)
  {
    hide Field, Is, ValueOf, SideOf, KindOf, StatusOf, StreamReal, StreamNat;
    FieldIs(k, v);
  }

  lemma {:induction false} ReadAppend(d: Draft, p: seq<string>, q: seq<string>)
    ensures ReadAll(d, p + q) == ReadAll(ReadAll(d, p), q)
    decreases |p|
  {
    hide Read;
    if p == [] {
      assert p + q == q;
    } else {
      ReadAppend(Read(d, p[0]), p[1..], q);
      assert (p + q)[1..] == p[1..] + q;
    }
  }

  lemma ReadMore(d: Draft, ls: seq<string>, k: Key, v: string)
    ensures ReadAll(d, ls + [Field(k, v)]) == Put(ReadAll(d, ls), k, v)
  {
    hide Read, Put;
    ReadAppend(d, ls, [Field(k, v)]);
    ReadPuts(ReadAll(d, ls), k, v);
    assert [Field(k, v)][1..] == [];
  }

  /** A number as it comes out after two decimals. */
  function Rounded(x: real): real {
    InCents(Cents(x))
  }

  function TermsOf(d: Draft): Terms
    requires !d.Canceling?
  {
    if d.Submitting? then d.t else d.r.terms
  }

  function WithTerms(d: Draft, t: Terms): Draft
    requires !d.Canceling?
  {
    if d.Submitting? then Submitting(t) else Reporting(d.r.(terms := t))
  }

  lemma {:induction false} DraftKind(d: Draft, ls: seq<string>)
    ensures ReadAll(d, ls).Canceling? == d.Canceling?
    ensures ReadAll(d, ls).Submitting? == d.Submitting?
    decreases |ls|
  {
    hide ReadSubmit, ReadCancel, ReadReport;
    if ls != [] { DraftKind(Read(d, ls[0]), ls[1..]); }
  }

  lemma ReadStop(d: Draft, ls: seq<string>, stopPrice: real)
    requires !d.Canceling? && !ReadAll(d, ls).Canceling? && TermsOf(ReadAll(d, ls)).stopPrice == 0.0
    ensures var t := TermsOf(ReadAll(d, ls)).(stopPrice := if stopPrice > 0.0 then Rounded(stopPrice) else 0.0);
            ReadAll(d, ls + StopLines(stopPrice)) == WithTerms(ReadAll(d, ls), t)
  {
    hide Read, ReadAll, StreamReal, Fixed2;
    if stopPrice > 0.0 {
      ReadMore(d, ls, StopPriceKey, Fixed2(stopPrice));
      Fixed2Read(stopPrice);
    } else {
      assert ls + [] == ls;
    }
  }

  lemma ReadTerms(d: Draft, ls: seq<string>, t: Terms)
    requires !d.Canceling? && !ReadAll(d, ls).Canceling?
    ensures var u := TermsOf(ReadAll(d, ls));
            ReadAll(d, ls + TermLines(t))
            == WithTerms(ReadAll(d, ls),
                         t.(price := Rounded(t.price), stopPrice := u.stopPrice, quantity := u.quantity))
  {
    hide Read, ReadAll, StreamReal, SideOf, KindOf, StatusOf, Fixed2;
    var a := ls + [Field(ClientId, t.clientId)];
    var b := a + [Field(Symbol, t.symbol)];
    var c := b + [Field(SideKey, SideText(t.side))];
    var e := c + [Field(KindKey, KindText(t.kind))];
    ReadMore(d, ls, ClientId, t.clientId);
    ReadMore(d, a, Symbol, t.symbol);
    ReadMore(d, b, SideKey, SideText(t.side));
    ReadMore(d, c, KindKey, KindText(t.kind));
    ReadMore(d, e, PriceKey, Fixed2(t.price));
    SideReadsBack(t.side);
    KindReadsBack(t.kind);
    Fixed2Read(t.price);
    assert ls + TermLines(t) == e + [Field(PriceKey, Fixed2(t.price))];
  }

  lemma ReadQuantity(d: Draft, ls: seq<string>, t: Terms)
    requires !d.Canceling? && !ReadAll(d, ls).Canceling?
    ensures ReadAll(d, ls + QuantityLine(t))
            == WithTerms(ReadAll(d, ls), TermsOf(ReadAll(d, ls)).(quantity := t.quantity))
  {
    hide Read, ReadAll, StreamNat, Digits;
    ReadMore(d, ls, QuantityKey, Digits(t.quantity));
    NatReadBack(t.quantity, MAX_UINT32);
  }

  /** The terms as the parser recovers them. */
  function Recovered(t: Terms): Terms {
    t.(price := Rounded(t.price), stopPrice := if t.stopPrice > 0.0 then Rounded(t.stopPrice) else 0.0)
  }

  lemma SubmitFieldsRead(t: Terms)
    ensures ReadAll(Submitting(NO_TERMS), SubmitFields(t)) == Submitting(Recovered(t))
    ensures ReadAll(Submitting(NO_TERMS), PythonSubmitFields(t)) == Submitting(Recovered(t))
  {
    hide Read, TermLines, StopLines, QuantityLine, Rounded;
    var d, lines := Submitting(NO_TERMS), TermLines(t);
    assert [] + lines == lines;
    ReadTerms(d, [], t);
    ReadStop(d, lines, t.stopPrice);
    ReadQuantity(d, lines + StopLines(t.stopPrice), t);
    ReadQuantity(d, lines, t);
    ReadStop(d, lines + QuantityLine(t), t.stopPrice);
  }

  lemma CancelFieldsRead(c: Cancellation)
    ensures ReadAll(Canceling(NO_CANCEL), CancelFields(c)) == Canceling(c)
  {
    hide Read;
    var a := [Field(OrderId, c.orderId)];
    assert [] + a == a;
    ReadMore(Canceling(NO_CANCEL), [], OrderId, c.orderId);
    ReadMore(Canceling(NO_CANCEL), a, ClientId, c.clientId);
  }

  lemma ReportFieldsRead(r: Report, timestamp: string)
    ensures ReadAll(Reporting(NO_REPORT), ReportFields(r, timestamp)) == Reporting(r.(terms := Recovered(r.terms)))
  {
    hide Read, TermLines, StopLines, QuantityLine, Rounded, StreamNat, Digits, StatusOf;
    var d, t := Reporting(NO_REPORT), r.terms;
    var a := [Field(OrderId, r.orderId)];
    var b := a + TermLines(t);
    var c := b + StopLines(t.stopPrice);
    var e := c + QuantityLine(t);
    var f := e + [Field(FilledKey, Digits(r.filled))];
    var g := f + [Field(StatusKey, StatusText(r.status))];
    assert [] + a == a;
    ReadMore(d, [], OrderId, r.orderId);
    ReadTerms(d, a, t);
    ReadStop(d, b, t.stopPrice);
    ReadQuantity(d, c, t);
    NatReadBack(r.filled, MAX_UINT32);
    ReadMore(d, e, FilledKey, Digits(r.filled));
    StatusReadsBack(r.status);
    ReadMore(d, f, StatusKey, StatusText(r.status));
    ReadMore(d, g, TimestampKey, timestamp);
  }
}
