/** Book snapshots as text: the printer, and the loop that both parsers run. */
module Snapshots {
  import opened Orders
  import opened Texts
  import opened Fields
  import opened Wire

  /** The two parsers differ in how they read numbers, and Python skips empty lines. */
  datatype Dialect = Cpp | Python

  /** A level being read. `given` lists the fields some line gave: the others are zero in C++ and
      missing in Python. */
  datatype Entry = Entry(price: real, quantity: nat, orderCount: nat, given: set<Key>)

  const BLANK := Entry(0.0, 0, 0, {})

  datatype Scan = Scan(symbol: string, bids: seq<Entry>, asks: seq<Entry>, inBids: bool, inAsks: bool, current: Entry)

  const START := Scan("", [], [], false, false, BLANK)

  function RealIn(d: Dialect, v: string): real {
    if d.Cpp? then StreamReal(v) else PythonReal(v)
  }

  function NatIn(d: Dialect, v: string, max: nat): nat {
    if d.Cpp? then StreamNat(v, max) else PythonNat(v)
  }

  // ---------- Printing ----------

  function LevelLines(l: PriceLevel): seq<string> {
    [Field(PriceKey, Fixed2(l.price))] + [Field(QuantityKey, Digits(l.quantity))]
    + [Field(CountKey, Digits(l.orderCount))]
  }

  function AllLevelLines(ls: seq<PriceLevel>): seq<string> {
    if ls == [] then [] else AllLevelLines(ls[..|ls| - 1]) + LevelLines(ls[|ls| - 1])
  }

  function SnapshotBody(symbol: string, bids: seq<PriceLevel>, asks: seq<PriceLevel>): seq<string> {
    [Field(Symbol, symbol)] + ["BIDS:"] + AllLevelLines(bids) + ["ASKS:"] + AllLevelLines(asks)
  }

  function SnapshotText(symbol: string, bids: seq<PriceLevel>, asks: seq<PriceLevel>): string {
    Ended([Named("type", "ORDERBOOK_SNAPSHOT")] + SnapshotBody(symbol, bids, asks))
  }

  // ---------- Scanning ----------

  function ScanLine(d: Dialect, s: Scan, line: string): Scan {
    if d.Python? && line == "" then s
    else if Is(line, Symbol) then s.(symbol := ValueOf(line))
    else if line == "BIDS:" then s.(inBids := true, inAsks := false)
    else if line == "ASKS:" then s.(inBids := false, inAsks := true)
    else if s.inBids || s.inAsks then
      var e := s.current;
      if Is(line, PriceKey) then
        s.(current := e.(price := RealIn(d, ValueOf(line)), given := e.given + {PriceKey}))
      else if Is(line, QuantityKey) then
        s.(current := e.(quantity := NatIn(d, ValueOf(line), MAX_UINT32), given := e.given + {QuantityKey}))
      else if Is(line, CountKey) then
        var full := e.(orderCount := NatIn(d, ValueOf(line), MAX_INT32), given := e.given + {CountKey});
        if s.inBids then s.(bids := s.bids + [full], current := BLANK)
        else s.(asks := s.asks + [full], current := BLANK)
      else s
    else s
  }

  const MAX_INT32 := 0x7FFF_FFFF

  function ScanAll(d: Dialect, s: Scan, ls: seq<string>): Scan
    decreases |ls|
  {
    if ls == [] then s else ScanAll(d, ScanLine(d, s, ls[0]), ls[1..])
  }

  lemma {:induction false} ScanAppend(d: Dialect, s: Scan, p: seq<string>, q: seq<string>)
    ensures ScanAll(d, s, p + q) == ScanAll(d, ScanAll(d, s, p), q)
    decreases |p|
  {
    hide ScanLine;
    if p == [] {
      assert p + q == q;
    } else {
      ScanAppend(d, ScanLine(d, s, p[0]), p[1..], q);
      assert (p + q)[1..] == p[1..] + q;
    }
  }

  lemma ScanOne(d: Dialect, s: Scan, line: string)
    ensures ScanAll(d, s, [line]) == ScanLine(d, s, line)
  {
    hide ScanLine;
    assert [line][1..] == [];
    assert ScanAll(d, ScanLine(d, s, line), []) == ScanLine(d, s, line);
  }

  /** A level as the parsers recover it. */
  function EntryOf(l: PriceLevel): Entry {
    Entry(Rounded(l.price), l.quantity, l.orderCount, {PriceKey, QuantityKey, CountKey})
  }

  function EntriesOf(ls: seq<PriceLevel>): (es: seq<Entry>)
    ensures |es| == |ls| && forall i :: 0 <= i < |ls| ==> es[i] == EntryOf(ls[i])
  {
    seq(|ls|, i requires 0 <= i < |ls| => EntryOf(ls[i]))
  }

  /** Inside a section, where nothing of the next level has been read yet. */
  predicate Between(s: Scan) {
    s.inBids != s.inAsks && s.current == BLANK
  }

  function WithEntries(s: Scan, es: seq<Entry>): Scan {
    if s.inBids then s.(bids := s.bids + es) else s.(asks := s.asks + es)
  }

  lemma MarkerIsNoField(line: string)
    requires line == "BIDS:" || line == "ASKS:"
    ensures forall k :: !Is(line, k)
  {
    NoField(line);
  }

  lemma FieldIsNoMarker(k: Key, v: string)
    ensures Field(k, v) != "" && Field(k, v) != "BIDS:" && Field(k, v) != "ASKS:"
  {
    assert Field(k, v)[|Name(k)|] == '=';
    assert '=' in Field(k, v);
    assert '=' !in "BIDS:" && '=' !in "ASKS:";
  }

  lemma ScanField(d: Dialect, s: Scan, k: Key, v: string)
    requires s.inBids != s.inAsks && k in {PriceKey, QuantityKey, CountKey}
    ensures var e := s.current;
            ScanLine(d, s, Field(k, v))
            == match k
               case PriceKey => s.(current := e.(price := RealIn(d, v), given := e.given + {PriceKey}))
               case QuantityKey =>
                 s.(current := e.(quantity := NatIn(d, v, MAX_UINT32), given := e.given + {QuantityKey}))
               case _ => WithEntries(s, [e.(orderCount := NatIn(d, v, MAX_INT32), given := e.given + {CountKey})])
                         .(current := BLANK)
  {
    hide Field, Is, ValueOf, RealIn, NatIn;
    FieldIs(k, v);
    FieldIsNoMarker(k, v);
  }

  lemma NumbersReadBack(d: Dialect, price: real, quantity: nat, count: nat)
    requires quantity <= MAX_UINT32 && count <= MAX_INT32
    ensures RealIn(d, Fixed2(price)) == Rounded(price)
    ensures NatIn(d, Digits(quantity), MAX_UINT32) == quantity && NatIn(d, Digits(count), MAX_INT32) == count
  {
    hide StreamReal, PythonReal, StreamNat, PythonNat;
    Fixed2Read(price);
    NatReadBack(quantity, MAX_UINT32);
    NatReadBack(count, MAX_INT32);
  }

  lemma LevelScanned(d: Dialect, s: Scan, l: PriceLevel)
    requires Between(s) && l.orderCount <= MAX_INT32
    ensures ScanAll(d, s, LevelLines(l)) == WithEntries(s, [EntryOf(l)])
  {
    hide ScanAll, ScanLine, RealIn, NatIn, Field, Fixed2, Rounded;
    var a, b := Field(PriceKey, Fixed2(l.price)), Field(QuantityKey, Digits(l.quantity));
    var c := Field(CountKey, Digits(l.orderCount));
    var s1 := ScanLine(d, s, a);
    var s2 := ScanLine(d, s1, b);
    ScanAppend(d, s, [a] + [b], [c]);
    ScanAppend(d, s, [a], [b]);
    ScanOne(d, s, a);
    ScanOne(d, s1, b);
    ScanOne(d, s2, c);
    ScanField(d, s, PriceKey, Fixed2(l.price));
    ScanField(d, s1, QuantityKey, Digits(l.quantity));
    ScanField(d, s2, CountKey, Digits(l.orderCount));
    NumbersReadBack(d, l.price, l.quantity, l.orderCount);
    assert s2.current.given + {CountKey} == {PriceKey, QuantityKey, CountKey};
  }

  ghost predicate CountsFit(ls: seq<PriceLevel>) {
    forall i :: 0 <= i < |ls| ==> ls[i].orderCount <= MAX_INT32
  }

  lemma {:induction false} LevelsScanned(d: Dialect, s: Scan, ls: seq<PriceLevel>)
    requires Between(s) && CountsFit(ls)
    ensures ScanAll(d, s, AllLevelLines(ls)) == WithEntries(s, EntriesOf(ls))
    decreases |ls|
  {
    hide ScanAll, LevelLines, EntryOf;
    if ls == [] {
      ScanNone(d, s);
      assert s.bids + [] == s.bids && s.asks + [] == s.asks;
    } else {
      var before, l := ls[..|ls| - 1], ls[|ls| - 1];
      var t := WithEntries(s, EntriesOf(before));
      LevelsScanned(d, s, before);
      ScanAppend(d, s, AllLevelLines(before), LevelLines(l));
      LevelScanned(d, t, l);
      assert EntriesOf(ls) == EntriesOf(before) + [EntryOf(l)];
      assert s.bids + EntriesOf(before) + [EntryOf(l)] == s.bids + EntriesOf(ls);
      assert s.asks + EntriesOf(before) + [EntryOf(l)] == s.asks + EntriesOf(ls);
    }
  }

  lemma ScanNone(d: Dialect, s: Scan)
    ensures ScanAll(d, s, []) == s
  {
  }

  lemma MarkersScanned(d: Dialect, s: Scan, symbol: string)
    ensures ScanLine(d, s, "BIDS:") == s.(inBids := true, inAsks := false)
    ensures ScanLine(d, s, "ASKS:") == s.(inBids := false, inAsks := true)
    ensures ScanLine(d, s, Field(Symbol, symbol)) == s.(symbol := symbol)
  {
    hide Is, Field, ValueOf;
    MarkerIsNoField("BIDS:");
    MarkerIsNoField("ASKS:");
    FieldIs(Symbol, symbol);
    FieldIsNoMarker(Symbol, symbol);
    assert "BIDS:"[0] != "ASKS:"[0];
  }

  /** Either parser recovers every level of a snapshot of any length, in order, bids and asks apart. */
  lemma BodyScanned(d: Dialect, symbol: string, bids: seq<PriceLevel>, asks: seq<PriceLevel>)
    requires CountsFit(bids) && CountsFit(asks)
    ensures ScanAll(d, START, SnapshotBody(symbol, bids, asks))
            == Scan(symbol, EntriesOf(bids), EntriesOf(asks), false, true, BLANK)
  {
    hide ScanAll, ScanLine, AllLevelLines, EntriesOf, Field;
    var head := [Field(Symbol, symbol)] + ["BIDS:"];
    var middle := head + AllLevelLines(bids);
    MarkersScanned(d, START, symbol);
    ScanOne(d, START, Field(Symbol, symbol));
    var s1 := START.(symbol := symbol);
    ScanAppend(d, START, [Field(Symbol, symbol)], ["BIDS:"]);
    ScanOne(d, s1, "BIDS:");
    MarkersScanned(d, s1, symbol);
    var s2 := s1.(inBids := true);
    ScanAppend(d, START, head, AllLevelLines(bids));
    LevelsScanned(d, s2, bids);
    assert [] + EntriesOf(bids) == EntriesOf(bids) && [] + EntriesOf(asks) == EntriesOf(asks);
    var s3 := s2.(bids := EntriesOf(bids));
    ScanAppend(d, START, middle, ["ASKS:"]);
    ScanOne(d, s3, "ASKS:");
    MarkersScanned(d, s3, symbol);
    ScanAppend(d, START, middle + ["ASKS:"], AllLevelLines(asks));
    LevelsScanned(d, s3.(inBids := false, inAsks := true), asks);
  }
}
