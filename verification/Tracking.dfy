/** Profit tracking over any stream of order status reports and trade notices, as values. */
module Tracking {
  import opened Positions

  /** A symbol's account and its latest price; zero stands for none. */
  datatype Holding = Holding(account: Account, last: real)

  const NOTHING := Holding(FLAT, 0.0)

  datatype Meta = Meta(side: string, symbol: string, lastFilled: int, price: real, orderType: string)

  datatype Track = Track(holdings: map<string, Holding>, fills: seq<Fill>, meta: map<string, Meta>)

  const EMPTY_TRACK := Track(map[], [], map[])

  /** An order status report, absent fields at their defaults. `filled` counts from the order's
      beginning. */
  datatype Report = Report(orderId: string, filled: int, symbol: string, side: string, price: real, orderType: string)

  datatype Event = Reported(r: Report) | Traded(symbol: string, price: real)

  function HoldingOf(t: Track, symbol: string): Holding {
    if symbol in t.holdings then t.holdings[symbol] else NOTHING
  }

  function OnFill(t: Track, f: Fill): Track {
    var h := Holding(ApplyFill(HoldingOf(t, f.symbol).account, f), f.price);
    t.(holdings := t.holdings[f.symbol := h], fills := t.fills + [f])
  }

  function Known(meta: map<string, Meta>, r: Report): map<string, Meta> {
    if r.orderId in meta then meta
    else meta[r.orderId := Meta(r.side, r.symbol, 0, r.price, r.orderType)]
  }

  /** Only what a report counts beyond the reports before it is a new fill. */
  function OnReport(t: Track, r: Report): Track {
    if r.orderId == "" then t
    else
      var meta := Known(t.meta, r);
      var m := meta[r.orderId];
      if r.filled > m.lastFilled then
        OnFill(t.(meta := meta[r.orderId := m.(lastFilled := r.filled)]),
               Fill(r.orderId, r.symbol, r.side, r.price, r.filled - m.lastFilled))
      else
        t.(meta := meta)
  }

  function OnTrade(t: Track, symbol: string, price: real): Track {
    if symbol != "" && price > 0.0 then
      t.(holdings := t.holdings[symbol := HoldingOf(t, symbol).(last := price)])
    else
      t
  }

  function On(t: Track, e: Event): Track {
    match e
    case Reported(r) => OnReport(t, r)
    case Traded(symbol, price) => OnTrade(t, symbol, price)
  }

  function Tracked(es: seq<Event>): Track {
    if es == [] then EMPTY_TRACK else On(Tracked(es[..|es| - 1]), es[|es| - 1])
  }

  // ---------- Fill detection ----------

  /** The quantity recorded for an order. */
  function Recorded(fs: seq<Fill>, id: string): int {
    if fs == [] then 0
    else Recorded(fs[..|fs| - 1], id) + if fs[|fs| - 1].orderId == id then fs[|fs| - 1].quantity else 0
  }

  /** The highest filled quantity any report gave for an order; zero before the first. */
  function MaxFilled(es: seq<Event>, id: string): int {
    if es == [] then 0
    else
      var max, e := MaxFilled(es[..|es| - 1], id), es[|es| - 1];
      if e.Reported? && e.r.orderId == id && e.r.filled > max then e.r.filled else max
  }

  function LastFilled(t: Track, id: string): int {
    if id in t.meta then t.meta[id].lastFilled else 0
  }

  lemma OneMoreRecorded(fs: seq<Fill>, f: Fill, id: string)
    ensures Recorded(fs + [f], id) == Recorded(fs, id) + if f.orderId == id then f.quantity else 0
  {
    assert (fs + [f])[..|fs|] == fs;
  }

  lemma ReportRecords(t: Track, r: Report, id: string)
    requires id != "" && LastFilled(t, id) == Recorded(t.fills, id)
    ensures var t' := OnReport(t, r);
            && LastFilled(t', id) == Recorded(t'.fills, id)
            && LastFilled(t', id)
               == if r.orderId == id && r.filled > LastFilled(t, id) then r.filled else LastFilled(t, id)
  {
    hide ApplyFill, Recorded;
    if r.orderId != "" {
      OneMoreRecorded(t.fills, Fill(r.orderId, r.symbol, r.side, r.price, r.filled - LastFilled(t, r.orderId)), id);
    }
  }

  /** Reports may repeat, arrive late or out of order: what is recorded for an order is the highest
      filled quantity reported, so nothing is counted twice. */
  lemma {:induction false} RecordedIsMax(es: seq<Event>, id: string)
    requires id != ""
    ensures Recorded(Tracked(es).fills, id) == MaxFilled(es, id)
    ensures LastFilled(Tracked(es), id) == MaxFilled(es, id)
  {
    if es != [] {
      var t, e := Tracked(es[..|es| - 1]), es[|es| - 1];
      RecordedIsMax(es[..|es| - 1], id);
      match e
      case Reported(r) => ReportRecords(t, r, id);
      case Traded(_, _) =>
    }
  }

  /** Every recorded fill is a positive quantity of a named order. */
  lemma {:induction false} FillsAreReal(es: seq<Event>)
    ensures forall i :: 0 <= i < |Tracked(es).fills| ==>
              Tracked(es).fills[i].quantity > 0 && Tracked(es).fills[i].orderId != ""
  {
    if es != [] { FillsAreReal(es[..|es| - 1]); }
  }

  // ---------- One account per symbol ----------

  function FillsOf(fs: seq<Fill>, symbol: string): seq<Fill> {
    if fs == [] then []
    else FillsOf(fs[..|fs| - 1], symbol) + if fs[|fs| - 1].symbol == symbol then [fs[|fs| - 1]] else []
  }

  ghost predicate Kept(t: Track) {
    && (forall s :: HoldingOf(t, s).account == After(FillsOf(t.fills, s)))
    && (forall i :: 0 <= i < |t.fills| ==> t.fills[i].symbol in t.holdings)
  }

  lemma FillsOfOneMore(fs: seq<Fill>, f: Fill, symbol: string)
    ensures FillsOf(fs + [f], symbol) == if f.symbol == symbol then FillsOf(fs, symbol) + [f] else FillsOf(fs, symbol)
  {
    assert (fs + [f])[..|fs|] == fs;
  }

  lemma FillKeeps(t: Track, f: Fill)
    requires Kept(t)
    ensures Kept(OnFill(t, f))
  {
    hide ApplyFill, FillsOf;
    var t' := OnFill(t, f);
    forall s ensures HoldingOf(t', s).account == After(FillsOf(t'.fills, s)) {
      assert HoldingOf(t, s).account == After(FillsOf(t.fills, s));
      FillsOfOneMore(t.fills, f, s);
      if s == f.symbol {
        var all := FillsOf(t'.fills, s);
        assert all[..|all| - 1] == FillsOf(t.fills, s) && all[|all| - 1] == f;
      }
    }
  }

  lemma MetaAside(t: Track, meta: map<string, Meta>)
    requires Kept(t)
    ensures Kept(t.(meta := meta))
  {
    hide After, FillsOf;
    forall s ensures HoldingOf(t.(meta := meta), s).account == After(FillsOf(t.fills, s)) {
      assert HoldingOf(t, s).account == After(FillsOf(t.fills, s));
    }
  }

  lemma TradeKeeps(t: Track, symbol: string, price: real)
    requires Kept(t)
    ensures Kept(OnTrade(t, symbol, price))
  {
    hide After, FillsOf;
    forall s ensures HoldingOf(OnTrade(t, symbol, price), s).account == After(FillsOf(t.fills, s)) {
      assert HoldingOf(t, s).account == After(FillsOf(t.fills, s));
    }
  }

  lemma OnKeeps(t: Track, e: Event)
    requires Kept(t)
    ensures Kept(On(t, e))
  {
    hide Kept, OnFill, OnTrade;
    match e
    case Traded(symbol, price) => TradeKeeps(t, symbol, price);
    case Reported(r) =>
      if r.orderId != "" {
        var meta := Known(t.meta, r);
        var m := meta[r.orderId];
        MetaAside(t, meta);
        if r.filled > m.lastFilled {
          var meta' := meta[r.orderId := m.(lastFilled := r.filled)];
          MetaAside(t, meta');
          FillKeeps(t.(meta := meta'), Fill(r.orderId, r.symbol, r.side, r.price, r.filled - m.lastFilled));
        }
      }
  }

  /** Whatever the events, a symbol's account is what its own fills make of a flat one; trade
      notices never touch it. */
  lemma {:induction false} AccountsKept(es: seq<Event>)
    ensures Kept(Tracked(es))
  {
    if es != [] {
      AccountsKept(es[..|es| - 1]);
      OnKeeps(Tracked(es[..|es| - 1]), es[|es| - 1]);
    }
  }

  // ---------- Totals ----------

  function TotalRealized(t: Track, symbols: seq<string>): real {
    if symbols == [] then 0.0
    else TotalRealized(t, symbols[..|symbols| - 1]) + HoldingOf(t, symbols[|symbols| - 1]).account.realized
  }

  function TotalUnrealized(t: Track, symbols: seq<string>): real {
    if symbols == [] then 0.0
    else
      var h := HoldingOf(t, symbols[|symbols| - 1]);
      TotalUnrealized(t, symbols[..|symbols| - 1]) + Unrealized(h.account, h.last)
  }

  function TotalValue(t: Track, symbols: seq<string>): real {
    if symbols == [] then 0.0
    else
      var h := HoldingOf(t, symbols[|symbols| - 1]);
      TotalValue(t, symbols[..|symbols| - 1]) + Value(h.account, h.last)
  }

  function CashOver(fs: seq<Fill>, symbols: seq<string>): real {
    if symbols == [] then 0.0
    else CashOver(fs, symbols[..|symbols| - 1]) + Cash(FillsOf(fs, symbols[|symbols| - 1]))
  }

  ghost predicate Unrepeated(symbols: seq<string>) {
    forall i, j :: 0 <= i < j < |symbols| ==> symbols[i] != symbols[j]
  }

  lemma CashOfOneMore(fs: seq<Fill>, f: Fill, symbol: string)
    ensures Cash(FillsOf(fs + [f], symbol)) == Cash(FillsOf(fs, symbol)) - if f.symbol == symbol then Amount(f) else 0.0
  {
    hide Amount, Cash, FillsOf;
    FillsOfOneMore(fs, f, symbol);
    CashOfMore(FillsOf(fs, symbol), f);
  }

  lemma CashOfMore(fs: seq<Fill>, f: Fill)
    ensures Cash(fs + [f]) == Cash(fs) - Amount(f)
  {
    assert (fs + [f])[..|fs|] == fs;
  }

  lemma {:induction false} CashOverOneMore(fs: seq<Fill>, f: Fill, symbols: seq<string>)
    requires Unrepeated(symbols)
    ensures CashOver(fs + [f], symbols) == CashOver(fs, symbols) - if f.symbol in symbols then Amount(f) else 0.0
  {
    hide Amount, Cash, FillsOf;
    if symbols != [] {
      var before, s := symbols[..|symbols| - 1], symbols[|symbols| - 1];
      CashOverOneMore(fs, f, before);
      CashOfOneMore(fs, f, s);
      assert symbols == before + [s];
      assert f.symbol in symbols <==> f.symbol in before || f.symbol == s;
    }
  }

  /** Summing the cash flows symbol by symbol gives the cash flow of all fills. */
  lemma {:induction false} CashSplits(fs: seq<Fill>, symbols: seq<string>)
    requires Unrepeated(symbols) && forall i :: 0 <= i < |fs| ==> fs[i].symbol in symbols
    ensures CashOver(fs, symbols) == Cash(fs)
  {
    hide CashOver, Amount, FillsOf;
    if fs == [] {
      NoFillsNoCash(symbols);
    } else {
      var before, f := fs[..|fs| - 1], fs[|fs| - 1];
      CashSplits(before, symbols);
      CashOverOneMore(before, f, symbols);
      assert fs == before + [f];
    }
  }

  lemma {:induction false} NoFillsNoCash(symbols: seq<string>)
    ensures CashOver([], symbols) == 0.0
  {
    if symbols != [] { NoFillsNoCash(symbols[..|symbols| - 1]); }
  }

  lemma {:induction false} ProfitOver(t: Track, symbols: seq<string>)
    requires Kept(t)
    ensures TotalRealized(t, symbols) + TotalUnrealized(t, symbols)
            == CashOver(t.fills, symbols) + TotalValue(t, symbols)
  {
    hide Cash, Value, Unrealized, After, FillsOf;
    if symbols != [] {
      var s := symbols[|symbols| - 1];
      ProfitOver(t, symbols[..|symbols| - 1]);
      assert HoldingOf(t, s).account == After(FillsOf(t.fills, s));
      ProfitIsCashPlusValue(FillsOf(t.fills, s), HoldingOf(t, s).last);
    }
  }

  /** Over all symbols held, profit is the net cash flow of all fills plus the value of all
      positions, each at its last price or, for want of one, at cost. */
  lemma EquityIdentity(es: seq<Event>, symbols: seq<string>)
    requires Unrepeated(symbols) && forall s :: s in symbols <==> s in Tracked(es).holdings
    ensures var t := Tracked(es);
            TotalRealized(t, symbols) + TotalUnrealized(t, symbols) == Cash(t.fills) + TotalValue(t, symbols)
  {
    AccountsKept(es);
    ProfitOver(Tracked(es), symbols);
    CashSplits(Tracked(es).fills, symbols);
  }

  function TotalMarked(t: Track, symbols: seq<string>): real {
    if symbols == [] then 0.0
    else
      var h := HoldingOf(t, symbols[|symbols| - 1]);
      TotalMarked(t, symbols[..|symbols| - 1]) + Times(h.last, h.account.quantity as real)
  }

  /** What positions without a last price cost. */
  function TotalUnmarked(t: Track, symbols: seq<string>): real {
    if symbols == [] then 0.0
    else
      var h := HoldingOf(t, symbols[|symbols| - 1]);
      TotalUnmarked(t, symbols[..|symbols| - 1]) + if h.last == 0.0 then Cost(h.account) else 0.0
  }

  lemma {:induction false} ValueSplits(t: Track, symbols: seq<string>)
    ensures TotalValue(t, symbols) == TotalMarked(t, symbols) + TotalUnmarked(t, symbols)
  {
    hide Times;
    if symbols != [] {
      ValueSplits(t, symbols[..|symbols| - 1]);
      Zero(HoldingOf(t, symbols[|symbols| - 1]).account.quantity as real);
    }
  }

  /** Profit is cash plus all positions at their last prices, if and only if the positions without
      a last price cost nothing on balance. */
  lemma EquityMarked(es: seq<Event>, symbols: seq<string>)
    requires Unrepeated(symbols) && forall s :: s in symbols <==> s in Tracked(es).holdings
    ensures var t := Tracked(es);
            TotalRealized(t, symbols) + TotalUnrealized(t, symbols) == Cash(t.fills) + TotalMarked(t, symbols)
            <==> TotalUnmarked(t, symbols) == 0.0
  {
    EquityIdentity(es, symbols);
    ValueSplits(Tracked(es), symbols);
  }

  // ---------- When everything is marked ----------

  /** The position is closed, has a last price, or cost nothing. */
  predicate Marked(h: Holding) {
    h.account.quantity == 0 || h.last != 0.0 || h.account.average == 0.0
  }

  lemma {:induction false} MarkedCostsNothing(t: Track, symbols: seq<string>)
    requires forall i :: 0 <= i < |symbols| ==> Marked(HoldingOf(t, symbols[i]))
    ensures TotalUnmarked(t, symbols) == 0.0
  {
    hide Times;
    if symbols != [] {
      var h := HoldingOf(t, symbols[|symbols| - 1]);
      MarkedCostsNothing(t, symbols[..|symbols| - 1]);
      Zero(h.account.quantity as real);
      Distribute(h.account.average, 0, 0);
    }
  }

  /** Profit over these symbols is their cash flow plus their positions at the last prices. */
  ghost predicate PaidAndMarked(t: Track, symbols: seq<string>) {
    TotalRealized(t, symbols) + TotalUnrealized(t, symbols) == CashOver(t.fills, symbols) + TotalMarked(t, symbols)
  }

  lemma OneSymbol(t: Track, s: string)
    requires Kept(t)
    ensures PaidAndMarked(t, [s]) <==> Marked(HoldingOf(t, s))
  {
    hide Cash, Unrealized, After, FillsOf, Times, HoldingOf;
    var h := HoldingOf(t, s);
    assert [s][..0] == [];
    assert TotalRealized(t, [s]) == h.account.realized;
    assert TotalUnrealized(t, [s]) == Unrealized(h.account, h.last);
    assert CashOver(t.fills, [s]) == Cash(FillsOf(t.fills, s));
    assert TotalMarked(t, [s]) == Times(h.last, h.account.quantity as real);
    assert HoldingOf(t, s).account == After(FillsOf(t.fills, s));
    ProfitMarked(FillsOf(t.fills, s), HoldingOf(t, s).last);
  }

  /** Whatever selection of symbols one looks at, its profit is cash plus positions at their last
      prices, if and only if every position is closed, has a last price, or cost nothing. */
  lemma MarkedEverywhere(es: seq<Event>)
    ensures (forall symbols :: Unrepeated(symbols) ==> PaidAndMarked(Tracked(es), symbols))
            <==> (forall s :: Marked(HoldingOf(Tracked(es), s)))
  {
    hide Marked, Tracked, PaidAndMarked;
    var t := Tracked(es);
    AccountsKept(es);
    forall s ensures PaidAndMarked(t, [s]) <==> Marked(HoldingOf(t, s)) {
      OneSymbol(t, s);
    }
    assert forall s: string :: Unrepeated([s]);
    if forall s :: Marked(HoldingOf(t, s)) {
      forall symbols | Unrepeated(symbols) ensures PaidAndMarked(t, symbols) {
        SelectionMarked(t, symbols);
      }
    }
  }

  lemma SelectionMarked(t: Track, symbols: seq<string>)
    requires Kept(t) && forall s :: Marked(HoldingOf(t, s))
    ensures PaidAndMarked(t, symbols)
  {
    hide Marked, Kept;
    ProfitOver(t, symbols);
    ValueSplits(t, symbols);
    MarkedCostsNothing(t, symbols);
  }

  /** The whole: with every position marked, total profit is the cash flow of all fills plus all
      positions at their last prices. */
  lemma EquityOfMarked(es: seq<Event>, symbols: seq<string>)
    requires Unrepeated(symbols) && forall s :: s in symbols <==> s in Tracked(es).holdings
    requires forall s :: s in symbols ==> Marked(HoldingOf(Tracked(es), s))
    ensures var t := Tracked(es);
            TotalRealized(t, symbols) + TotalUnrealized(t, symbols) == Cash(t.fills) + TotalMarked(t, symbols)
  {
    hide Marked;
    MarkedCostsNothing(Tracked(es), symbols);
    EquityMarked(es, symbols);
  }

  // ---------- Which events leave a position without a last price ----------

  /** The i-th event is a report that counts more than every report before it: a new fill. */
  ghost predicate FillsAt(es: seq<Event>, i: nat, s: string) {
    && i < |es| && es[i].Reported? && es[i].r.orderId != "" && es[i].r.symbol == s
    && es[i].r.filled > MaxFilled(es[..i], es[i].r.orderId)
  }

  /** The i-th event is a notice of a trade in the symbol at a positive price. */
  ghost predicate TradesAt(es: seq<Event>, i: nat, s: string) {
    i < |es| && es[i].Traded? && es[i].symbol == s && s != "" && es[i].price > 0.0
  }

  ghost predicate PricesAt(es: seq<Event>, i: nat, s: string) {
    FillsAt(es, i, s) || TradesAt(es, i, s)
  }

  ghost predicate FreeFillAt(es: seq<Event>, i: nat, s: string) {
    FillsAt(es, i, s) && es[i].r.price == 0.0
  }

  /** The last event to price the symbol is a fill at price zero. */
  ghost predicate FilledForNothing(es: seq<Event>, s: string) {
    exists i :: 0 <= i < |es| && FreeFillAt(es, i, s) && forall j :: i < j < |es| ==> !PricesAt(es, j, s)
  }

  ghost predicate EverPriced(es: seq<Event>, s: string) {
    exists i :: 0 <= i < |es| && PricesAt(es, i, s)
  }

  lemma PricesBefore(es: seq<Event>, i: nat, s: string)
    requires i < |es| - 1
    ensures FreeFillAt(es, i, s) <==> FreeFillAt(es[..|es| - 1], i, s)
    ensures PricesAt(es, i, s) <==> PricesAt(es[..|es| - 1], i, s)
  {
    assert es[..|es| - 1][..i] == es[..i];
  }

  /** What one event does to a symbol: an event that prices it sets its last price; any other leaves
      it alone. */
  lemma LastEvent(es: seq<Event>, s: string)
    requires es != []
    ensures var (t, t', n) := (Tracked(es[..|es| - 1]), Tracked(es), |es| - 1);
            && (FillsAt(es, n, s) ==> HoldingOf(t', s).last == es[n].r.price)
            && (TradesAt(es, n, s) ==> HoldingOf(t', s).last == es[n].price)
            && (!PricesAt(es, n, s) ==> HoldingOf(t', s) == HoldingOf(t, s))
  {
    hide ApplyFill, MaxFilled;
    var before, e := es[..|es| - 1], es[|es| - 1];
    if e.Reported? && e.r.orderId != "" {
      RecordedIsMax(before, e.r.orderId);
    }
  }

  lemma PricedMore(es: seq<Event>, s: string)
    requires es != []
    ensures EverPriced(es, s) <==> EverPriced(es[..|es| - 1], s) || PricesAt(es, |es| - 1, s)
    ensures FilledForNothing(es, s)
            <==> if PricesAt(es, |es| - 1, s) then FreeFillAt(es, |es| - 1, s) else FilledForNothing(es[..|es| - 1], s)
  {
    hide FreeFillAt, PricesAt;
    var before, n := es[..|es| - 1], |es| - 1;
    forall i | 0 <= i < n
      ensures FreeFillAt(es, i, s) <==> FreeFillAt(before, i, s)
      ensures PricesAt(es, i, s) <==> PricesAt(before, i, s)
    {
      PricesBefore(es, i, s);
    }
    FreeFillPrices(es, n, s);
    if FilledForNothing(before, s) && !PricesAt(es, n, s) {
      var i :| 0 <= i < n && FreeFillAt(before, i, s) && forall j :: i < j < n ==> !PricesAt(before, j, s);
      assert FreeFillAt(es, i, s);
    }
    if EverPriced(before, s) {
      var i :| 0 <= i < n && PricesAt(before, i, s);
      assert PricesAt(es, i, s);
    }
    if FilledForNothing(es, s) {
      var i :| 0 <= i < |es| && FreeFillAt(es, i, s) && forall j :: i < j < |es| ==> !PricesAt(es, j, s);
      if i < n {
        assert FreeFillAt(before, i, s);
      }
    }
  }

  lemma FreeFillPrices(es: seq<Event>, i: nat, s: string)
    ensures FreeFillAt(es, i, s) ==> PricesAt(es, i, s)
  {
  }

  /** A symbol has no last price if and only if nothing ever priced it, or the last event that did was
      a fill at price zero. One that nothing priced has no position. */
  lemma {:induction false} UnpricedExactly(es: seq<Event>, s: string)
    ensures HoldingOf(Tracked(es), s).last == 0.0 <==> !EverPriced(es, s) || FilledForNothing(es, s)
    ensures !EverPriced(es, s) ==> HoldingOf(Tracked(es), s) == NOTHING
    decreases |es|
  {
    hide FillsAt, TradesAt, FreeFillAt, PricesAt, Tracked, EverPriced, FilledForNothing;
    if es == [] {
      NothingYet(s);
    } else {
      UnpricedExactly(es[..|es| - 1], s);
      LastEvent(es, s);
      PricedMore(es, s);
      TradesArePositive(es, |es| - 1, s);
    }
  }

  lemma NothingYet(s: string)
    ensures HoldingOf(Tracked([]), s) == NOTHING && !EverPriced([], s) && !FilledForNothing([], s)
  {
  }

  lemma TradesArePositive(es: seq<Event>, i: nat, s: string)
    ensures TradesAt(es, i, s) ==> es[i].price > 0.0
    ensures FreeFillAt(es, i, s) <==> FillsAt(es, i, s) && es[i].r.price == 0.0
    ensures PricesAt(es, i, s) <==> FillsAt(es, i, s) || TradesAt(es, i, s)
  {
  }

  /** No symbol's last pricing event is a fill at price zero. */
  ghost predicate PricedStream(es: seq<Event>) {
    forall s :: !FilledForNothing(es, s)
  }

  /** If no report of a new fill has price zero, every open position has a last price. */
  lemma NoFreeReports(es: seq<Event>)
    requires forall i :: 0 <= i < |es| && es[i].Reported? ==> es[i].r.price != 0.0
    ensures PricedStream(es)
    ensures forall s :: HoldingOf(Tracked(es), s).account.quantity != 0 ==> HoldingOf(Tracked(es), s).last != 0.0
  {
    hide Tracked;
    assert PricedStream(es);
    forall s | HoldingOf(Tracked(es), s).account.quantity != 0 ensures HoldingOf(Tracked(es), s).last != 0.0 {
      UnpricedExactly(es, s);
    }
  }

  /** From the events alone: with no symbol last priced by a fill at zero, every selection of symbols
      has cash plus marked positions as its profit. */
  lemma PricedStreamMarks(es: seq<Event>)
    requires PricedStream(es)
    ensures forall symbols :: Unrepeated(symbols) ==> PaidAndMarked(Tracked(es), symbols)
  {
    hide Tracked, PaidAndMarked, FilledForNothing, EverPriced;
    forall s ensures Marked(HoldingOf(Tracked(es), s)) {
      UnpricedExactly(es, s);
    }
    MarkedEverywhere(es);
  }

  /** A limit order filled at 10, then a market order, whose reports carry price zero: both shares are
      held without a last price, and profit misses what they cost. */
  lemma MarketReportUnmarked(a: string, b: string, s: string)
    requires a != "" && b != "" && a != b
    ensures var es := [Reported(Report(a, 1, s, "BUY", 10.0, "LIMIT")),
                       Reported(Report(b, 1, s, "BUY", 0.0, "MARKET"))];
            && HoldingOf(Tracked(es), s) == Holding(Account(2, 5.0, 0.0), 0.0)
            && !Marked(HoldingOf(Tracked(es), s)) && !PaidAndMarked(Tracked(es), [s])
  {
    var r1, r2 := Report(a, 1, s, "BUY", 10.0, "LIMIT"), Report(b, 1, s, "BUY", 0.0, "MARKET");
    var es := [Reported(r1), Reported(r2)];
    var t1 := OnReport(EMPTY_TRACK, r1);
    assert es[..1] == [Reported(r1)] && [Reported(r1)][..0] == [];
    assert Tracked([]) == EMPTY_TRACK;
    assert Tracked([Reported(r1)]) == t1;
    assert HoldingOf(t1, s) == Holding(Account(1, 10.0, 0.0), 10.0);
    assert Blended(10.0, 1, 0.0, 1) == 5.0;
    assert HoldingOf(OnReport(t1, r2), s) == Holding(Account(2, 5.0, 0.0), 0.0);
    assert Tracked(es) == OnReport(t1, r2);
    AccountsKept(es);
    OneSymbol(Tracked(es), s);
  }

  // ---------- From the events alone ----------

  /** A report that counts beyond all earlier reports of its order records exactly one fill, with its own
      order, symbol, side and price, for the difference; no other report and no trade notice records
      any. */
  lemma EventRecords(es: seq<Event>, e: Event)
    ensures var (fs, fs') := (Tracked(es).fills, Tracked(es + [e]).fills);
            if e.Reported? && e.r.orderId != "" && e.r.filled > MaxFilled(es, e.r.orderId) then
              && |fs'| == |fs| + 1 && fs'[..|fs|] == fs
              && fs'[|fs|].orderId == e.r.orderId
              && fs'[|fs|].symbol == e.r.symbol
              && fs'[|fs|].side == e.r.side
              && fs'[|fs|].price == e.r.price
              && fs'[|fs|].quantity == e.r.filled - MaxFilled(es, e.r.orderId)
            else
              fs' == fs
  {
    hide ApplyFill, MaxFilled;
    assert (es + [e])[..|es|] == es;
    if e.Reported? && e.r.orderId != "" {
      RecordedIsMax(es, e.r.orderId);
    }
  }

  /** Of each order the tracker remembers the terms of its first report and the highest quantity. */
  lemma EventRemembers(es: seq<Event>, r: Report)
    requires r.orderId != ""
    ensures var (meta, meta', id) := (Tracked(es).meta, Tracked(es + [Reported(r)]).meta, r.orderId);
            && meta'.Keys == meta.Keys + {id}
            && (forall k :: k in meta && k != id ==> meta'[k] == meta[k])
            && meta'[id].side == (if id in meta then meta[id].side else r.side)
            && meta'[id].symbol == (if id in meta then meta[id].symbol else r.symbol)
            && meta'[id].price == (if id in meta then meta[id].price else r.price)
            && meta'[id].orderType == (if id in meta then meta[id].orderType else r.orderType)
            && meta'[id].lastFilled == if r.filled > MaxFilled(es, id) then r.filled else MaxFilled(es, id)
  {
    hide ApplyFill, MaxFilled;
    assert (es + [Reported(r)])[..|es|] == es;
    RecordedIsMax(es, r.orderId);
  }

  /** What the last of some events bought of a symbol, or sold if negative. */
  function LastBought(es: seq<Event>, s: string): int
    requires es != []
  {
    var before, e := es[..|es| - 1], es[|es| - 1];
    if e.Reported? && e.r.orderId != "" && e.r.symbol == s && e.r.filled > MaxFilled(before, e.r.orderId) then
      if e.r.side == "BUY" then e.r.filled - MaxFilled(before, e.r.orderId)
      else MaxFilled(before, e.r.orderId) - e.r.filled
    else 0
  }

  function Bought(es: seq<Event>, s: string): int {
    if es == [] then 0 else Bought(es[..|es| - 1], s) + LastBought(es, s)
  }

  /** What the last of some events paid for a symbol, or took if negative. */
  function LastPaid(es: seq<Event>, s: string): real
    requires es != []
  {
    if es[|es| - 1].Reported? then es[|es| - 1].r.price * LastBought(es, s) as real else 0.0
  }

  function Paid(es: seq<Event>, s: string): real {
    if es == [] then 0.0 else Paid(es[..|es| - 1], s) + LastPaid(es, s)
  }

  lemma NetMore(fs: seq<Fill>, f: Fill)
    ensures Net(fs + [f]) == Net(fs) + if f.side == "BUY" then f.quantity else -f.quantity
  {
    assert (fs + [f])[..|fs|] == fs;
  }

  lemma PriceTimes(x: real, n: int)
    ensures x * (-n) as real == -(x * n as real) && x * 0 as real == 0.0
  {
    assert (-n) as real == -(n as real);
  }

  lemma {:induction false} FillsBought(es: seq<Event>, s: string)
    ensures Net(FillsOf(Tracked(es).fills, s)) == Bought(es, s)
    ensures Cash(FillsOf(Tracked(es).fills, s)) == -Paid(es, s)
    decreases |es|, 1
  {
    hide Tracked, MaxFilled, FillsOf, Net, Cash;
    if es == [] {
      NothingRecorded(s);
    } else {
      FillsBoughtStep(es, s);
    }
  }

  lemma NothingRecorded(s: string)
    ensures FillsOf(Tracked([]).fills, s) == [] && Net([]) == 0 && Cash([]) == 0.0
  {
  }

  lemma {:induction false} FillsBoughtStep(es: seq<Event>, s: string)
    requires es != []
    ensures Net(FillsOf(Tracked(es).fills, s)) == Bought(es, s)
    ensures Cash(FillsOf(Tracked(es).fills, s)) == -Paid(es, s)
    decreases |es|, 0
  {
    hide Tracked, MaxFilled, FillsOf, Net, Cash;
    var before, e := es[..|es| - 1], es[|es| - 1];
    FillsBought(before, s);
    EventRecords(before, e);
    assert before + [e] == es;
    var fs, fs' := Tracked(before).fills, Tracked(es).fills;
    if fs' != fs {
      var f := fs'[|fs|];
      assert fs' == fs + [f];
      FillsOfOneMore(fs, f, s);
      NetMore(FillsOf(fs, s), f);
      CashMoves(FillsOf(fs, s), f);
      PriceTimes(f.price, f.quantity);
    } else if e.Reported? {
      PriceTimes(e.r.price, 0);
    }
  }

  /** A symbol's quantity is what the reports about it bought less what they sold, and its realized
      profit what they took less what they paid, plus what the open position cost. */
  lemma AccountFromEvents(es: seq<Event>, s: string)
    ensures var a := HoldingOf(Tracked(es), s).account;
            && a.quantity == Bought(es, s)
            && a.realized == a.average * a.quantity as real - Paid(es, s)
  {
    hide Tracked, FillsOf, Bought, Paid, Net, Cash, After;
    AccountsKept(es);
    var fs := FillsOf(Tracked(es).fills, s);
    assert HoldingOf(Tracked(es), s).account == After(fs);
    Books(fs);
    FillsBought(es, s);
  }

  /** Totals add up over symbols, one holding after the other. */
  lemma TotalsAdd(t: Track, ss: seq<string>, s: string)
    ensures TotalRealized(t, []) == TotalUnrealized(t, []) == TotalValue(t, []) == 0.0
    ensures TotalRealized(t, ss + [s]) == TotalRealized(t, ss) + HoldingOf(t, s).account.realized
    ensures var h := HoldingOf(t, s);
            && TotalUnrealized(t, ss + [s]) == TotalUnrealized(t, ss) + Unrealized(h.account, h.last)
            && TotalValue(t, ss + [s]) == TotalValue(t, ss) + Value(h.account, h.last)
  {
    assert (ss + [s])[..|ss|] == ss;
  }
}
