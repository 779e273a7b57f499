/** Position accounting for one symbol: what a stream of fills does to quantity, average entry price
    and realized profit, and how these relate to the money that changed hands. */
module Positions {

  datatype Fill = Fill(orderId: string, symbol: string, side: string, price: real, quantity: int)

  /** The account of one symbol. */
  datatype Account = Account(quantity: int, average: real, realized: real)

  const FLAT := Account(0, 0.0, 0.0)

  function Abs(n: int): nat {
    if n < 0 then -n else n
  }

  function Least(a: int, b: int): int {
    if a <= b then a else b
  }

  /** Anything but "BUY" sells. */
  function Signed(f: Fill): int {
    if f.side == "BUY" then f.quantity else -f.quantity
  }

  function Times(x: real, y: real): real {
    x * y
  }

  /** What a fill costs; a sale costs less than nothing. */
  function Amount(f: Fill): real {
    Times(f.price, Signed(f) as real)
  }

  /** What the open position cost. */
  function Cost(a: Account): real {
    Times(a.average, a.quantity as real)
  }

  predicate SameWay(p: int, q: int) {
    (p > 0 && q > 0) || (p < 0 && q < 0)
  }

  /** The average price after adding `s` to a position of `q`. */
  function Blended(average: real, q: int, price: real, s: int): real {
    var cost := Times(average, Abs(q) as real) + Times(price, Abs(s) as real);
    if q + s != 0 then cost / Abs(q + s) as real else 0.0
  }

  /** What closing `n` of a long or short position realizes. */
  function Realized(average: real, long: bool, price: real, n: nat): real {
    if long then Times(price - average, n as real) else Times(average - price, n as real)
  }

  /** Opens, adds to, reduces, closes or reverses the position. */
  function ApplyFill(a: Account, f: Fill): Account {
    var s := Signed(f);
    if a.quantity == 0 then
      Account(s, f.price, a.realized)
    else if SameWay(a.quantity, s) then
      Account(a.quantity + s, Blended(a.average, a.quantity, f.price, s), a.realized)
    else
      var closing := Least(Abs(s), Abs(a.quantity));
      var realized := a.realized + Realized(a.average, a.quantity > 0, f.price, closing);
      if Abs(s) - closing > 0 then
        Account(s + (if s < 0 then closing else -closing), f.price, realized)
      else
        Account(a.quantity + s, if a.quantity + s == 0 then 0.0 else a.average, realized)
  }

  /** The account after these fills, from flat. */
  function After(fs: seq<Fill>): Account {
    if fs == [] then FLAT else ApplyFill(After(fs[..|fs| - 1]), fs[|fs| - 1])
  }

  // ---------- The accounting identity ----------

  function Net(fs: seq<Fill>): int {
    if fs == [] then 0 else Net(fs[..|fs| - 1]) + Signed(fs[|fs| - 1])
  }

  /** Money received for what was sold less money paid for what was bought. */
  function Cash(fs: seq<Fill>): real {
    if fs == [] then 0.0 else Cash(fs[..|fs| - 1]) - Amount(fs[|fs| - 1])
  }

  lemma Distribute(x: real, m: int, n: int)
    ensures Times(x, (m + n) as real) == Times(x, m as real) + Times(x, n as real)
    ensures Times(x, (-m) as real) == -Times(x, m as real)
    ensures Times(x, 0.0) == 0.0
  {
    assert (m + n) as real == m as real + n as real;
    assert (-m) as real == -(m as real);
  }

  lemma Zero(y: real)
    ensures Times(0.0, y) == 0.0
  {
  }

  lemma Difference(x: real, y: real, n: int)
    ensures Times(x - y, n as real) == Times(x, n as real) - Times(y, n as real)
  {
  }

  lemma Quotient(x: real, y: real)
    requires y != 0.0
    ensures Times(x / y, y) == x
  {
  }

  /** Adding to a position adds its cost. */
  lemma AddingCosts(a: Account, f: Fill)
    requires a.quantity != 0 && SameWay(a.quantity, Signed(f))
    ensures Cost(ApplyFill(a, f)) == Cost(a) + Amount(f)
    ensures ApplyFill(a, f).realized == a.realized
  {
    hide Times;
    var s := Signed(f);
    var a' := ApplyFill(a, f);
    Quotient(Times(a.average, Abs(a.quantity) as real) + Times(f.price, Abs(s) as real), Abs(a.quantity + s) as real);
    Distribute(a'.average, a.quantity + s, 0);
    Distribute(a.average, a.quantity, 0);
    Distribute(f.price, s, 0);
  }

  /** The gain realized on closing `d` of the position, counted in its direction. */
  lemma Gain(average: real, price: real, d: int)
    ensures Realized(average, d > 0, price, Abs(d)) == Times(price, d as real) - Times(average, d as real)
  {
    hide Times;
    Difference(price, average, Abs(d));
    Difference(average, price, Abs(d));
    Distribute(price, d, 0);
    Distribute(average, d, 0);
  }

  lemma TurningRealizes(a: Account, f: Fill)
    requires a.quantity != 0 && !SameWay(a.quantity, Signed(f)) && Abs(a.quantity) < Abs(Signed(f))
    ensures ApplyFill(a, f).quantity == a.quantity + Signed(f)
    ensures ApplyFill(a, f).realized - Cost(ApplyFill(a, f)) == a.realized - Cost(a) - Amount(f)
  {
    hide Times, Realized;
    var s, q := Signed(f), a.quantity;
    Gain(a.average, f.price, q);
    Distribute(f.price, s, q);
  }

  lemma ReducingRealizes(a: Account, f: Fill)
    requires a.quantity != 0 && !SameWay(a.quantity, Signed(f)) && Abs(Signed(f)) <= Abs(a.quantity)
    ensures ApplyFill(a, f).quantity == a.quantity + Signed(f)
    ensures ApplyFill(a, f).realized - Cost(ApplyFill(a, f)) == a.realized - Cost(a) - Amount(f)
  {
    hide Times, Realized;
    var s, q := Signed(f), a.quantity;
    if s == 0 {
      Gain(a.average, f.price, 0);
      NothingRealized(a.average, f.price);
    } else {
      Gain(a.average, f.price, -s);
    }
    Distribute(f.price, s, 0);
    Distribute(a.average, q, s);
    Distribute(a.average, s, 0);
    Zero((q + s) as real);
  }

  lemma NothingRealized(average: real, price: real)
    ensures Realized(average, true, price, 0) == Realized(average, false, price, 0) == 0.0
  {
  }

  /** One fill moves exactly its price times its quantity between cash and the position's cost. */
  lemma FillBalances(a: Account, f: Fill)
    ensures var a' := ApplyFill(a, f);
            && a'.quantity == a.quantity + Signed(f)
            && a'.realized - Cost(a') == a.realized - Cost(a) - Amount(f)
  {
    if a.quantity == 0 {
      hide Times;
      Distribute(a.average, 0, 0);
    } else if SameWay(a.quantity, Signed(f)) {
      AddingCosts(a, f);
    } else if Abs(a.quantity) < Abs(Signed(f)) {
      TurningRealizes(a, f);
    } else {
      ReducingRealizes(a, f);
    }
  }

  lemma CostsNothing()
    ensures Cost(FLAT) == 0.0
  {
  }

  /** Over any fills: the quantity is the sum of the signed fills, and what was realized is the net
      cash flow plus the open position at its average price. */
  lemma {:induction false} Books(fs: seq<Fill>)
    ensures var a := After(fs);
            a.quantity == Net(fs) && a.realized == Cash(fs) + Cost(a)
  {
    hide ApplyFill, Cost, Amount;
    CostsNothing();
    if fs != [] {
      Books(fs[..|fs| - 1]);
      FillBalances(After(fs[..|fs| - 1]), fs[|fs| - 1]);
    }
  }

  // ---------- What a fill realizes ----------

  /** The quantity a fill adds: positive for "BUY", negative for anything else. */
  predicate Adds(f: Fill, s: int) {
    s == if f.side == "BUY" then f.quantity else -f.quantity
  }

  /** Opening or adding realizes nothing; an opening fill sets the average, an adding one mixes its
      price in by quantity. */
  lemma FillOpensOrAdds(a: Account, f: Fill, s: int)
    requires Adds(f, s)
    ensures var a' := ApplyFill(a, f);
            && a'.quantity == a.quantity + s
            && (a.quantity == 0 ==> a'.realized == a.realized && a'.average == f.price)
            && ((a.quantity > 0 && s > 0) || (a.quantity < 0 && s < 0) ==>
                  && a'.realized == a.realized
                  && a'.average * (a.quantity + s) as real == a.average * a.quantity as real + f.price * s as real)
  {
    FillBalances(a, f);
    if SameWay(a.quantity, s) { AddingCosts(a, f); }
  }

  /** A fill against a larger position keeps the average and realizes the difference in price on the
      fill's quantity, for a long or a short position. */
  lemma FillReduces(a: Account, f: Fill, s: int)
    requires Adds(f, s)
    ensures var a' := ApplyFill(a, f);
            && (a.quantity > 0 && s <= 0 && -s < a.quantity ==>
                  && a'.average == a.average
                  && a'.realized == a.realized + (f.price - a.average) * (-s) as real)
            && (a.quantity < 0 && s >= 0 && s < -a.quantity ==>
                  && a'.average == a.average
                  && a'.realized == a.realized + (a.average - f.price) * s as real)
  {
  }

  /** A fill against an equal or smaller position realizes the difference in price on the whole old
      position, and no more; what is left over opens a position at the fill's price. */
  lemma FillClosesOrTurns(a: Account, f: Fill, s: int)
    requires Adds(f, s)
    ensures var a' := ApplyFill(a, f);
            && (a.quantity > 0 && a.quantity <= -s ==>
                  && a'.average == (if a.quantity == -s then 0.0 else f.price)
                  && a'.realized == a.realized + (f.price - a.average) * a.quantity as real)
            && (a.quantity < 0 && -a.quantity <= s ==>
                  && a'.average == (if -a.quantity == s then 0.0 else f.price)
                  && a'.realized == a.realized + (a.average - f.price) * (-a.quantity) as real)
  {
  }

  /** The profit `s` more at `price` takes from a position: the difference to the average before, on as
      much of the position as it closes. */
  function Taken(a: Account, price: real, s: int): real {
    if a.quantity > 0 && s < 0 then
      if -s < a.quantity then (price - a.average) * (-s) as real else (price - a.average) * a.quantity as real
    else if a.quantity < 0 && s > 0 then
      if s < -a.quantity then (a.average - price) * s as real else (a.average - price) * (-a.quantity) as real
    else 0.0
  }

  function AllTaken(fs: seq<Fill>, n: nat): real
    requires n <= |fs|
  {
    if n == 0 then 0.0
    else
      var f := fs[n - 1];
      AllTaken(fs, n - 1) + Taken(After(fs[..n - 1]), f.price, if f.side == "BUY" then f.quantity else -f.quantity)
  }

  lemma FillTakes(a: Account, f: Fill, s: int)
    requires Adds(f, s)
    ensures ApplyFill(a, f).realized == a.realized + Taken(a, f.price, s)
  {
    hide ApplyFill;
    FillOpensOrAdds(a, f, s);
    FillReduces(a, f, s);
    FillClosesOrTurns(a, f, s);
    assert s == 0 ==> (f.price - a.average) * 0 as real == 0.0 && (a.average - f.price) * 0 as real == 0.0;
  }

  /** Over any fills, realized profit is the sum of what each of them took. */
  lemma {:induction false} RealizedIsTaken(fs: seq<Fill>, n: nat)
    requires n <= |fs|
    ensures After(fs[..n]).realized == AllTaken(fs, n)
  {
    hide Taken, ApplyFill;
    if n > 0 {
      RealizedIsTaken(fs, n - 1);
      assert fs[..n][..n - 1] == fs[..n - 1];
      var f := fs[n - 1];
      FillTakes(After(fs[..n - 1]), f, if f.side == "BUY" then f.quantity else -f.quantity);
    }
  }

  // ---------- The average price ----------

  /** The fill that opened the present position, or turned it around. */
  function OpenedAt(fs: seq<Fill>): (i: nat)
    requires fs != []
    ensures i < |fs|
  {
    var before := After(fs[..|fs| - 1]).quantity;
    if before == 0 || SameWay(before, -After(fs).quantity) then |fs| - 1
    else OpenedAt(fs[..|fs| - 1])
  }

  lemma Weighted(x: real, y: real, m: real, n: real, lo: real, hi: real)
    requires lo <= x <= hi && lo <= y <= hi && m >= 0.0 && n >= 0.0 && m + n > 0.0
    ensures lo <= (Times(x, m) + Times(y, n)) / (m + n) <= hi
  {
    hide Times;
    Monotone(lo, x, m);
    Monotone(x, hi, m);
    Monotone(lo, y, n);
    Monotone(y, hi, n);
    Spread(lo, m, n);
    Spread(hi, m, n);
    Between(Times(x, m) + Times(y, n), m + n, lo, hi);
  }

  lemma Monotone(x: real, y: real, m: real)
    requires x <= y && m >= 0.0
    ensures Times(x, m) <= Times(y, m)
  {
    if x < y && m > 0.0 { StrictlyMonotone(x, y, m); }
  }

  lemma StrictlyMonotone(x: real, y: real, m: real)
    requires x < y && m > 0.0
    ensures Times(x, m) < Times(y, m)
  {
    assert (y - x) * m > 0.0;
  }

  lemma Spread(x: real, m: real, n: real)
    ensures Times(x, m + n) == Times(x, m) + Times(x, n)
  {
  }

  lemma Between(total: real, m: real, lo: real, hi: real)
    requires m > 0.0 && Times(lo, m) <= total <= Times(hi, m)
    ensures lo <= total / m <= hi
  {
    hide Times;
    var z := total / m;
    Quotient(total, m);
    if z < lo { StrictlyMonotone(z, lo, m); }
    if hi < z { StrictlyMonotone(hi, z, m); }
  }

  lemma BlendedBetween(average: real, q: int, price: real, s: int, lo: real, hi: real)
    requires SameWay(q, s) && lo <= average <= hi && lo <= price <= hi
    ensures lo <= Blended(average, q, price, s) <= hi
  {
    hide Times;
    assert Abs(q + s) as real == Abs(q) as real + Abs(s) as real;
    Weighted(average, price, Abs(q) as real, Abs(s) as real, lo, hi);
  }

  /** A fill that neither opens nor turns the position keeps the average between the bounds. */
  lemma FillBetween(a: Account, f: Fill, lo: real, hi: real)
    requires a.quantity != 0 && lo <= a.average <= hi && lo <= f.price <= hi
    requires ApplyFill(a, f).quantity != 0
    ensures lo <= ApplyFill(a, f).average <= hi
  {
    hide Blended, Realized;
    if SameWay(a.quantity, Signed(f)) {
      BlendedBetween(a.average, a.quantity, f.price, Signed(f), lo, hi);
    }
  }

  /** While a position is open, its average price lies between the lowest and the highest fill price
      since it was opened or turned around. */
  lemma {:induction false} AverageBetween(fs: seq<Fill>, lo: real, hi: real)
    requires fs != [] && After(fs).quantity != 0
    requires forall i :: OpenedAt(fs) <= i < |fs| ==> lo <= fs[i].price <= hi
    ensures lo <= After(fs).average <= hi
  {
    var before, f := fs[..|fs| - 1], fs[|fs| - 1];
    var a := After(before);
    assert lo <= f.price <= hi;
    if a.quantity != 0 {
      if SameWay(a.quantity, -After(fs).quantity) {
        TurnedAround(a, f);
      } else {
        assert forall i :: OpenedAt(before) <= i < |before| ==> before[i] == fs[i];
        AverageBetween(before, lo, hi);
        FillBetween(a, f, lo, hi);
      }
    }
  }

  lemma TurnedAround(a: Account, f: Fill)
    requires a.quantity != 0 && SameWay(a.quantity, -ApplyFill(a, f).quantity)
    ensures ApplyFill(a, f).average == f.price
  {
  }

  // ---------- Marking ----------

  /** What an open position would gain at the last price; nothing without a last price. */
  function Unrealized(a: Account, last: real): real {
    if a.quantity == 0 || last == 0.0 then 0.0 else Times(last - a.average, a.quantity as real)
  }

  /** The position valued at the last price or, for want of one, at what it cost. */
  function Value(a: Account, last: real): real {
    Times(if last == 0.0 then a.average else last, a.quantity as real)
  }

  lemma ValueIsGainPlusCost(a: Account, last: real)
    ensures Value(a, last) == Unrealized(a, last) + Cost(a)
  {
    hide Times;
    Difference(last, a.average, a.quantity);
    Distribute(a.average, 0, 0);
    Distribute(last, 0, 0);
  }

  /** An open position with a last price gains the difference to its average on its whole quantity,
      without one nothing; without one it is worth what it cost. */
  lemma MarkedTo(a: Account, last: real)
    ensures Unrealized(a, last)
            == if a.quantity == 0 || last == 0.0 then 0.0 else (last - a.average) * a.quantity as real
    ensures last != 0.0 ==> Value(a, last) == last * a.quantity as real
    ensures last == 0.0 ==> Value(a, last) == a.average * a.quantity as real
  {
  }

  /** A purchase costs cash, a sale brings it. */
  lemma CashMoves(fs: seq<Fill>, f: Fill)
    ensures Cash([]) == 0.0
    ensures Cash(fs + [f])
            == if f.side == "BUY" then Cash(fs) - f.price * f.quantity as real
               else Cash(fs) + f.price * f.quantity as real
  {
    assert (fs + [f])[..|fs|] == fs;
    Distribute(f.price, f.quantity, 0);
  }

  /** Profit is cash plus the value of the position. */
  lemma ProfitIsCashPlusValue(fs: seq<Fill>, last: real)
    ensures After(fs).realized + Unrealized(After(fs), last) == Cash(fs) + Value(After(fs), last)
  {
    hide After, Cash, Value, Cost, Unrealized;
    Books(fs);
    ValueIsGainPlusCost(After(fs), last);
  }

  /** Profit is cash plus the position at the last price, if and only if the position is closed, has
      a last price, or cost nothing. */
  lemma ProfitMarked(fs: seq<Fill>, last: real)
    ensures After(fs).realized + Unrealized(After(fs), last) == Cash(fs) + Times(last, After(fs).quantity as real)
            <==> After(fs).quantity == 0 || last != 0.0 || After(fs).average == 0.0
  {
    hide After, Cash, Unrealized;
    ProfitIsCashPlusValue(fs, last);
    var a := After(fs);
    if a.quantity != 0 && a.average != 0.0 {
      NoZeroFactor(a.average, a.quantity as real);
    }
  }

  /** A purchase at 10 followed by one for nothing leaves no last price, and profit misses the cost. */
  lemma FreeFillUnmarked(id: string, symbol: string)
    ensures var fs := [Fill(id, symbol, "BUY", 10.0, 1), Fill(id, symbol, "BUY", 0.0, 1)];
            After(fs) == Account(2, 5.0, 0.0)
            && After(fs).realized + Unrealized(After(fs), 0.0) == 0.0
            && Cash(fs) + Times(0.0, 2.0) == -10.0
  {
    var f, g := Fill(id, symbol, "BUY", 10.0, 1), Fill(id, symbol, "BUY", 0.0, 1);
    assert [f, g][..1] == [f] && [f][..0] == [];
    assert After([f]) == Account(1, 10.0, 0.0);
    assert Blended(10.0, 1, 0.0, 1) == 5.0;
    assert Cash([f]) == -10.0;
  }

  lemma NoZeroFactor(x: real, y: real)
    requires x != 0.0 && y != 0.0
    ensures x * y != 0.0
  {
  }
}
