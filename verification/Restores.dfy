/** What the server does at start-up: rebuild a book from the stored live orders. */
module Restores {
  import opened Orders
  import opened OrderObject
  import opened Matching
  import opened Engine
  import opened Registry
  import opened Safety
  import opened Replay
  import opened OrderBooks

  /** A new order object for a stored one: what was left is its quantity, and a fill of nothing
      marks it as partially filled. */
  method LoadOrder(row: Ord) returns (order: Order)
    requires row.Live()
    ensures fresh(order) && order.Val() == Restored(row)
    ensures order.id == row.id && order.side == row.side && order.kind == row.kind
    ensures order.price == row.price && order.stopPrice == row.stopPrice
    ensures order.quantity == row.remaining && order.remaining == row.remaining
    ensures order.status == if row.remaining < row.quantity then Partial else Pending
  {
    order := new Order(row.id, row.side, row.price, row.remaining, row.kind, row.stopPrice);
    if row.remaining < row.quantity {
      var _ := order.Fill(0);
    }
  }

  method LoadAllActiveOrders(rows: seq<Ord>) returns (orders: seq<Order>)
    requires forall i :: 0 <= i < |rows| ==> rows[i].Live()
    ensures |orders| == |rows| && NoDup(orders)
    ensures forall i :: 0 <= i < |rows| ==> fresh(orders[i]) && orders[i].Val() == Restored(rows[i])
  {
    orders := [];
    for i := 0 to |rows|
      invariant |orders| == i && NoDup(orders)
      invariant forall j :: 0 <= j < i ==> fresh(orders[j]) && orders[j].Val() == Restored(rows[j])
    {
      var order := LoadOrder(rows[i]);
      orders := orders + [order];
    }
  }

  lemma RestoredSubmittable(rows: seq<Ord>)
    requires forall i :: 0 <= i < |rows| ==> rows[i].Live()
    ensures forall i :: 0 <= i < |rows| ==> Submittable(RestoredAll(rows)[i])
  {
  }

  lemma EmptyShaped()
    ensures Shaped(EMPTY_BOOK)
  {
  }

  lemma NoneSubmitted()
    requires Shaped(EMPTY_BOOK)
    ensures SubmitAll(EMPTY_BOOK, []) == EMPTY_BOOK
  {
  }

  lemma SubmitOneMore(l: seq<Ord>, i: nat)
    requires i < |l| && Shaped(EMPTY_BOOK) && forall j :: 0 <= j < |l| ==> Submittable(l[j])
    ensures SubmitAll(EMPTY_BOOK, l[..i + 1]) == Submit(SubmitAll(EMPTY_BOOK, l[..i]), l[i]).1
  {
    hide Submit, Shaped, Submittable;
    assert l[..i + 1][..i] == l[..i];
  }

  /** Feeds stored orders into an empty book, in the order the store returns them. */
  method RestoreOrders(book: OrderBook, rows: seq<Ord>)
    requires book.Valid() && book.Abs() == EMPTY_BOOK && book.Everyone() == {}
    requires forall i :: 0 <= i < |rows| ==> rows[i].Live()
    modifies book
    ensures book.Valid()
    ensures (forall i :: 0 <= i < |rows| ==> Submittable(RestoredAll(rows)[i]))
            && book.Abs() == SubmitAll(EMPTY_BOOK, RestoredAll(rows))
  {
    hide OrderBook.Valid, OrderBook.Abs, OrderBook.Everyone, Submit, Shaped, Notifies, ExceptSubmitter, SubmitAll,
         RestoredAll;
    EmptyShaped();
    NoneSubmitted();
    assert allocated(book.Bids()) && allocated(book.Asks());
    assert allocated(book.StopBuys()) && allocated(book.StopSells());
    var orders := LoadAllActiveOrders(rows);
    ghost var l := RestoredAll(rows);
    RestoredSubmittable(rows);
    for i := 0 to |orders|
      invariant book.Valid() && book.Abs() == SubmitAll(EMPTY_BOOK, l[..i])
      invariant book.Everyone() <= AsSet(orders[..i])
      invariant forall j :: i <= j < |orders| ==> orders[j].Val() == l[j]
    {
      SubmitOneMore(l, i);
      var added, trades, notified, updates := book.AddOrder(orders[i]);
    }
    assert l[..|l|] == l;
  }

  /** Restarting with the live orders of a reachable book rebuilds it, queue by queue. */
  method InitPersistence(book: OrderBook, rows: seq<Ord>, ghost b: Book)
    requires book.Valid() && book.Abs() == EMPTY_BOOK && book.Everyone() == {}
    requires Good(b) && Interleaves(rows, b)
    modifies book
    ensures book.Valid() && book.Abs() == RestoredBook(b)
    ensures |book.Abs().bids| == |b.bids| && forall i :: 0 <= i < |b.bids| ==> Revived(book.Abs().bids[i], b.bids[i])
    ensures |book.Abs().asks| == |b.asks| && forall i :: 0 <= i < |b.asks| ==> Revived(book.Abs().asks[i], b.asks[i])
    ensures |book.Abs().stopBuys| == |b.stopBuys|
            && forall i :: 0 <= i < |b.stopBuys| ==> Revived(book.Abs().stopBuys[i], b.stopBuys[i])
    ensures |book.Abs().stopSells| == |b.stopSells|
            && forall i :: 0 <= i < |b.stopSells| ==> Revived(book.Abs().stopSells[i], b.stopSells[i])
  {
    RowsLive(rows, b);
    RestoreOrders(book, rows);
    ReplayRebuilds(b, rows);
    ReplayKeeps(b, rows, book.Abs());
  }

  lemma RowsLive(rows: seq<Ord>, b: Book)
    requires Good(b) && Interleaves(rows, b)
    ensures forall i :: 0 <= i < |rows| ==> rows[i].Live()
  {
    InterleavedDistinct(rows, b);
    forall i | 0 <= i < |rows| ensures rows[i].Live() {
      RestedLive(b, rows[i]);
    }
  }
}
