/** Checkout and cancel as the service runs them: loops that lock a row, check it, write it
    and flush. Their contracts say that the loops decide and do exactly what Requests
    states up front, whatever point a fault stops them at. */
module OrderServices {
  import opened Domain
  import opened Requests
  import opened Reservation
  import opened Persistence

  // No state flushed since the first `from` ones shows a negative stock.
  ghost predicate NeverNegative(trail: seq<Tables>, from: nat) {
    forall k :: from <= k < |trail| ==> NonNegative(trail[k].books)
  }

  lemma TrailGrows(start: seq<Tables>, trail: seq<Tables>, t: Tables)
    requires NeverNegative(trail, |start|) && NonNegative(t.books)
    ensures NeverNegative(trail + [t], |start|)
  {
  }

  // Where the checkout loop stands after the given prefix of the lines.
  ghost predicate Reserved(t0: Tables, done: seq<Line>, w: Tables, placed: seq<OrderLine>, total: int) {
    && Reservable(t0.books, done)
    && w == t0.(books := Sell(t0.books, done))
    && placed == Priced(t0.books, done)
    && total == RunningTotal(placed)
  }

  lemma ReservedNext(t0: Tables, lines: seq<Line>, i: nat, w: Tables, w': Tables,
                     placed: seq<OrderLine>, l: OrderLine, total: int)
    requires i < |lines| && Reserved(t0, lines[..i], w, placed, total) && RowsFit(t0)
    requires CanTake(w.books, lines[i]) && l == OrderLine(lines[i], w.books[lines[i].book].price)
    requires w' == w.(books := Take(w.books, lines[i]))
    ensures Reserved(t0, lines[..i + 1], w', placed + [l], Rounded(total + Rounded(Amount(l))))
    ensures RowsFit(w') && (NonNegative(t0.books) ==> NonNegative(w'.books))
  {
    ReserveStep(t0.books, lines, i);
    SoldStocksFit(t0.books, lines[..i + 1]);
    assert (placed + [l])[..|placed|] == placed;
    if NonNegative(t0.books) { SellStaysNonNegative(t0.books, lines[..i + 1]); }
  }

  // Where the restock loop stands.
  ghost predicate Returned(t0: Tables, lines: seq<Line>, k: nat, w: Tables) {
    && k <= |lines|
    && w == t0.(books := Restock(t0.books, lines[..k]))
    && RestockFits(t0.books, lines[..k])
  }

  lemma ReturnedNext(t0: Tables, lines: seq<Line>, k: nat, w: Tables)
    requires k < |lines| && Returned(t0, lines, k, w)
    ensures CanReturn(w.books, lines[k]) ==>
              Returned(t0, lines, k + 1, w.(books := Return(w.books, lines[k])))
    ensures !CanReturn(w.books, lines[k]) ==> !RestockFits(t0.books, lines)
    ensures NonNegative(t0.books) && AllPositive(lines) ==> NonNegative(Return(w.books, lines[k]))
  {
    RestockStep(t0.books, lines, k);
    DemandStep(lines, k, lines[k].book);
    var b := lines[k].book;
    assert Received(lines, k) == Demand(lines[..k], b) + lines[k].quantity;
    if CanReturn(w.books, lines[k]) {
      forall j | 0 <= j <= k && lines[j].book in t0.books
        ensures FitsInt32(t0.books[lines[j].book].stock + Received(lines[..k + 1], j))
      {
        ReceivedPrefix(lines, k + 1, j);
        if j < k { ReceivedPrefix(lines, k, j); assert lines[..k][j] == lines[j]; }
      }
    } else {
      assert !FitsInt32(t0.books[b].stock + Received(lines, k));
    }
    if NonNegative(t0.books) && AllPositive(lines) {
      RestockStaysNonNegative(t0.books, lines[..k + 1]);
    }
  }

  class OrderService {
    const db: Session
    const books: BookRepository
    const carts: CartRepository
    const orders: OrderRepository

    ghost predicate Wired() { books.db == db && carts.db == db && orders.db == db }

    constructor (db: Session)
      ensures Wired() && this.db == db && fresh(this)
    {
      this.db := db;
      books := new BookRepository(db);
      carts := new CartRepository(db);
      orders := new OrderRepository(db);
    }

    // One cart line: lock the row, check it, decrement it in place, flush.
    method ReserveLine(item: Line) returns (r: Result<OrderLine>)
      requires Wired() && RowsFit(db.work)
      modifies db
      ensures db.committed == old(db.committed)
      ensures old(db.fault) == None ==> db.fault == None && !r.DbError?
      ensures r.Ok? ==> CanTake(old(db.work).books, item)
      ensures r.Ok? ==> r.value == OrderLine(item, old(db.work).books[item.book].price)
      ensures r.Ok? ==> db.work == old(db.work).(books := Take(old(db.work).books, item))
      ensures r.Ok? ==> db.trail == old(db.trail) + [db.work]
      ensures !r.Ok? ==> db.trail == old(db.trail)
      ensures r.HttpError? ==> !CanTake(old(db.work).books, item)
      ensures r == HttpError(404) <==> item.quantity >= 1 && item.book !in old(db.work).books
      ensures r.HttpError? ==> r.code == 404 || r.code == 400
    {
      if item.quantity < 1 { return HttpError(400); }
      var book := books.GetByIdForUpdate(item.book);
      if book == None { return HttpError(404); }
      if book.value.stock < item.quantity { return HttpError(400); }
      var ok := books.Update(item.book, book.value.(stock := book.value.stock - item.quantity));
      if !ok { return DbError; }
      return Ok(OrderLine(item, book.value.price));
    }

    // The loop over the cart's lines, accumulating the order lines and the Decimal total.
    method ReserveLines(lines: seq<Line>) returns (r: Result<(seq<OrderLine>, int)>)
      requires Wired() && RowsFit(db.work)
      modifies db
      ensures db.committed == old(db.committed)
      ensures old(db.fault) == None ==> db.fault == None && !r.DbError?
      ensures r.Ok? ==> Reserved(old(db.work), lines, db.work, r.value.0, r.value.1)
      ensures r.HttpError? ==> !Reservable(old(db.work).books, lines)
      ensures r.HttpError? ==> r.code == 404 || r.code == 400
      ensures r == HttpError(404) ==> exists i :: 0 <= i < |lines| && lines[i].book !in old(db.work).books
      ensures |db.trail| >= |old(db.trail)|
      ensures NonNegative(old(db.work).books) ==> NeverNegative(db.trail, |old(db.trail)|)
    {
      ghost var t0 := db.work;
      var placed: seq<OrderLine>, total := [], 0;
      assert Sell(t0.books, lines[..0]) == t0.books;
      for i := 0 to |lines|
        invariant db.committed == old(db.committed)
        invariant old(db.fault) == None ==> db.fault == None
        invariant Reserved(t0, lines[..i], db.work, placed, total) && RowsFit(db.work)
        invariant |db.trail| >= |old(db.trail)|
        invariant NonNegative(t0.books) ==> NeverNegative(db.trail, |old(db.trail)|)
      {
        ghost var w, trail := db.work, db.trail;
        var taken := ReserveLine(lines[i]);
        match taken
        case HttpError(code) =>
          RefusalIsFinal(t0.books, lines, i);
          return HttpError(code);
        case DbError =>
          return DbError;
        case Ok(orderLine) =>
          ReservedNext(t0, lines, i, w, db.work, placed, orderLine, total);
          if NonNegative(t0.books) { TrailGrows(old(db.trail), trail, db.work); }
          placed := placed + [orderLine];
          total := Rounded(total + Rounded(Amount(orderLine)));
      }
      assert lines[..|lines|] == lines;
      return Ok((placed, total));
    }

    // Store the order and clear the cart.
    method Place(cart: CartId, oid: OrderId, order: Order) returns (ok: bool)
      requires Wired()
      modifies db
      ensures db.committed == old(db.committed)
      ensures ok ==> FitsNumeric(order.total)
      ensures ok ==> db.work == old(db.work).(
                       orders := old(db.work).orders[oid := order],
                       items := old(db.work).items - (set i | i in old(db.work).items && old(db.work).items[i].cart == cart))
      ensures old(db.fault) == None ==> db.fault == None && (ok <==> FitsNumeric(order.total))
      ensures |db.trail| >= |old(db.trail)| && db.trail[..|old(db.trail)|] == old(db.trail)
      ensures NonNegative(old(db.work).books) ==> NeverNegative(db.trail, |old(db.trail)|)
    {
      ok := orders.Save(oid, order);
      if ok { ok := carts.ClearItems(cart); }
    }

    method Checkout(user: UserId, listing: seq<ItemId>, oid: OrderId) returns (r: Result<OrderId>)
      requires Wired() && RowsFit(db.work) && OneCartPerUser(db.work)
      requires Enabled(db.work, Request.Checkout(user, listing, oid))
      modifies db
      ensures db.committed == old(db.committed)
      ensures r.Ok? ==> r.value == oid && CheckoutOk(old(db.work), user, listing)
      ensures r.Ok? ==> db.work == CheckoutNext(old(db.work), user, listing, oid)
      ensures r.HttpError? ==> !CheckoutOk(old(db.work), user, listing)
      ensures listing == [] ==> r == HttpError(400)
      ensures old(db.fault) == None ==>
                (r.HttpError? <==> listing == [] || !Reservable(old(db.work).books, LinesOf(old(db.work).items, listing)))
      ensures r.HttpError? ==> r.code == 404 || r.code == 400
      ensures r == HttpError(404) ==>
                exists i :: i in listing && old(db.work).items[i].book !in old(db.work).books
      ensures old(db.fault) == None ==> db.fault == None && (r.Ok? <==> CheckoutOk(old(db.work), user, listing))
      ensures NonNegative(old(db.work).books) ==> NeverNegative(db.trail, |old(db.trail)|)
    {
      ghost var t0 := db.work;
      var cart := carts.GetByUserId(user);
      var lines := LinesOf(db.work.items, listing);
      if cart == None || lines == [] {
        NoCartNoRows(db.work, user, listing);
        return HttpError(400);
      }
      var taken := ReserveLines(lines);
      if taken.HttpError? {
        if taken.code == 404 { assert forall i :: 0 <= i < |lines| ==> listing[i] in listing; }
        return HttpError(taken.code);
      }
      if taken.DbError? { return DbError; }
      if NonNegative(t0.books) { SellStaysNonNegative(t0.books, lines); }
      var (placed, total) := taken.value;
      var ok := Place(cart.value, oid, Order(user, Placed, placed, total));
      if !ok { return DbError; }
      assert (set i | i in t0.items && t0.items[i].cart == cart.value) == CartRows(t0, user);
      return Ok(oid);
    }

    // One order line on cancellation; a missing book is skipped.
    method RestockLine(item: Line) returns (ok: bool)
      requires Wired() && RowsFit(db.work)
      modifies db
      ensures db.committed == old(db.committed)
      ensures ok ==> db.work == old(db.work).(books := Return(old(db.work).books, item))
      ensures ok ==> CanReturn(old(db.work).books, item)
      ensures old(db.fault) == None ==> db.fault == None && (ok <==> CanReturn(old(db.work).books, item))
      ensures db.trail == old(db.trail) || (ok && db.trail == old(db.trail) + [db.work])
    {
      var book := books.GetByIdForUpdate(item.book);
      if book == None { return true; }
      ok := books.Update(item.book, book.value.(stock := book.value.stock + item.quantity));
    }

    // The restock loop.
    method RestockLines(lines: seq<Line>) returns (ok: bool)
      requires Wired() && RowsFit(db.work)
      modifies db
      ensures db.committed == old(db.committed)
      ensures ok ==> RestockFits(old(db.work).books, lines)
      ensures ok ==> db.work == old(db.work).(books := Restock(old(db.work).books, lines))
      ensures old(db.fault) == None ==> db.fault == None && (ok <==> RestockFits(old(db.work).books, lines))
      ensures |db.trail| >= |old(db.trail)|
      ensures NonNegative(old(db.work).books) && AllPositive(lines) ==> NeverNegative(db.trail, |old(db.trail)|)
    {
      ghost var t0 := db.work;
      assert Restock(t0.books, lines[..0]) == t0.books;
      for k := 0 to |lines|
        invariant db.committed == old(db.committed)
        invariant old(db.fault) == None ==> db.fault == None
        invariant Returned(t0, lines, k, db.work) && RowsFit(db.work)
        invariant |db.trail| >= |old(db.trail)|
        invariant NonNegative(t0.books) && AllPositive(lines) ==> NeverNegative(db.trail, |old(db.trail)|)
      {
        ReturnedNext(t0, lines, k, db.work);
        ok := RestockLine(lines[k]);
        if !ok { return false; }
      }
      assert lines[..|lines|] == lines;
      return true;
    }

    method CancelOrder(user: UserId, oid: OrderId) returns (r: Result<Order>)
      requires Wired() && RowsFit(db.work)
      modifies db
      ensures db.committed == old(db.committed)
      ensures r.Ok? ==> CancelOk(old(db.work), user, oid) && db.work == CancelNext(old(db.work), oid)
      ensures r.Ok? ==> r.value == db.work.orders[oid]
      ensures r == HttpError(404) <==> oid !in old(db.work).orders || old(db.work).orders[oid].user != user
      ensures r == HttpError(400) <==> (oid in old(db.work).orders && old(db.work).orders[oid].user == user
                                        && old(db.work).orders[oid].status != Pending
                                        && old(db.work).orders[oid].status != Placed)
      ensures r.HttpError? ==> r.code == 404 || r.code == 400
      ensures r.HttpError? ==> !CancelOk(old(db.work), user, oid)
      ensures old(db.fault) == None ==> db.fault == None && (r.Ok? <==> CancelOk(old(db.work), user, oid))
      ensures (NonNegative(old(db.work).books) && oid in old(db.work).orders
               && AllPositive(Plain(old(db.work).orders[oid].lines))) ==> NeverNegative(db.trail, |old(db.trail)|)
    {
      var found := orders.GetById(oid);
      if found == None || found.value.user != user { return HttpError(404); }
      var order := found.value;
      if !Cancellable(order.status) { return HttpError(400); }
      ghost var t0 := db.work;
      var ok := RestockLines(Plain(order.lines));
      if !ok { return DbError; }
      if NonNegative(t0.books) && AllPositive(Plain(order.lines)) {
        RestockStaysNonNegative(t0.books, Plain(order.lines));
      }
      order := order.(status := Cancelled);
      ok := orders.Save(oid, order);
      if !ok { return DbError; }
      return Ok(order);
    }
  }

  lemma NoCartNoRows(t: Tables, u: UserId, listing: seq<ItemId>)
    requires IsListing(t, u, listing)
    ensures !HasCart(t, u) ==> listing == []
  {
    assert forall i :: i in listing ==> i in CartRows(t, u);
    if listing != [] { assert listing[0] in CartRows(t, u); }
  }
}
