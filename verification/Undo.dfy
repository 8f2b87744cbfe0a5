/** A checkout and its later cancel, against the run in which neither happened. */
module Undo {
  import opened Domain
  import opened Requests
  import opened Reservation
  import opened Ledger

  // The requests are checkouts and cancels of other orders, and each of them succeeds.
  ghost predicate TradesThrough(t: Tables, rs: seq<Request>, oid: OrderId)
    requires Runs(t, rs)
  {
    rs == [] || (
      && TradesThrough(t, rs[..|rs| - 1], oid)
      && Trade(rs[|rs| - 1], oid)
      && Succeeds(Exec(t, rs[..|rs| - 1]), rs[|rs| - 1]))
  }

  predicate Trade(r: Request, oid: OrderId) { r.Checkout? || (r.Cancel? && r.oid != oid) }

  /** p is a with the lines sold in order oid, and with some cart rows gone. */
  ghost predicate SoldFrom(a: Tables, p: Tables, lines: seq<Line>, oid: OrderId) {
    && p.books == Sell(a.books, lines) && p.carts == a.carts
    && (forall i :: i in p.items ==> i in a.items && p.items[i] == a.items[i])
    && oid !in a.orders && p.orders.Keys == a.orders.Keys + {oid}
    && (forall o :: o in a.orders ==> p.orders[o] == a.orders[o])
  }

  lemma SalesCommute(books: map<BookId, Book>, xs: seq<Line>, ys: seq<Line>)
    ensures Sell(Sell(books, xs), ys) == Sell(Sell(books, ys), xs)
    ensures Restock(Sell(books, xs), ys) == Sell(Restock(books, ys), xs)
    ensures Restock(Sell(books, xs), xs) == books
  {
  }

  lemma SameReading(a: Tables, p: Tables, lines: seq<Line>, oid: OrderId, u: UserId, listing: seq<ItemId>)
    requires SoldFrom(a, p, lines, oid) && IsListing(a, u, listing) && IsListing(p, u, listing)
    ensures LinesOf(p.items, listing) == LinesOf(a.items, listing)
  {
    forall i | i in listing ensures i in p.items { assert i in CartRows(p, u); }
  }

  lemma CheckoutAlongside(a: Tables, p: Tables, lines: seq<Line>, oid: OrderId, r: Request)
    requires SoldFrom(a, p, lines, oid) && r.Checkout?
    requires Enabled(a, r) && Succeeds(a, r) && Enabled(p, r) && Succeeds(p, r)
    ensures SoldFrom(Apply(a, r), Apply(p, r), lines, oid)
  {
    var ls := LinesOf(a.items, r.listing);
    SameReading(a, p, lines, oid, r.user, r.listing);
    assert Priced(p.books, ls) == Priced(a.books, ls);
    SalesCommute(a.books, lines, ls);
  }

  lemma CancelAlongside(a: Tables, p: Tables, lines: seq<Line>, oid: OrderId, r: Request)
    requires SoldFrom(a, p, lines, oid) && r.Cancel? && r.oid != oid
    requires Succeeds(a, r) && Succeeds(p, r)
    ensures SoldFrom(Apply(a, r), Apply(p, r), lines, oid)
  {
    SalesCommute(a.books, lines, Plain(a.orders[r.oid].lines));
  }

  lemma StepAlongside(a: Tables, p: Tables, lines: seq<Line>, oid: OrderId, r: Request)
    requires SoldFrom(a, p, lines, oid) && Trade(r, oid)
    requires Enabled(a, r) && Succeeds(a, r) && Enabled(p, r) && Succeeds(p, r)
    ensures SoldFrom(Apply(a, r), Apply(p, r), lines, oid)
  {
    if r.Checkout? { CheckoutAlongside(a, p, lines, oid, r); } else { CancelAlongside(a, p, lines, oid, r); }
  }

  lemma {:induction false} RunAlongside(a: Tables, p: Tables, lines: seq<Line>, oid: OrderId, rs: seq<Request>)
    requires SoldFrom(a, p, lines, oid) && Runs(a, rs) && Runs(p, rs)
    requires TradesThrough(a, rs, oid) && TradesThrough(p, rs, oid)
    ensures SoldFrom(Exec(a, rs), Exec(p, rs), lines, oid)
  {
    if rs != [] {
      var n := |rs| - 1;
      RunAlongside(a, p, lines, oid, rs[..n]);
      StepAlongside(Exec(a, rs[..n]), Exec(p, rs[..n]), lines, oid, rs[n]);
    }
  }

  lemma {:induction false} AllTrades(t: Tables, rs: seq<Request>, oid: OrderId)
    requires Runs(t, rs) && TradesThrough(t, rs, oid)
    ensures forall k :: 0 <= k < |rs| ==> Trade(rs[k], oid)
  {
    if rs != [] {
      AllTrades(t, rs[..|rs| - 1], oid);
      forall k | 0 <= k < |rs| - 1 ensures Trade(rs[k], oid) { assert rs[..|rs| - 1][k] == rs[k]; }
    }
  }

  // Cancelling the order in p goes through and brings back the books of a.
  lemma CancelBack(a: Tables, p: Tables, lines: seq<Line>, oid: OrderId, u: UserId)
    requires SoldFrom(a, p, lines, oid) && Inv(a) && Inv(p) && Plain(p.orders[oid].lines) == lines
    requires p.orders[oid].user == u && p.orders[oid].status == Placed
    ensures CancelOk(p, u, oid) && Apply(p, Cancel(u, oid)).books == a.books
  {
    SalesCommute(a.books, lines, lines);
    OrderedQuantities(p.orders[oid]);
    RestockFitsIff(p.books, lines);
  }

  /** When successful checkouts and cancels in between also succeed without the checkout, its
      cancel always goes through and leaves the books as if the checkout had never been. */
  lemma CancelLeavesNoTrace(t: Tables, u: UserId, listing: seq<ItemId>, oid: OrderId, mid: seq<Request>)
    requires Inv(t) && Enabled(t, Checkout(u, listing, oid)) && CheckoutOk(t, u, listing)
    requires Runs(t, mid) && TradesThrough(t, mid, oid)
    requires Runs(CheckoutNext(t, u, listing, oid), mid) && TradesThrough(CheckoutNext(t, u, listing, oid), mid, oid)
    ensures var later := Exec(CheckoutNext(t, u, listing, oid), mid);
            CancelOk(later, u, oid) && Apply(later, Cancel(u, oid)).books == Exec(t, mid).books
  {
    var placed, lines := CheckoutNext(t, u, listing, oid), LinesOf(t.items, listing);
    RunAlongside(t, placed, lines, oid, mid);
    AllTrades(t, mid, oid);
    StillPlaced(t, u, listing, oid, mid);
    InvInRuns(t, mid);
    CancelBack(Exec(t, mid), Exec(placed, mid), lines, oid, u);
  }
}
