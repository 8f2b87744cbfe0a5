/** What each request amounts to, in terms of rows, numbers and statuses alone: exactly when it
    succeeds, what it leaves, and what a run of requests leaves of an order and of a price. */
module Outcomes {
  import opened Domain
  import opened Requests
  import opened Reservation
  import opened Ledger
  import opened Carts

  // ----- totals

  /** Over any run, a stored total is what its lines add up to: nothing for no line, and unit
      price times quantity more for each line. */
  lemma StoredTotalLineByLine(t: Tables, rs: seq<Request>, oid: OrderId, n: nat)
    requires Inv(t) && Runs(t, rs) && oid in Exec(t, rs).orders
    requires n < |Exec(t, rs).orders[oid].lines| <= 100_000_000
    ensures var o := Exec(t, rs).orders[oid];
            && o.total == RunningTotal(o.lines[..|o.lines|]) && RunningTotal(o.lines[..0]) == 0
            && RunningTotal(o.lines[..n + 1]) - RunningTotal(o.lines[..n])
               == o.lines[n].unitPrice * o.lines[n].line.quantity
  {
    InvInRuns(t, rs);
    var o := Exec(t, rs).orders[oid];
    assert o.lines[..|o.lines|] == o.lines;
    assert OrderSane(o);
    LineAdds(o.lines, n);
  }

  lemma LineAdds(ls: seq<OrderLine>, n: nat)
    requires SaneLines(ls) && n < |ls| <= MAX_EXACT_LINES
    ensures RunningTotal(ls[..n + 1]) - RunningTotal(ls[..n]) == ls[n].unitPrice * ls[n].line.quantity
  {
    TotalsAreExact(ls[..n]);
    TotalsAreExact(ls[..n + 1]);
    assert ls[..n + 1][..n] == ls[..n];
  }

  // What one cart row costs at the present price.
  function RowValue(t: Tables, i: ItemId): int {
    if i in t.items && t.items[i].book in t.books then t.books[t.items[i].book].price * t.items[i].quantity else 0
  }

  /** What the listed cart rows cost. */
  function CartValue(t: Tables, listing: seq<ItemId>): int {
    if listing == [] then 0 else CartValue(t, listing[..|listing| - 1]) + RowValue(t, listing[|listing| - 1])
  }

  lemma {:induction false} TotalIsCartValue(t: Tables, u: UserId, listing: seq<ItemId>, n: nat)
    requires Inv(t) && IsListing(t, u, listing) && n <= |listing| <= MAX_EXACT_LINES
    requires forall i :: 0 <= i < |listing| ==> LinesOf(t.items, listing)[i].book in t.books
    ensures RunningTotal(Priced(t.books, LinesOf(t.items, listing))[..n]) == CartValue(t, listing[..n])
    decreases n
  {
    if n > 0 {
      var ls := Priced(t.books, LinesOf(t.items, listing));
      TotalIsCartValue(t, u, listing, n - 1);
      PricedIsSane(t, u, listing);
      LineAdds(ls, n - 1);
      assert listing[..n][..n - 1] == listing[..n - 1];
      assert listing[n - 1] in CartRows(t, u);
    }
  }

  lemma CheckoutTotal(t: Tables, u: UserId, listing: seq<ItemId>)
    requires Inv(t) && IsListing(t, u, listing) && |listing| <= MAX_EXACT_LINES
    ensures forall i :: 0 <= i < |listing| ==> LinesOf(t.items, listing)[i].book in t.books
    ensures RunningTotal(Priced(t.books, LinesOf(t.items, listing))) == CartValue(t, listing)
  {
    GuardsNeverFire(t, u, listing);
    TotalIsCartValue(t, u, listing, |listing|);
    var ls := Priced(t.books, LinesOf(t.items, listing));
    assert ls[..|listing|] == ls && listing[..|listing|] == listing;
  }

  // ----- checkout

  /** A checkout succeeds exactly when the cart has rows, each is covered by its book's stock,
      and together they cost less than a hundred million. */
  lemma CheckoutSucceedsIff(t: Tables, u: UserId, listing: seq<ItemId>, oid: OrderId)
    requires Inv(t) && Enabled(t, Checkout(u, listing, oid)) && |listing| <= 100_000_000
    ensures Succeeds(t, Checkout(u, listing, oid)) <==>
            && listing != []
            && (forall i :: i in listing ==> t.items[i].quantity <= t.books[t.items[i].book].stock)
            && -100_000_000_00 < CartValue(t, listing) < 100_000_000_00
  {
    CheckoutRowByRow(t, u, listing);
    CheckoutTotal(t, u, listing);
  }

  /** It stores one placed order of the user, with a line for each row at the present price and
      the sum as its total, and no other order changes. */
  lemma CheckoutStores(t: Tables, u: UserId, listing: seq<ItemId>, oid: OrderId)
    requires Inv(t) && Enabled(t, Checkout(u, listing, oid)) && |listing| <= 100_000_000
    requires Succeeds(t, Checkout(u, listing, oid))
    ensures var t' := Apply(t, Checkout(u, listing, oid));
            && t'.orders.Keys == t.orders.Keys + {oid} && oid !in t.orders
            && (forall o :: o in t.orders ==> t'.orders[o] == t.orders[o])
            && t'.orders[oid].user == u && t'.orders[oid].status == Placed
            && t'.orders[oid].total == CartValue(t, listing)
            && |t'.orders[oid].lines| == |listing|
            && (forall k :: 0 <= k < |listing| ==>
                  LineOfRow(t, listing[k], t'.orders[oid].lines[k]))
  {
    CheckoutTotal(t, u, listing);
    forall k | 0 <= k < |listing| ensures listing[k] in t.items { assert listing[k] in CartRows(t, u); }
  }

  predicate LineOfRow(t: Tables, i: ItemId, l: OrderLine) {
    && i in t.items && t.items[i].book in t.books
    && l.line.book == t.items[i].book && l.line.quantity == t.items[i].quantity
    && l.unitPrice == t.books[t.items[i].book].price
  }

  /** It takes the user's quantity of each book off its stock and leaves every price; it empties
      the user's cart and no other. */
  lemma CheckoutTakes(t: Tables, u: UserId, listing: seq<ItemId>, oid: OrderId)
    requires Inv(t) && Enabled(t, Checkout(u, listing, oid)) && Succeeds(t, Checkout(u, listing, oid))
    ensures var t' := Apply(t, Checkout(u, listing, oid));
            && t'.books.Keys == t.books.Keys && t'.carts == t.carts
            && (forall b :: b in t.books ==> t'.books[b].price == t.books[b].price)
            && (forall b :: b in t.books ==> t'.books[b].stock == t.books[b].stock - Quantity(t, u, b))
            && (forall v, b :: Quantity(t', v, b) == if v == u then 0 else Quantity(t, v, b))
  {
    ListingHolds(t, u, listing);
    forall v, b ensures Quantity(Apply(t, Checkout(u, listing, oid)), v, b) == if v == u then 0 else Quantity(t, v, b) {
      CartRefinement(t, Checkout(u, listing, oid), v, b);
    }
  }

  // ----- cancel

  /** A cancel succeeds exactly when the order is there, is the user's, is pending or placed,
      and every stock has room for its copies. */
  lemma CancelSucceedsIff(t: Tables, u: UserId, oid: OrderId)
    requires Inv(t)
    ensures Succeeds(t, Cancel(u, oid)) <==>
            && oid in t.orders && t.orders[oid].user == u
            && (t.orders[oid].status == Pending || t.orders[oid].status == Placed)
            && (forall b :: b in t.books ==>
                  t.books[b].stock + Demand(Plain(t.orders[oid].lines), b) <= 2_147_483_647)
  {
    if oid in t.orders {
      var lines := Plain(t.orders[oid].lines);
      OrderedQuantities(t.orders[oid]);
      RestockFitsIff(t.books, lines);
      forall b | b in t.books ensures FitsInt32(t.books[b].stock) && Demand(lines, b) >= 0 {
        DemandMonotone(lines, |lines|, b);
        assert lines[..|lines|] == lines;
      }
    }
  }

  /** Over any run, an order that is neither pending nor placed keeps its status, and no request
      returns its copies. */
  lemma {:induction false} OtherStatusStays(t: Tables, rs: seq<Request>, oid: OrderId)
    requires Runs(t, rs) && oid in t.orders
    requires t.orders[oid].status != Pending && t.orders[oid].status != Placed
    ensures oid in Exec(t, rs).orders && Exec(t, rs).orders[oid] == t.orders[oid] && Cancels(t, rs, oid) == 0
  {
    if rs != [] {
      OtherStatusStays(t, rs[..|rs| - 1], oid);
      OrderAfter(Exec(t, rs[..|rs| - 1]), rs[|rs| - 1], oid);
    }
  }

  // ----- carts

  /** Exactly when the cart requests succeed. */
  lemma CartRequestSucceedsIff(t: Tables, r: Request)
    requires Inv(t) && Enabled(t, r)
    ensures r.ViewCart? || r.ClearCart? ==> Succeeds(t, r)
    ensures r.AddItem? ==>
              (Succeeds(t, r) <==>
                1 <= r.quantity && r.book in t.books && Quantity(t, r.user, r.book) + r.quantity <= 2_147_483_647)
    ensures r.UpdateItem? ==>
              (Succeeds(t, r) <==>
                && r.iid in t.items && t.carts[t.items[r.iid].cart] == r.user
                && (r.amount == None || 1 <= r.amount.value <= 2_147_483_647))
    ensures r.RemoveItem? ==>
              (Succeeds(t, r) <==> r.iid in t.items && t.carts[t.items[r.iid].cart] == r.user)
  {
    if r.AddItem? && InCart(t, r.user, r.book) { CartRefinement(t, r, r.user, r.book); }
  }

  predicate OpensCart(r: Request) { r.ViewCart? || r.AddItem? || r.ClearCart? }

  /** Viewing, adding and clearing open a cart for a user who has none; nothing else touches the
      carts themselves. */
  lemma CartsAfter(t: Tables, r: Request)
    requires Enabled(t, r)
    ensures Apply(t, r).carts == t.carts ||
            (OpensCart(r) && (forall c :: c in t.carts ==> t.carts[c] != r.user)
             && Apply(t, r).carts == t.carts[r.cid := r.user])
    ensures OpensCart(r) && Succeeds(t, r) ==> r.user in Apply(t, r).carts.Values
  {
    if OpensCart(r) && Succeeds(t, r) { assert HasCart(Apply(t, r), r.user); }
  }

  // ----- book administration

  /** Exactly when the administration requests succeed. */
  lemma BookRequestSucceedsIff(t: Tables, r: Request)
    requires Enabled(t, r)
    ensures r.CreateBook? ==>
              (Succeeds(t, r) <==>
                && r.accepted && -2_147_483_648 <= r.stock <= 2_147_483_647
                && -100_000_000_00 < r.price < 100_000_000_00)
    ensures r.UpdateBook? ==>
              (Succeeds(t, r) <==>
                && r.book in t.books && r.accepted && r.newStock != Null && r.newPrice != Null
                && (r.newStock == Unset || -2_147_483_648 <= r.newStock.value <= 2_147_483_647)
                && (r.newPrice == Unset || -100_000_000_00 < r.newPrice.value < 100_000_000_00))
    ensures r.DeleteBook? ==>
              (Succeeds(t, r) <==>
                && r.book in t.books
                && (forall o, k :: o in t.orders && 0 <= k < |t.orders[o].lines| ==>
                      t.orders[o].lines[k].line.book != r.book))
  {
    if r.DeleteBook? {
      forall o, k | o in t.orders && 0 <= k < |t.orders[o].lines| && t.orders[o].lines[k].line.book == r.book
        ensures Ordered(t, r.book)
      {
        assert Mentions(t.orders[o], r.book);
      }
    }
  }

  /** A successful update writes the fields that were sent and keeps the others; no other book,
      no cart row and no order changes. */
  lemma UpdateStores(t: Tables, b: BookId, s: Field, p: Field, accepted: bool)
    requires Succeeds(t, UpdateBook(b, s, p, accepted))
    ensures var t' := Apply(t, UpdateBook(b, s, p, accepted));
            && t' == t.(books := t'.books) && t'.books.Keys == t.books.Keys && b in t.books
            && (s.Set? ==> t'.books[b].stock == s.value) && (!s.Set? ==> t'.books[b].stock == t.books[b].stock)
            && (p.Set? ==> t'.books[b].price == p.value) && (!p.Set? ==> t'.books[b].price == t.books[b].price)
            && (forall c :: c in t.books && c != b ==> t'.books[c] == t.books[c])
  {
  }

  /** A created book has the stock and the price sent; a deleted one is gone with its cart rows;
      neither touches anything else. */
  lemma CreateAndDeleteStore(t: Tables, r: Request)
    requires Inv(t) && Enabled(t, r) && Succeeds(t, r)
    ensures r.CreateBook? ==>
              && Apply(t, r) == t.(books := Apply(t, r).books)
              && Apply(t, r).books.Keys == t.books.Keys + {r.book} && r.book !in t.books
              && Apply(t, r).books[r.book].stock == r.stock && Apply(t, r).books[r.book].price == r.price
              && (forall c :: c in t.books ==> Apply(t, r).books[c] == t.books[c])
    ensures r.DeleteBook? ==>
              && Apply(t, r).orders == t.orders && Apply(t, r).books.Keys == t.books.Keys - {r.book}
              && (forall c :: c in t.books && c != r.book ==> Apply(t, r).books[c] == t.books[c])
              && (forall u, c :: Quantity(Apply(t, r), u, c) == if c == r.book then 0 else Quantity(t, u, c))
  {
    if r.DeleteBook? {
      forall u, c ensures Quantity(Apply(t, r), u, c) == if c == r.book then 0 else Quantity(t, u, c) {
        CartRefinement(t, r, u, c);
      }
    }
  }

  // ----- prices

  // The price a request writes for b.
  ghost function PriceWritten(t: Tables, r: Request, b: BookId): Option<int>
    requires Enabled(t, r)
  {
    if !Succeeds(t, r) then None
    else if r.CreateBook? && r.book == b then Some(r.price)
    else if r.UpdateBook? && r.book == b && r.newPrice.Set? then Some(r.newPrice.value)
    else None
  }

  lemma PriceAfter(t: Tables, r: Request, b: BookId)
    requires Enabled(t, r) && b in Apply(t, r).books
    ensures PriceWritten(t, r, b).Some? ==> Apply(t, r).books[b].price == PriceWritten(t, r, b).value
    ensures PriceWritten(t, r, b).None? ==> b in t.books && Apply(t, r).books[b].price == t.books[b].price
  {
  }

  /** What the last successful create or update with a price of b wrote, or the first price. */
  ghost function LastPrice(t: Tables, rs: seq<Request>, b: BookId): int
    requires Runs(t, rs)
  {
    if rs == [] then (if b in t.books then t.books[b].price else 0)
    else
      match PriceWritten(Exec(t, rs[..|rs| - 1]), rs[|rs| - 1], b)
      case Some(p) => p
      case None => LastPrice(t, rs[..|rs| - 1], b)
  }

  /** In any run a book's price is the one last written by an administrator. */
  lemma {:induction false} PriceIsLastWritten(t: Tables, rs: seq<Request>, b: BookId)
    requires Runs(t, rs) && b in Exec(t, rs).books
    ensures Exec(t, rs).books[b].price == LastPrice(t, rs, b)
  {
    if rs != [] {
      var mid, r := Exec(t, rs[..|rs| - 1]), rs[|rs| - 1];
      PriceAfter(mid, r, b);
      if PriceWritten(mid, r, b).None? { PriceIsLastWritten(t, rs[..|rs| - 1], b); }
    }
  }

  /** A checkout's unit prices are the ones last written. */
  lemma UnitPriceIsLastWritten(t: Tables, rs: seq<Request>, u: UserId, listing: seq<ItemId>, oid: OrderId, k: nat)
    requires Inv(t) && Runs(t, rs) && Enabled(Exec(t, rs), Checkout(u, listing, oid))
    requires Succeeds(Exec(t, rs), Checkout(u, listing, oid)) && k < |listing|
    ensures var o := Apply(Exec(t, rs), Checkout(u, listing, oid)).orders[oid];
            |o.lines| == |listing| && o.lines[k].unitPrice == LastPrice(t, rs, o.lines[k].line.book)
  {
    var mid := Exec(t, rs);
    InvInRuns(t, rs);
    GuardsNeverFire(mid, u, listing);
    PriceIsLastWritten(t, rs, LinesOf(mid.items, listing)[k].book);
  }

  // ----- every request is possible

  lemma {:induction false} InSomeOrder(rows: set<ItemId>) returns (listing: seq<ItemId>)
    ensures Distinct(listing) && forall i :: i in listing <==> i in rows
  {
    if rows == {} {
      listing := [];
    } else {
      var i :| i in rows;
      listing := InSomeOrder(rows - {i});
      listing := listing + [i];
    }
  }

  /** Whatever the tables, every user may check out, and open or add to a cart, and an
      administrator may create a book. */
  lemma EveryoneMayAsk(t: Tables, u: UserId, b: BookId, q: int, s: int, p: int, accepted: bool)
    ensures exists listing, oid :: Enabled(t, Checkout(u, listing, oid))
    ensures exists cid, iid :: Enabled(t, AddItem(u, b, q, cid, iid))
    ensures exists cid :: Enabled(t, ViewCart(u, cid)) && Enabled(t, ClearCart(u, cid))
    ensures exists c :: Enabled(t, CreateBook(c, s, p, accepted))
  {
    var listing := InSomeOrder(CartRows(t, u));
    var oid := FreshKey(t.orders.Keys);
    var cid := FreshKey(t.carts.Keys);
    var iid := FreshKey(t.items.Keys);
    var c := FreshKey(t.books.Keys);
    assert Enabled(t, Checkout(u, listing, oid));
    assert Enabled(t, AddItem(u, b, q, cid, iid));
    assert Enabled(t, ViewCart(u, cid)) && Enabled(t, ClearCart(u, cid));
    assert Enabled(t, CreateBook(c, s, p, accepted));
  }

  /** The requests that name an existing row need no luck at all. */
  lemma ExistingRowsMayBeAsked(t: Tables, r: Request)
    requires r.Cancel? || r.UpdateBook? || r.DeleteBook? || ((r.UpdateItem? || r.RemoveItem?) && r.cid !in t.carts)
    ensures Enabled(t, r)
  {
  }
}
