/** The cart tables represent, for each user and book, one quantity: zero when the book is
    not in the user's cart, positive otherwise. Requests act on that map alone. */
module Carts {
  import opened Domain
  import opened Requests
  import opened Ledger

  ghost function Quantity(t: Tables, u: UserId, b: BookId): int {
    if InCart(t, u, b) then t.items[RowFor(t, u, b)].quantity else 0
  }

  /** Any row of the user for the book holds the quantity, since there is at most one. */
  lemma QuantityIs(t: Tables, u: UserId, b: BookId, i: ItemId)
    requires Schema(t) && RowOf(t, u, b, i)
    ensures InCart(t, u, b) && RowFor(t, u, b) == i && Quantity(t, u, b) == t.items[i].quantity
  {
    assert InCart(t, u, b);
    var j := RowFor(t, u, b);
    assert t.items[i].cart == t.items[j].cart;
  }

  /** What a request does to the quantity of book b in user v's cart. */
  ghost function QuantityAfter(t: Tables, r: Request, v: UserId, b: BookId): int
    requires Enabled(t, r)
  {
    var q := Quantity(t, v, b);
    if !Succeeds(t, r) then q
    else
      match r
      case AddItem(u, b', n, _, _) => if u == v && b' == b then q + n else q
      case UpdateItem(u, i, amount, _) =>
        if u == v && amount.Some? && t.items[i].book == b then amount.value else q
      case RemoveItem(u, i, _) => if u == v && t.items[i].book == b then 0 else q
      case ClearCart(u, _) => if u == v then 0 else q
      case Checkout(u, _, _) => if u == v then 0 else q
      case DeleteBook(b') => if b' == b then 0 else q
      case _ => q
  }

  // Tables with the same cart rows show the same quantities.
  lemma SameTables(t: Tables, t': Tables, v: UserId, b: BookId)
    requires Schema(t) && Schema(t') && t'.items == t.items
    requires t'.carts == t.carts || (t.carts.Keys <= t'.carts.Keys && forall c :: c in t.carts ==> t'.carts[c] == t.carts[c])
    ensures Quantity(t', v, b) == Quantity(t, v, b)
  {
    SameRow(t, t', v, b);
  }

  // The quantity after a request, from the rows that are left.
  lemma SameRow(t: Tables, t': Tables, v: UserId, b: BookId)
    requires Schema(t) && Schema(t')
    requires forall i :: RowOf(t', v, b, i) <==> RowOf(t, v, b, i)
    requires forall i :: RowOf(t, v, b, i) ==> i in t'.items && t'.items[i].quantity == t.items[i].quantity
    ensures Quantity(t', v, b) == Quantity(t, v, b)
  {
    if InCart(t, v, b) {
      QuantityIs(t', v, b, RowFor(t, v, b));
    } else {
      assert forall i :: RowOf(t, v, b, i) ==> i in t.items;
      NoRow(t', v, b);
    }
  }

  lemma NoRow(t: Tables, v: UserId, b: BookId)
    requires forall i :: !RowOf(t, v, b, i)
    ensures Quantity(t, v, b) == 0
  {
  }

  lemma AddRefines(t: Tables, r: Request, v: UserId, b: BookId)
    requires Inv(t) && Enabled(t, r) && Schema(Apply(t, r)) && r.AddItem? && Succeeds(t, r)
    ensures Quantity(Apply(t, r), v, b) == QuantityAfter(t, r, v, b)
  {
    if r.user == v && r.book == b { AddedQuantity(t, r); } else { OtherQuantity(t, r, v, b); }
  }

  lemma AddedQuantity(t: Tables, r: Request)
    requires Inv(t) && Enabled(t, r) && Schema(Apply(t, r)) && r.AddItem? && Succeeds(t, r)
    ensures Quantity(Apply(t, r), r.user, r.book) == Quantity(t, r.user, r.book) + r.quantity
  {
    QuantityIs(Apply(t, r), r.user, r.book, if InCart(t, r.user, r.book) then RowFor(t, r.user, r.book) else r.iid);
  }

  lemma OtherRows(t: Tables, r: Request, v: UserId, b: BookId, i: ItemId)
    requires Inv(t) && Enabled(t, r) && r.AddItem? && Succeeds(t, r)
    requires r.user != v || r.book != b
    ensures RowOf(Apply(t, r), v, b, i) <==> RowOf(t, v, b, i)
    ensures RowOf(t, v, b, i) ==> i in Apply(t, r).items && Apply(t, r).items[i].quantity == t.items[i].quantity
  {
  }

  lemma OtherQuantity(t: Tables, r: Request, v: UserId, b: BookId)
    requires Inv(t) && Enabled(t, r) && Schema(Apply(t, r)) && r.AddItem? && Succeeds(t, r)
    requires r.user != v || r.book != b
    ensures Quantity(Apply(t, r), v, b) == Quantity(t, v, b)
  {
    forall i ensures RowOf(Apply(t, r), v, b, i) <==> RowOf(t, v, b, i)
             ensures RowOf(t, v, b, i) ==> i in Apply(t, r).items && Apply(t, r).items[i].quantity == t.items[i].quantity
    {
      OtherRows(t, r, v, b, i);
    }
    SameRow(t, Apply(t, r), v, b);
  }

  lemma RewriteRefines(t: Tables, r: Request, v: UserId, b: BookId)
    requires Inv(t) && Enabled(t, r) && Schema(Apply(t, r)) && Succeeds(t, r)
    requires r.UpdateItem? || r.RemoveItem?
    ensures Quantity(Apply(t, r), v, b) == QuantityAfter(t, r, v, b)
  {
    var t', i := Apply(t, r), r.iid;
    if r.user == v && t.items[i].book == b {
      QuantityIs(t, v, b, i);
      if r.UpdateItem? {
        QuantityIs(t', v, b, i);
      } else {
        forall j ensures !RowOf(t', v, b, j) { if RowOf(t, v, b, j) { QuantityIs(t, v, b, j); } }
        NoRow(t', v, b);
      }
    } else {
      SameRow(t, t', v, b);
    }
  }

  // Requests that take a user's or a book's rows out of the carts.
  lemma EmptyingRefines(t: Tables, r: Request, v: UserId, b: BookId)
    requires Inv(t) && Enabled(t, r) && Schema(Apply(t, r)) && Succeeds(t, r)
    requires r.ClearCart? || r.Checkout? || r.DeleteBook?
    ensures Quantity(Apply(t, r), v, b) == QuantityAfter(t, r, v, b)
  {
    var t' := Apply(t, r);
    if (if r.DeleteBook? then r.book == b else r.user == v) { NoRow(t', v, b); } else { SameRow(t, t', v, b); }
  }

  lemma RestRefines(t: Tables, r: Request, v: UserId, b: BookId)
    requires Inv(t) && Enabled(t, r) && Schema(Apply(t, r)) && Succeeds(t, r)
    requires r.Cancel? || r.ViewCart? || r.CreateBook? || r.UpdateBook?
    ensures Quantity(Apply(t, r), v, b) == QuantityAfter(t, r, v, b)
  {
    SameTables(t, Apply(t, r), v, b);
  }

  /** Adding is addition, updating overwrites, removing sets to zero, clearing and a
      successful checkout empty the user's cart, deleting a book takes it out of every cart;
      no other quantity changes, and every quantity in a cart is at least one. */
  lemma CartRefinement(t: Tables, r: Request, v: UserId, b: BookId)
    requires Inv(t) && Enabled(t, r)
    ensures Quantity(Apply(t, r), v, b) == QuantityAfter(t, r, v, b)
    ensures Quantity(t, v, b) >= 0 && (Quantity(t, v, b) == 0 <==> !InCart(t, v, b))
  {
    InvKept(t, r);
    if Succeeds(t, r) {
      if r.AddItem? { AddRefines(t, r, v, b); }
      else if r.UpdateItem? || r.RemoveItem? { RewriteRefines(t, r, v, b); }
      else if r.ClearCart? || r.Checkout? || r.DeleteBook? { EmptyingRefines(t, r, v, b); }
      else { RestRefines(t, r, v, b); }
    }
  }

  /** Checkout's loop accepts the cart exactly when the stock of every book covers the
      quantity in the cart, and calls it empty exactly when every quantity is zero. */
  lemma CheckoutDecision(t: Tables, u: UserId, listing: seq<ItemId>)
    requires Inv(t) && IsListing(t, u, listing)
    ensures Reservable(t.books, LinesOf(t.items, listing)) <==>
            forall b :: InCart(t, u, b) ==> b in t.books && Quantity(t, u, b) <= t.books[b].stock
    ensures listing == [] <==> forall b :: Quantity(t, u, b) == 0
  {
    CheckoutRowByRow(t, u, listing);
    forall i | i in listing ensures RowOf(t, u, t.items[i].book, i) && t.items[i].book in t.books
                              && Quantity(t, u, t.items[i].book) == t.items[i].quantity >= 1 {
      assert i in CartRows(t, u);
      QuantityIs(t, u, t.items[i].book, i);
    }
    forall b | InCart(t, u, b) ensures RowFor(t, u, b) in listing {
      assert RowFor(t, u, b) in CartRows(t, u);
    }
    if listing != [] { assert listing[0] in listing; }
  }

  // ----- a list of lines read from a cart

  /** What a checkout reads: some lines, of different books, with positive 32-bit quantities. */
  predicate CartLines(lines: seq<Line>) {
    && lines != []
    && (forall i :: 0 <= i < |lines| ==> 1 <= lines[i].quantity <= INT32_MAX)
    && (forall i, j :: 0 <= i < |lines| && 0 <= j < |lines| && i != j ==> lines[i].book != lines[j].book)
  }

  /** The user's cart holds, book by book, the quantities of the lines. */
  ghost predicate Holds(t: Tables, u: UserId, lines: seq<Line>) {
    forall b :: Quantity(t, u, b) == Demand(lines, b)
  }

  lemma ListingIsCartLines(t: Tables, u: UserId, listing: seq<ItemId>)
    requires Inv(t) && IsListing(t, u, listing) && listing != []
    ensures CartLines(LinesOf(t.items, listing))
  {
    var lines := LinesOf(t.items, listing);
    forall i | 0 <= i < |lines| ensures 1 <= lines[i].quantity <= INT32_MAX { assert listing[i] in CartRows(t, u); }
    forall i, j | 0 <= i < |lines| && 0 <= j < |lines| && i != j ensures lines[i].book != lines[j].book {
      ListedOnce(t, u, listing, i, j);
    }
  }

  lemma ListingHolds(t: Tables, u: UserId, listing: seq<ItemId>)
    requires Inv(t) && IsListing(t, u, listing)
    ensures Holds(t, u, LinesOf(t.items, listing))
  {
    var lines := LinesOf(t.items, listing);
    forall b ensures Quantity(t, u, b) == Demand(lines, b) {
      if InCart(t, u, b) {
        var i := RowFor(t, u, b);
        assert i in CartRows(t, u);
        var k :| 0 <= k < |listing| && listing[k] == i;
        ListedDemand(t, u, listing, k);
      } else {
        forall k | 0 <= k < |lines| ensures lines[k].book != b {
          assert listing[k] in CartRows(t, u);
          assert !RowOf(t, u, b, listing[k]);
        }
        DemandOutside(lines, b);
      }
    }
  }

  lemma LineQuantity(lines: seq<Line>, k: nat)
    requires CartLines(lines) && k < |lines|
    ensures Demand(lines, lines[k].book) == lines[k].quantity
  {
    OneOccurrence(lines, k);
  }

  /** A cart that holds the lines can be listed as exactly these lines. */
  lemma ListingOf(t: Tables, u: UserId, lines: seq<Line>) returns (listing: seq<ItemId>)
    requires Inv(t) && CartLines(lines) && Holds(t, u, lines)
    ensures IsListing(t, u, listing) && LinesOf(t.items, listing) == lines
  {
    forall k | 0 <= k < |lines| ensures InCart(t, u, lines[k].book) { LineInCart(t, u, lines, k); }
    listing := seq(|lines|, k requires 0 <= k < |lines| => RowFor(t, u, lines[k].book));
    forall k | 0 <= k < |lines|
      ensures RowOf(t, u, lines[k].book, listing[k]) && t.items[listing[k]].quantity == lines[k].quantity
    {
      LineQuantity(lines, k);
      QuantityIs(t, u, lines[k].book, listing[k]);
    }
    forall i | i in CartRows(t, u) ensures i in listing { RowListed(t, u, lines, i, listing); }
  }

  lemma LineInCart(t: Tables, u: UserId, lines: seq<Line>, k: nat)
    requires CartLines(lines) && Holds(t, u, lines) && k < |lines|
    ensures InCart(t, u, lines[k].book)
  {
    LineQuantity(lines, k);
    assert Quantity(t, u, lines[k].book) == Demand(lines, lines[k].book);
  }

  lemma RowListed(t: Tables, u: UserId, lines: seq<Line>, i: ItemId, listing: seq<ItemId>)
    requires Inv(t) && Holds(t, u, lines) && i in CartRows(t, u) && |listing| == |lines|
    requires forall k :: 0 <= k < |lines| ==> RowOf(t, u, lines[k].book, listing[k])
    ensures i in listing
  {
    var b := t.items[i].book;
    QuantityIs(t, u, b, i);
    assert Demand(lines, b) >= 1;
    if forall k :: 0 <= k < |lines| ==> lines[k].book != b { DemandOutside(lines, b); }
    var k :| 0 <= k < |lines| && lines[k].book == b;
    QuantityIs(t, u, b, listing[k]);
    assert listing[k] == i;
  }
}
