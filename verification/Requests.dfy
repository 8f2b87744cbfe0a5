/** What each request does to the tables, stated up front: a condition on the tables
    the request finds, and the tables it leaves when the condition holds. The loops
    that do the work are in OrderServices and CartServices; the theorems about runs are in Ledger. */
module Requests {
  import opened Domain

  // ----- reserving and restocking

  predicate Reservable(books: map<BookId, Book>, lines: seq<Line>) {
    && AllPositive(lines)
    && (forall i :: 0 <= i < |lines| ==> lines[i].book in books)
    && (forall i :: 0 <= i < |lines| ==> Demand(lines, lines[i].book) <= books[lines[i].book].stock)
  }

  function Sell(books: map<BookId, Book>, lines: seq<Line>): map<BookId, Book> {
    map b | b in books :: books[b].(stock := books[b].stock - Demand(lines, b))
  }

  function Restock(books: map<BookId, Book>, lines: seq<Line>): map<BookId, Book> {
    map b | b in books :: books[b].(stock := books[b].stock + Demand(lines, b))
  }

  function Priced(books: map<BookId, Book>, lines: seq<Line>): seq<OrderLine>
    requires forall i :: 0 <= i < |lines| ==> lines[i].book in books
  {
    seq(|lines|, i requires 0 <= i < |lines| => OrderLine(lines[i], books[lines[i].book].price))
  }

  // What line k's book has received once line k is returned.
  function Received(lines: seq<Line>, k: nat): int
    requires k < |lines|
  {
    Demand(lines[..k + 1], lines[k].book)
  }

  // Each write of a growing stock must fit its 32-bit column.
  predicate RestockFits(books: map<BookId, Book>, lines: seq<Line>) {
    forall k :: 0 <= k < |lines| && lines[k].book in books ==>
      FitsInt32(books[lines[k].book].stock + Received(lines, k))
  }

  lemma ReceivedPrefix(lines: seq<Line>, n: nat, k: nat)
    requires k < n <= |lines|
    ensures Received(lines[..n], k) == Received(lines, k)
  {
    assert lines[..n][..k + 1] == lines[..k + 1];
  }

  // ----- carts

  predicate Owns(t: Tables, u: UserId, i: ItemId) {
    i in t.items && t.items[i].cart in t.carts && t.carts[t.items[i].cart] == u
  }

  function CartRows(t: Tables, u: UserId): set<ItemId> {
    set i | i in t.items && Owns(t, u, i)
  }

  // The rows of a cart in the unspecified order the query returns them.
  ghost predicate IsListing(t: Tables, u: UserId, listing: seq<ItemId>) {
    && Distinct(listing)
    && (forall i :: i in listing <==> i in CartRows(t, u))
  }

  function LinesOf(items: map<ItemId, CartItem>, listing: seq<ItemId>): seq<Line>
    requires forall i :: i in listing ==> i in items
  {
    seq(|listing|, k requires 0 <= k < |listing| =>
      Line(items[listing[k]].book, items[listing[k]].quantity))
  }

  predicate HasCart(t: Tables, u: UserId) { exists c :: c in t.carts && t.carts[c] == u }

  ghost function CartIdOf(t: Tables, u: UserId): (c: CartId)
    requires HasCart(t, u)
    ensures c in t.carts && t.carts[c] == u
  {
    var c :| c in t.carts && t.carts[c] == u; c
  }

  function WithCart(t: Tables, u: UserId, cid: CartId): (r: Tables)
    ensures HasCart(r, u)
  {
    if HasCart(t, u) then t
    else
      var r := t.(carts := t.carts[cid := u]);
      assert cid in r.carts;
      r
  }

  predicate RowOf(t: Tables, u: UserId, b: BookId, i: ItemId) {
    Owns(t, u, i) && t.items[i].book == b
  }

  predicate InCart(t: Tables, u: UserId, b: BookId) { exists i :: i in t.items && RowOf(t, u, b, i) }

  ghost function RowFor(t: Tables, u: UserId, b: BookId): (i: ItemId)
    requires InCart(t, u, b)
    ensures i in t.items && RowOf(t, u, b, i)
  {
    var i :| i in t.items && RowOf(t, u, b, i); i
  }

  // ----- what the schema enforces: column ranges, unique keys, foreign keys

  predicate RowsFit(t: Tables) {
    && (forall b :: b in t.books ==> FitsInt32(t.books[b].stock) && FitsNumeric(t.books[b].price))
    && (forall o :: o in t.orders ==> FitsNumeric(t.orders[o].total))
  }

  predicate OneCartPerUser(t: Tables) {
    forall c, d :: c in t.carts && d in t.carts && t.carts[c] == t.carts[d] ==> c == d
  }

  predicate OneRowPerBook(t: Tables) {
    forall i, j :: (i in t.items && j in t.items && t.items[i].cart == t.items[j].cart
                    && t.items[i].book == t.items[j].book) ==> i == j
  }

  predicate ItemsRefer(t: Tables) {
    forall i :: i in t.items ==> t.items[i].cart in t.carts && t.items[i].book in t.books
  }

  predicate OrdersRefer(t: Tables) {
    forall o, k :: o in t.orders && 0 <= k < |t.orders[o].lines| ==> t.orders[o].lines[k].line.book in t.books
  }

  predicate Schema(t: Tables) {
    RowsFit(t) && OneCartPerUser(t) && OneRowPerBook(t) && ItemsRefer(t) && OrdersRefer(t)
  }

  // ----- requests

  // A field of a PATCH body: left out, an explicit null, or a value.
  datatype Field = Unset | Null | Set(value: int)

  /** A request together with what the environment chooses for it: fresh keys, the order
      of the cart rows, and whether the author, category and ISBN checks pass. */
  datatype Request =
    | Checkout(user: UserId, listing: seq<ItemId>, oid: OrderId)
    | Cancel(user: UserId, oid: OrderId)
    | ViewCart(user: UserId, cid: CartId)
    | AddItem(user: UserId, book: BookId, quantity: int, cid: CartId, iid: ItemId)
    | UpdateItem(user: UserId, iid: ItemId, amount: Option<int>, cid: CartId)
    | RemoveItem(user: UserId, iid: ItemId, cid: CartId)
    | ClearCart(user: UserId, cid: CartId)
    | CreateBook(book: BookId, stock: int, price: int, accepted: bool)
    | UpdateBook(book: BookId, newStock: Field, newPrice: Field, accepted: bool)
    | DeleteBook(book: BookId)

  // Keys are fresh and the listing is one of the cart's.
  ghost predicate Enabled(t: Tables, r: Request) {
    match r
    case Checkout(u, listing, oid) => IsListing(t, u, listing) && oid !in t.orders
    case Cancel(_, _) => true
    case ViewCart(_, cid) => cid !in t.carts
    case AddItem(_, _, _, cid, iid) => cid !in t.carts && iid !in t.items
    case UpdateItem(_, _, _, cid) => cid !in t.carts
    case RemoveItem(_, _, cid) => cid !in t.carts
    case ClearCart(_, cid) => cid !in t.carts
    case CreateBook(b, _, _, _) => b !in t.books
    case UpdateBook(_, _, _, _) => true
    case DeleteBook(_) => true
  }

  ghost predicate CheckoutOk(t: Tables, u: UserId, listing: seq<ItemId>)
    requires IsListing(t, u, listing)
  {
    var lines := LinesOf(t.items, listing);
    && lines != []
    && Reservable(t.books, lines)
    && FitsNumeric(RunningTotal(Priced(t.books, lines)))
  }

  ghost function CheckoutNext(t: Tables, u: UserId, listing: seq<ItemId>, oid: OrderId): Tables
    requires IsListing(t, u, listing) && CheckoutOk(t, u, listing)
  {
    var lines := LinesOf(t.items, listing);
    var priced := Priced(t.books, lines);
    t.(books := Sell(t.books, lines),
       items := t.items - CartRows(t, u),
       orders := t.orders[oid := Order(u, Placed, priced, RunningTotal(priced))])
  }

  predicate Cancellable(s: Status) { s == Pending || s == Placed }

  predicate CancelOk(t: Tables, u: UserId, oid: OrderId) {
    && oid in t.orders
    && t.orders[oid].user == u
    && Cancellable(t.orders[oid].status)
    && RestockFits(t.books, Plain(t.orders[oid].lines))
  }

  function CancelNext(t: Tables, oid: OrderId): Tables
    requires oid in t.orders
  {
    t.(books := Restock(t.books, Plain(t.orders[oid].lines)),
       orders := t.orders[oid := t.orders[oid].(status := Cancelled)])
  }

  ghost predicate AddItemOk(t: Tables, u: UserId, b: BookId, q: int) {
    && q >= 1
    && b in t.books
    && FitsInt32(if InCart(t, u, b) then t.items[RowFor(t, u, b)].quantity + q else q)
  }

  ghost function AddItemNext(t: Tables, u: UserId, b: BookId, q: int, cid: CartId, iid: ItemId): Tables
  {
    var t1 := WithCart(t, u, cid);
    if InCart(t, u, b) then
      var i := RowFor(t, u, b);
      t1.(items := t1.items[i := t1.items[i].(quantity := t1.items[i].quantity + q)])
    else
      t1.(items := t1.items[iid := CartItem(CartIdOf(t1, u), b, q)])
  }

  predicate UpdateItemOk(t: Tables, u: UserId, i: ItemId, amount: Option<int>) {
    Owns(t, u, i) && (amount.Some? ==> 1 <= amount.value <= INT32_MAX)
  }

  function UpdateItemNext(t: Tables, i: ItemId, amount: Option<int>): Tables
    requires i in t.items
  {
    if amount.None? then t
    else t.(items := t.items[i := t.items[i].(quantity := amount.value)])
  }

  predicate FieldFits(f: Field, ok: int -> bool) { !f.Null? && (f.Set? ==> ok(f.value)) }

  function Patched(f: Field, old_: int): int { if f.Set? then f.value else old_ }

  predicate UpdateBookOk(t: Tables, b: BookId, s: Field, p: Field, accepted: bool) {
    b in t.books && accepted && FieldFits(s, FitsInt32) && FieldFits(p, FitsNumeric)
  }

  function UpdateBookNext(t: Tables, b: BookId, s: Field, p: Field): Tables
    requires b in t.books
  {
    t.(books := t.books[b := Book(Patched(s, t.books[b].stock), Patched(p, t.books[b].price))])
  }

  predicate Mentions(o: Order, b: BookId) { exists k :: 0 <= k < |o.lines| && o.lines[k].line.book == b }

  // order_items.book_id is a non-null foreign key with no cascade.
  predicate Ordered(t: Tables, b: BookId) { exists o :: o in t.orders && Mentions(t.orders[o], b) }

  function DeleteBookNext(t: Tables, b: BookId): Tables {
    t.(books := t.books - {b},
       items := map i | i in t.items && t.items[i].book != b :: t.items[i])
  }

  /** The request gets past every guard and every column and key constraint. */
  ghost predicate Succeeds(t: Tables, r: Request)
    requires Enabled(t, r)
  {
    match r
    case Checkout(u, listing, _) => CheckoutOk(t, u, listing)
    case Cancel(u, oid) => CancelOk(t, u, oid)
    case ViewCart(_, _) => true
    case AddItem(u, b, q, _, _) => AddItemOk(t, u, b, q)
    case UpdateItem(u, i, amount, _) => UpdateItemOk(t, u, i, amount)
    case RemoveItem(u, i, _) => Owns(t, u, i)
    case ClearCart(_, _) => true
    case CreateBook(_, s, p, accepted) => accepted && FitsInt32(s) && FitsNumeric(p)
    case UpdateBook(b, s, p, accepted) => UpdateBookOk(t, b, s, p, accepted)
    case DeleteBook(b) => b in t.books && !Ordered(t, b)
  }

  /** The tables after the request's transaction: all of its effect, or none of it. */
  ghost function Apply(t: Tables, r: Request): Tables
    requires Enabled(t, r)
  {
    if !Succeeds(t, r) then t
    else
      match r
      case Checkout(u, listing, oid) => CheckoutNext(t, u, listing, oid)
      case Cancel(_, oid) => CancelNext(t, oid)
      case ViewCart(u, cid) => WithCart(t, u, cid)
      case AddItem(u, b, q, cid, iid) => AddItemNext(t, u, b, q, cid, iid)
      case UpdateItem(_, i, amount, _) => UpdateItemNext(t, i, amount)
      case RemoveItem(_, i, _) => t.(items := t.items - {i})
      case ClearCart(u, cid) => WithCart(t, u, cid).(items := t.items - CartRows(t, u))
      case CreateBook(b, s, p, _) => t.(books := t.books[b := Book(s, p)])
      case UpdateBook(b, s, p, _) => UpdateBookNext(t, b, s, p)
      case DeleteBook(b) => DeleteBookNext(t, b)
  }

  /** The HTTP status of a request that a guard refuses; None when every guard lets it pass. Rows
      that do not fit their columns and keys that are referred to raise later, at a flush. */
  ghost function Refusal(t: Tables, r: Request): Option<nat>
    requires Enabled(t, r)
  {
    match r
    case Checkout(_, listing, _) =>
      if listing == [] || !Reservable(t.books, LinesOf(t.items, listing)) then Some(400) else None
    case Cancel(u, oid) =>
      if oid !in t.orders || t.orders[oid].user != u then Some(404)
      else if !Cancellable(t.orders[oid].status) then Some(400) else None
    case AddItem(_, b, q, _, _) => if q < 1 then Some(400) else if b !in t.books then Some(404) else None
    case UpdateItem(u, i, amount, _) =>
      if !Owns(t, u, i) then Some(404) else if amount.Some? && amount.value < 1 then Some(400) else None
    case RemoveItem(u, i, _) => if !Owns(t, u, i) then Some(404) else None
    case CreateBook(_, _, _, accepted) => if !accepted then Some(400) else None
    case UpdateBook(b, _, _, accepted) =>
      if b !in t.books then Some(404) else if !accepted then Some(400) else None
    case DeleteBook(b) => if b !in t.books then Some(404) else None
    case _ => None
  }
}
