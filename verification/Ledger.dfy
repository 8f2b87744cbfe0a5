/** Invariants and conservation over whole runs of requests. */
module Ledger {
  import opened Domain
  import opened Requests
  import opened Reservation

  // ----- the invariant

  predicate CartsPositive(t: Tables) {
    forall i :: i in t.items ==> 1 <= t.items[i].quantity <= INT32_MAX
  }

  predicate OrderSane(o: Order) { SaneLines(o.lines) && o.total == RunningTotal(o.lines) }

  predicate OrdersSane(t: Tables) { forall o :: o in t.orders ==> OrderSane(t.orders[o]) }

  predicate Inv(t: Tables) { Schema(t) && CartsPositive(t) && OrdersSane(t) }

  /** Checkout's guards on the quantity and on the book never fire. */
  lemma GuardsNeverFire(t: Tables, u: UserId, listing: seq<ItemId>)
    requires Inv(t) && IsListing(t, u, listing)
    ensures var lines := LinesOf(t.items, listing);
            AllPositive(lines) && forall i :: 0 <= i < |lines| ==> lines[i].book in t.books
  {
    forall i | 0 <= i < |listing| ensures listing[i] in t.items { assert listing[i] in CartRows(t, u); }
  }

  /** A cart holds one row per book, so a line's demand is that row's quantity and checkout
      is decided row by row. */
  lemma CheckoutRowByRow(t: Tables, u: UserId, listing: seq<ItemId>)
    requires Inv(t) && IsListing(t, u, listing)
    ensures Reservable(t.books, LinesOf(t.items, listing)) <==>
            forall i :: i in listing ==> t.items[i].quantity <= t.books[t.items[i].book].stock
  {
    GuardsNeverFire(t, u, listing);
    var lines := LinesOf(t.items, listing);
    forall i | 0 <= i < |listing| ensures Demand(lines, lines[i].book) == t.items[listing[i]].quantity {
      ListedDemand(t, u, listing, i);
      assert lines[..|lines|] == lines;
    }
    if forall i :: i in listing ==> t.items[i].quantity <= t.books[t.items[i].book].stock {
      assert forall i :: 0 <= i < |lines| ==> listing[i] in listing;
    }
  }

  lemma ListedOnce(t: Tables, u: UserId, listing: seq<ItemId>, i: nat, j: nat)
    requires OneCartPerUser(t) && OneRowPerBook(t) && IsListing(t, u, listing) && i < |listing| && j < |listing| && i != j
    ensures listing[i] in t.items && listing[j] in t.items && t.items[listing[i]].book != t.items[listing[j]].book
  {
    assert listing[i] in CartRows(t, u) && listing[j] in CartRows(t, u);
    assert listing[i] != listing[j];
  }

  lemma ListedDemand(t: Tables, u: UserId, listing: seq<ItemId>, i: nat)
    requires OneCartPerUser(t) && OneRowPerBook(t) && IsListing(t, u, listing) && i < |listing|
    ensures Demand(LinesOf(t.items, listing), t.items[listing[i]].book) == t.items[listing[i]].quantity
  {
    var lines, b := LinesOf(t.items, listing), t.items[listing[i]].book;
    forall j | 0 <= j < |lines| && j != i ensures lines[j].book != b { ListedOnce(t, u, listing, i, j); }
    OneOccurrence(lines, i);
  }

  lemma OneOccurrence(lines: seq<Line>, i: nat)
    requires i < |lines| && forall j :: 0 <= j < |lines| && j != i ==> lines[j].book != lines[i].book
    ensures Demand(lines, lines[i].book) == lines[i].quantity
  {
    var b := lines[i].book;
    assert lines == lines[..i] + ([lines[i]] + lines[i + 1..]);
    DemandConcat(lines[..i], [lines[i]] + lines[i + 1..], b);
    DemandConcat([lines[i]], lines[i + 1..], b);
    DemandOutside(lines[..i], b);
    DemandOutside(lines[i + 1..], b);
    assert [lines[i]][..0] == [];
  }

  lemma PricedIsSane(t: Tables, u: UserId, listing: seq<ItemId>)
    requires Inv(t) && IsListing(t, u, listing)
    ensures forall i :: 0 <= i < |listing| ==> LinesOf(t.items, listing)[i].book in t.books
    ensures SaneLines(Priced(t.books, LinesOf(t.items, listing)))
  {
    GuardsNeverFire(t, u, listing);
    forall i | 0 <= i < |listing| ensures listing[i] in t.items { assert listing[i] in CartRows(t, u); }
  }

  lemma OrderedQuantities(o: Order)
    requires OrderSane(o)
    ensures AllPositive(Plain(o.lines))
  {
    assert forall i :: 0 <= i < |o.lines| ==> SaneLine(o.lines[i]);
  }

  lemma RowsKept(t: Tables, r: Request)
    requires Inv(t) && Enabled(t, r)
    ensures RowsFit(Apply(t, r))
  {
    if Succeeds(t, r) {
      match r
      case Checkout(u, listing, oid) => SoldStocksFit(t.books, LinesOf(t.items, listing));
      case Cancel(_, oid) =>
        OrderedQuantities(t.orders[oid]);
        RestockFitsIff(t.books, Plain(t.orders[oid].lines));
      case _ =>
    }
  }

  predicate CartsKeyed(t: Tables) {
    OneCartPerUser(t) && OneRowPerBook(t) && ItemsRefer(t) && CartsPositive(t)
  }

  // Taking rows away, or rewriting a quantity, breaks no key.
  lemma FewerRows(t: Tables, t': Tables)
    requires CartsKeyed(t) && OneCartPerUser(t') && t.carts.Keys <= t'.carts.Keys
    requires forall i :: i in t'.items ==>
               && i in t.items && t'.items[i].cart == t.items[i].cart && t'.items[i].book == t.items[i].book
               && 1 <= t'.items[i].quantity <= INT32_MAX && t'.items[i].book in t'.books
    ensures CartsKeyed(t')
  {
  }

  // Only adding an item makes a row; only updating one rewrites its quantity.
  lemma RowAfter(t: Tables, r: Request, i: ItemId)
    requires Enabled(t, r) && Succeeds(t, r) && !r.AddItem? && i in Apply(t, r).items
    ensures i in t.items
    ensures r.UpdateItem? && r.amount.Some? && r.iid == i ==>
              Apply(t, r).items[i] == t.items[i].(quantity := r.amount.value)
    ensures !(r.UpdateItem? && r.amount.Some? && r.iid == i) ==> Apply(t, r).items[i] == t.items[i]
  {
  }

  lemma CartsAndBooksAfter(t: Tables, r: Request)
    requires Inv(t) && Enabled(t, r) && Succeeds(t, r) && !r.AddItem?
    ensures OneCartPerUser(Apply(t, r)) && t.carts.Keys <= Apply(t, r).carts.Keys
    ensures forall i :: i in Apply(t, r).items && i in t.items ==> t.items[i].book in Apply(t, r).books
  {
  }

  lemma KeysKept(t: Tables, r: Request)
    requires Inv(t) && Enabled(t, r)
    ensures CartsKeyed(Apply(t, r))
  {
    if Succeeds(t, r) {
      if r.AddItem? {
        AddedRow(t, r.user, r.book, r.quantity, r.cid, r.iid);
      } else {
        CartsAndBooksAfter(t, r);
        forall i | i in Apply(t, r).items
          ensures i in t.items && Apply(t, r).items[i] == t.items[i].(quantity := Apply(t, r).items[i].quantity)
          ensures 1 <= Apply(t, r).items[i].quantity <= INT32_MAX
        {
          RowAfter(t, r, i);
        }
        FewerRows(t, Apply(t, r));
      }
    }
  }

  lemma AddedRow(t: Tables, u: UserId, b: BookId, q: int, cid: CartId, iid: ItemId)
    requires Inv(t) && Enabled(t, AddItem(u, b, q, cid, iid)) && AddItemOk(t, u, b, q)
    ensures CartsKeyed(AddItemNext(t, u, b, q, cid, iid))
  {
    if !InCart(t, u, b) {
      var t1 := WithCart(t, u, cid);
      var c := CartIdOf(t1, u);
      forall i | i in t.items && t.items[i].cart == c ensures t.items[i].book != b {
        assert Owns(t, u, i);
        assert !RowOf(t, u, b, i);
      }
    }
  }

  lemma PlacedOrderKept(t: Tables, u: UserId, listing: seq<ItemId>, oid: OrderId)
    requires Inv(t) && IsListing(t, u, listing) && CheckoutOk(t, u, listing)
    ensures var t' := CheckoutNext(t, u, listing, oid); OrdersRefer(t') && OrdersSane(t')
  {
    PricedIsSane(t, u, listing);
  }

  lemma CancelledOrderKept(t: Tables, oid: OrderId)
    requires OrdersRefer(t) && OrdersSane(t) && oid in t.orders
    ensures OrdersRefer(CancelNext(t, oid)) && OrdersSane(CancelNext(t, oid))
  {
  }

  lemma UnorderedBookGone(t: Tables, b: BookId)
    requires OrdersRefer(t) && OrdersSane(t) && !Ordered(t, b)
    ensures OrdersRefer(DeleteBookNext(t, b)) && OrdersSane(DeleteBookNext(t, b))
  {
    forall o, k | o in t.orders && 0 <= k < |t.orders[o].lines|
      ensures t.orders[o].lines[k].line.book != b
    {
      assert !Mentions(t.orders[o], b);
    }
  }

  lemma OrdersKept(t: Tables, r: Request)
    requires Inv(t) && Enabled(t, r)
    ensures OrdersRefer(Apply(t, r)) && OrdersSane(Apply(t, r))
  {
    if Succeeds(t, r) {
      if r.Checkout? { PlacedOrderKept(t, r.user, r.listing, r.oid); }
      else if r.Cancel? { CancelledOrderKept(t, r.oid); }
      else if r.DeleteBook? { UnorderedBookGone(t, r.book); }
      else { assert Apply(t, r).orders == t.orders; }
    }
  }

  /** Every request keeps the invariant: in particular no flush ever breaks a key. */
  lemma InvKept(t: Tables, r: Request)
    requires Inv(t) && Enabled(t, r)
    ensures Inv(Apply(t, r))
  {
    RowsKept(t, r);
    KeysKept(t, r);
    OrdersKept(t, r);
  }

  // ----- runs

  ghost predicate Runs(t: Tables, rs: seq<Request>)
    decreases |rs|, 0
  {
    rs == [] || (Runs(t, rs[..|rs| - 1]) && Enabled(Exec(t, rs[..|rs| - 1]), rs[|rs| - 1]))
  }

  ghost function Exec(t: Tables, rs: seq<Request>): Tables
    requires Runs(t, rs)
    decreases |rs|, 1
  {
    if rs == [] then t else Apply(Exec(t, rs[..|rs| - 1]), rs[|rs| - 1])
  }

  lemma {:induction false} InvInRuns(t: Tables, rs: seq<Request>)
    requires Inv(t) && Runs(t, rs)
    ensures Inv(Exec(t, rs))
  {
    if rs != [] {
      InvInRuns(t, rs[..|rs| - 1]);
      InvKept(Exec(t, rs[..|rs| - 1]), rs[|rs| - 1]);
    }
  }

  // ----- conservation of copies

  function Held(o: Order, b: BookId): int {
    if o.status == Cancelled then 0 else Demand(Plain(o.lines), b)
  }

  // Copies of b in all orders that are not cancelled.
  ghost function Live(orders: map<OrderId, Order>, b: BookId): int
    decreases |orders|
  {
    if orders == map[] then 0
    else
      var o :| o in orders;
      Shrinks(orders, o);
      Held(orders[o], b) + Live(orders - {o}, b)
  }

  lemma Shrinks(orders: map<OrderId, Order>, o: OrderId)
    requires o in orders
    ensures |orders - {o}| < |orders|
  {
    assert orders.Keys == (orders - {o}).Keys + {o};
  }

  lemma {:induction false} LivePick(orders: map<OrderId, Order>, o: OrderId, b: BookId)
    requires o in orders
    ensures Live(orders, b) == Held(orders[o], b) + Live(orders - {o}, b)
    decreases |orders|
  {
    var p :| p in orders && Live(orders, b) == Held(orders[p], b) + Live(orders - {p}, b);
    if p != o {
      Shrinks(orders, p);
      Shrinks(orders, o);
      LivePick(orders - {p}, o, b);
      LivePick(orders - {o}, p, b);
      assert orders - {p} - {o} == orders - {o} - {p};
    }
  }

  lemma LiveSet(orders: map<OrderId, Order>, o: OrderId, x: Order, b: BookId)
    ensures Live(orders[o := x], b) ==
            Live(orders, b) - (if o in orders then Held(orders[o], b) else 0) + Held(x, b)
  {
    LivePick(orders[o := x], o, b);
    assert orders[o := x] - {o} == orders - {o};
    if o in orders { LivePick(orders, o, b); } else { assert orders - {o} == orders; }
  }

  lemma {:induction false} LiveNone(orders: map<OrderId, Order>, b: BookId)
    requires forall o :: o in orders ==> !Mentions(orders[o], b)
    ensures Live(orders, b) == 0
    decreases |orders|
  {
    if orders != map[] {
      var p :| p in orders;
      LivePick(orders, p, b);
      Shrinks(orders, p);
      var ls := Plain(orders[p].lines);
      forall i | 0 <= i < |ls| ensures ls[i].book != b { assert orders[p].lines[i].line.book == ls[i].book; }
      DemandOutside(ls, b);
      LiveNone(orders - {p}, b);
    }
  }

  ghost function Supply(t: Tables, b: BookId): int
    requires b in t.books
  {
    t.books[b].stock + Live(t.orders, b)
  }

  // What an administrator's request adds to the copies of b that exist.
  ghost function AdminDelta(t: Tables, r: Request, b: BookId): int
    requires Enabled(t, r) && b in t.books
  {
    match r
    case UpdateBook(b', s, _, _) =>
      if b' == b && Succeeds(t, r) && s.Set? then s.value - t.books[b].stock else 0
    case _ => 0
  }

  /** One request moves copies between the shelf and live orders but creates none: only an
      administrator's write of a stock changes the sum. */
  lemma SupplyConserved(t: Tables, r: Request, b: BookId)
    requires Inv(t) && Enabled(t, r) && b in t.books && b in Apply(t, r).books
    ensures Supply(Apply(t, r), b) == Supply(t, b) + AdminDelta(t, r, b)
  {
    if Succeeds(t, r) {
      match r
      case Checkout(u, listing, oid) =>
        var lines := LinesOf(t.items, listing);
        assert Plain(Priced(t.books, lines)) == lines;
        LiveSet(t.orders, oid, Apply(t, r).orders[oid], b);
      case Cancel(_, oid) =>
        LiveSet(t.orders, oid, t.orders[oid].(status := Cancelled), b);
      case _ =>
    }
  }

  // ----- a ledger kept only by administrators

  ghost function Enter(ledger: map<BookId, int>, t: Tables, r: Request): map<BookId, int>
    requires Enabled(t, r)
  {
    if !Succeeds(t, r) then ledger
    else
      match r
      case CreateBook(b, s, _, _) => ledger[b := s]
      case UpdateBook(b, s, _, _) =>
        if s.Set? && b in ledger then ledger[b := ledger[b] + s.value - t.books[b].stock] else ledger
      case DeleteBook(b) => ledger - {b}
      case _ => ledger
  }

  ghost predicate Balanced(ledger: map<BookId, int>, t: Tables) {
    ledger.Keys == t.books.Keys && forall b :: b in t.books ==> ledger[b] == Supply(t, b)
  }

  // The ledger follows the copies that exist, whatever the difference before; a new book has none.
  lemma EntryFollows(ledger: map<BookId, int>, t: Tables, r: Request, b: BookId)
    requires Inv(t) && Enabled(t, r) && ledger.Keys == t.books.Keys && b in Apply(t, r).books
    ensures b in Enter(ledger, t, r)
    ensures Supply(Apply(t, r), b) == Enter(ledger, t, r)[b] + if b in t.books then Supply(t, b) - ledger[b] else 0
  {
    if b in t.books {
      SupplyConserved(t, r, b);
    } else {
      assert r.CreateBook? && b == r.book;
      forall o | o in t.orders ensures !Mentions(t.orders[o], b) { }
      LiveNone(t.orders, b);
    }
  }

  lemma EntryKeys(ledger: map<BookId, int>, t: Tables, r: Request)
    requires Enabled(t, r) && ledger.Keys == t.books.Keys
    ensures Enter(ledger, t, r).Keys == Apply(t, r).books.Keys
  {
  }

  lemma EntryBalances(ledger: map<BookId, int>, t: Tables, r: Request)
    requires Inv(t) && Enabled(t, r) && Balanced(ledger, t)
    ensures Balanced(Enter(ledger, t, r), Apply(t, r))
  {
    EntryKeys(ledger, t, r);
    forall b | b in Apply(t, r).books ensures Enter(ledger, t, r)[b] == Supply(Apply(t, r), b) {
      EntryFollows(ledger, t, r, b);
    }
  }

  ghost function Opening(t: Tables): map<BookId, int> { map b | b in t.books :: Supply(t, b) }

  ghost function Books(t: Tables, rs: seq<Request>): (ledger: map<BookId, int>)
    requires Inv(t) && Runs(t, rs)
    ensures Balanced(ledger, Exec(t, rs))
  {
    if rs == [] then Opening(t)
    else
      var before := rs[..|rs| - 1];
      InvInRuns(t, before);
      EntryBalances(Books(t, before), Exec(t, before), rs[|rs| - 1]);
      Enter(Books(t, before), Exec(t, before), rs[|rs| - 1])
  }

  predicate IsAdmin(r: Request) { r.CreateBook? || r.UpdateBook? || r.DeleteBook? }

  /** Over any run without administration, every book keeps its supply exactly. */
  lemma {:induction false} ConservationOverRuns(t: Tables, rs: seq<Request>)
    requires Inv(t) && Runs(t, rs)
    requires forall k :: 0 <= k < |rs| ==> !IsAdmin(rs[k])
    ensures Exec(t, rs).books.Keys == t.books.Keys
    ensures forall b :: b in t.books ==> Supply(Exec(t, rs), b) == Supply(t, b)
  {
    if rs != [] {
      var before := rs[..|rs| - 1];
      var t1, r := Exec(t, before), rs[|rs| - 1];
      forall k | 0 <= k < |before| ensures !IsAdmin(before[k]) { assert before[k] == rs[k]; }
      ConservationOverRuns(t, before);
      InvInRuns(t, before);
      forall b | b in t.books ensures b in Apply(t1, r).books && Supply(Apply(t1, r), b) == Supply(t, b) {
        SupplyConserved(t1, r, b);
      }
    }
  }

  // ----- no overselling

  predicate SetsNonNegative(r: Request) {
    && (r.CreateBook? ==> r.stock >= 0)
    && (r.UpdateBook? && r.newStock.Set? ==> r.newStock.value >= 0)
  }

  lemma StocksStayNonNegative(t: Tables, r: Request)
    requires Inv(t) && Enabled(t, r) && NonNegative(t.books) && SetsNonNegative(r)
    ensures NonNegative(Apply(t, r).books)
  {
    if Succeeds(t, r) {
      match r
      case Checkout(_, listing, _) => SellStaysNonNegative(t.books, LinesOf(t.items, listing));
      case Cancel(_, oid) =>
        OrderedQuantities(t.orders[oid]);
        RestockStaysNonNegative(t.books, Plain(t.orders[oid].lines));
      case _ =>
    }
  }

  /** If administrators only ever write non-negative stocks, no run oversells: stocks stay
      non-negative and live orders never hold more copies than the ledger shows. */
  lemma {:induction false} NoOverselling(t: Tables, rs: seq<Request>)
    requires Inv(t) && Runs(t, rs) && NonNegative(t.books)
    requires forall k :: 0 <= k < |rs| ==> SetsNonNegative(rs[k])
    ensures NonNegative(Exec(t, rs).books)
    ensures forall b :: b in Exec(t, rs).books ==> Live(Exec(t, rs).orders, b) <= Books(t, rs)[b]
  {
    if rs != [] {
      var before := rs[..|rs| - 1];
      forall k | 0 <= k < |before| ensures SetsNonNegative(before[k]) { assert before[k] == rs[k]; }
      NoOverselling(t, before);
      InvInRuns(t, before);
      StocksStayNonNegative(Exec(t, before), rs[|rs| - 1]);
    }
    assert Balanced(Books(t, rs), Exec(t, rs));
  }

  // ----- the life of an order

  // Everything but the status is frozen, and the status moves only to Cancelled.
  predicate Frozen(o: Order, o': Order) {
    o' == o || (Cancellable(o.status) && o' == o.(status := Cancelled))
  }

  // One request leaves a stored order alone, or cancels it.
  lemma OrderAfter(t: Tables, r: Request, oid: OrderId)
    requires Enabled(t, r) && oid in t.orders
    ensures oid in Apply(t, r).orders
    ensures var o, o' := t.orders[oid], Apply(t, r).orders[oid];
            if r.Cancel? && r.oid == oid && Succeeds(t, r)
            then Cancellable(o.status) && o' == o.(status := Cancelled)
            else o' == o
  {
  }

  /** No later price edit, checkout, cancel or deletion touches a stored order's lines,
      unit prices or total; in particular the total stays equal to the sum of its lines. */
  lemma {:induction false} OrdersAreFrozen(t: Tables, rs: seq<Request>, oid: OrderId)
    requires Inv(t) && Runs(t, rs) && oid in t.orders
    ensures oid in Exec(t, rs).orders && Frozen(t.orders[oid], Exec(t, rs).orders[oid])
  {
    if rs != [] {
      OrdersAreFrozen(t, rs[..|rs| - 1], oid);
      OrderAfter(Exec(t, rs[..|rs| - 1]), rs[|rs| - 1], oid);
    }
  }

  /** A stored total is the exact sum of unit price times quantity and fits its column. */
  lemma StoredTotalsAreExact(t: Tables, rs: seq<Request>, oid: OrderId)
    requires Inv(t) && Runs(t, rs) && oid in Exec(t, rs).orders
    requires |Exec(t, rs).orders[oid].lines| <= MAX_EXACT_LINES
    ensures var o := Exec(t, rs).orders[oid]; o.total == ExactTotal(o.lines) && FitsNumeric(o.total)
  {
    InvInRuns(t, rs);
    TotalsAreExact(Exec(t, rs).orders[oid].lines);
  }

  // How many requests of the run cancelled this order.
  ghost function Cancels(t: Tables, rs: seq<Request>, oid: OrderId): nat
    requires Runs(t, rs)
  {
    if rs == [] then 0
    else
      var before, r := rs[..|rs| - 1], rs[|rs| - 1];
      Cancels(t, before, oid) + if r.Cancel? && r.oid == oid && Succeeds(Exec(t, before), r) then 1 else 0
  }

  ghost predicate IsCancelled(t: Tables, oid: OrderId) {
    oid in t.orders && t.orders[oid].status == Cancelled
  }

  lemma CancelledIsTerminal(t: Tables, r: Request, oid: OrderId)
    requires Enabled(t, r)
    ensures IsCancelled(t, oid) ==> IsCancelled(Apply(t, r), oid) && !(r.Cancel? && r.oid == oid && Succeeds(t, r))
    ensures r.Cancel? && r.oid == oid && Succeeds(t, r) ==> IsCancelled(Apply(t, r), oid)
  {
    if oid in t.orders { OrderAfter(t, r, oid); }
  }

  /** Cancelled is terminal, so an order restocks at most once in any run. */
  lemma {:induction false} RestockedAtMostOnce(t: Tables, rs: seq<Request>, oid: OrderId)
    requires Runs(t, rs)
    ensures Cancels(t, rs, oid) <= 1
    ensures Cancels(t, rs, oid) == 1 ==> IsCancelled(Exec(t, rs), oid)
  {
    if rs != [] {
      RestockedAtMostOnce(t, rs[..|rs| - 1], oid);
      CancelledIsTerminal(Exec(t, rs[..|rs| - 1]), rs[|rs| - 1], oid);
    }
  }

  lemma {:induction false} UncancelledStays(t: Tables, rs: seq<Request>, oid: OrderId)
    requires Runs(t, rs) && oid in t.orders
    requires forall k :: 0 <= k < |rs| ==> !(rs[k].Cancel? && rs[k].oid == oid)
    ensures oid in Exec(t, rs).orders && Exec(t, rs).orders[oid] == t.orders[oid]
  {
    if rs != [] {
      var before := rs[..|rs| - 1];
      forall k | 0 <= k < |before| ensures !(before[k].Cancel? && before[k].oid == oid) { assert before[k] == rs[k]; }
      UncancelledStays(t, before, oid);
      OrderAfter(Exec(t, before), rs[|rs| - 1], oid);
    }
  }

  lemma StillPlaced(t: Tables, u: UserId, listing: seq<ItemId>, oid: OrderId, mid: seq<Request>)
    requires Inv(t) && Enabled(t, Checkout(u, listing, oid)) && CheckoutOk(t, u, listing)
    requires Runs(CheckoutNext(t, u, listing, oid), mid)
    requires forall k :: 0 <= k < |mid| ==> !(mid[k].Cancel? && mid[k].oid == oid)
    ensures var later := Exec(CheckoutNext(t, u, listing, oid), mid);
            && Inv(later) && oid in later.orders
            && later.orders[oid].user == u && later.orders[oid].status == Placed
            && Plain(later.orders[oid].lines) == LinesOf(t.items, listing)
  {
    var placed := CheckoutNext(t, u, listing, oid);
    InvKept(t, Checkout(u, listing, oid));
    InvInRuns(placed, mid);
    UncancelledStays(placed, mid, oid);
    assert Plain(placed.orders[oid].lines) == LinesOf(t.items, listing);
  }

  /** After a checkout and any run in between, the cancel goes through exactly when the
      returned copies fit the stock columns. */
  lemma CancelGoesThrough(t: Tables, u: UserId, listing: seq<ItemId>, oid: OrderId, mid: seq<Request>)
    requires Inv(t) && Enabled(t, Checkout(u, listing, oid)) && CheckoutOk(t, u, listing)
    requires Runs(CheckoutNext(t, u, listing, oid), mid)
    requires forall k :: 0 <= k < |mid| ==> !(mid[k].Cancel? && mid[k].oid == oid)
    ensures var later := Exec(CheckoutNext(t, u, listing, oid), mid);
            CancelOk(later, u, oid) <==>
              forall b :: b in later.books ==> FitsInt32(Restock(later.books, LinesOf(t.items, listing))[b].stock)
  {
    StillPlaced(t, u, listing, oid, mid);
    var later := Exec(CheckoutNext(t, u, listing, oid), mid);
    OrderedQuantities(later.orders[oid]);
    RestockFitsIff(later.books, LinesOf(t.items, listing));
  }

  /** A checkout and its later cancel have no net effect on any stock, whatever requests run
      in between: each stock moves from before the checkout to after the cancel by what the
      requests in between moved it. */
  lemma CancelUndoesCheckout(t: Tables, u: UserId, listing: seq<ItemId>, oid: OrderId, mid: seq<Request>)
    requires Inv(t) && Enabled(t, Checkout(u, listing, oid)) && CheckoutOk(t, u, listing)
    requires Runs(CheckoutNext(t, u, listing, oid), mid)
    requires forall k :: 0 <= k < |mid| ==> !(mid[k].Cancel? && mid[k].oid == oid)
    ensures var placed := CheckoutNext(t, u, listing, oid);
            var later := Exec(placed, mid);
            CancelOk(later, u, oid) ==>
              var undone := Apply(later, Cancel(u, oid));
              forall b :: b in t.books && b in later.books ==>
                undone.books[b].stock - t.books[b].stock == later.books[b].stock - placed.books[b].stock
  {
    StillPlaced(t, u, listing, oid, mid);
  }

  // ----- order of the cart rows

  lemma RowOrderTotals(t: Tables, u: UserId, xs: seq<ItemId>, ys: seq<ItemId>)
    requires Inv(t) && IsListing(t, u, xs) && IsListing(t, u, ys) && |xs| <= MAX_EXACT_LINES
    ensures var ls, ms := LinesOf(t.items, xs), LinesOf(t.items, ys);
            && |ls| == |ms| && Sell(t.books, ls) == Sell(t.books, ms)
            && (Reservable(t.books, ls) <==> Reservable(t.books, ms))
            && (Reservable(t.books, ls) ==>
                && multiset(Priced(t.books, ls)) == multiset(Priced(t.books, ms))
                && RunningTotal(Priced(t.books, ls)) == RunningTotal(Priced(t.books, ms)))
  {
    ListingsPermute(t, u, xs, ys);
    var ls, ms := LinesOf(t.items, xs), LinesOf(t.items, ys);
    PermutedMembers(ls, ms);
    OrderIndependence(t.books, ls, ms);
    PricedIsSane(t, u, xs);
    PricedIsSane(t, u, ys);
    if Reservable(t.books, ls) {
      TotalsAreExact(Priced(t.books, ls));
      TotalsAreExact(Priced(t.books, ms));
    }
  }

  /** Whichever order the query returns the cart rows in, checkout decides the same, leaves
      the same stocks and carts, and stores the same total over the same lines. */
  lemma CheckoutIgnoresRowOrder(t: Tables, u: UserId, xs: seq<ItemId>, ys: seq<ItemId>, oid: OrderId)
    requires Inv(t) && oid !in t.orders && IsListing(t, u, xs) && IsListing(t, u, ys)
    requires |xs| <= MAX_EXACT_LINES
    ensures CheckoutOk(t, u, xs) <==> CheckoutOk(t, u, ys)
    ensures CheckoutOk(t, u, xs) ==>
              var a, b := CheckoutNext(t, u, xs, oid), CheckoutNext(t, u, ys, oid);
              && a.books == b.books && a.items == b.items && a.carts == b.carts
              && multiset(a.orders[oid].lines) == multiset(b.orders[oid].lines)
              && a.orders == b.orders[oid := b.orders[oid].(lines := a.orders[oid].lines)]
  {
    RowOrderTotals(t, u, xs, ys);
  }
}
