/** Many checkouts and cancels in flight at once, of different users or of one, with carts and
    books edited meanwhile. Each locks a book row before reading it and keeps the lock until
    it commits or rolls back; nothing locks the cart or the order. `refresh` says what SELECT
    ... FOR UPDATE returns for a row the session has already loaded: the committed row (true),
    or the copy loaded when the request started (false). */
module Interleaving {
  import opened Domain
  import opened Requests
  import opened Ledger
  import opened Carts

  type TxnId = nat

  /** A checkout or a cancel in flight: the tables it first read, the lines still to visit and
      the lines visited, the order lines built so far, and the stock read when each locked row
      was first locked. The keys of `base` are the locked rows. */
  datatype Txn = Txn(req: Request, start: Tables, todo: seq<Line>, done: seq<Line>,
                     placed: seq<OrderLine>, base: map<BookId, int>)

  /** `log` and `ledger` are history: the requests that committed, and the copies of each book
      that exist according to administrators' requests. */
  datatype World = World(db: Tables, txns: map<TxnId, Txn>, log: seq<Request>, ledger: map<BookId, int>)

  datatype Action = Begin(tid: TxnId, req: Request) | Advance(tid: TxnId) | Commit(tid: TxnId)
                  | Abort(tid: TxnId) | Atomic(req: Request)

  // ----- one transaction

  // The guards a checkout or a cancel passes before it visits any book.
  ghost predicate Admitted(db: Tables, r: Request) {
    match r
    case Checkout(u, listing, oid) => Enabled(db, r) && listing != []
    case Cancel(u, oid) => oid in db.orders && db.orders[oid].user == u && Cancellable(db.orders[oid].status)
    case _ => false
  }

  ghost function LinesFor(db: Tables, r: Request): seq<Line>
    requires Admitted(db, r)
  {
    if r.Checkout? then LinesOf(db.items, r.listing) else Plain(db.orders[r.oid].lines)
  }

  ghost function Started(db: Tables, r: Request): Txn
    requires Admitted(db, r)
  {
    Txn(r, db, LinesFor(db, r), [], [], map[])
  }

  // The lines as they were read at the start.
  function Lines(x: Txn): seq<Line> { x.done + x.todo }

  // Net change the visited lines make to the stock of b.
  function Moved(x: Txn, b: BookId): int {
    if x.req.Checkout? then -Demand(x.done, b) else Demand(x.done, b)
  }

  // The stock of b as this transaction reads it under the lock.
  function ReadStock(db: Tables, x: Txn, b: BookId, refresh: bool): int
    requires b in db.books
  {
    if b in x.base then x.base[b] + Moved(x, b)
    else if !refresh && b in x.start.books then x.start.books[b].stock
    else db.books[b].stock
  }

  function Locked(db: Tables, x: Txn, b: BookId, refresh: bool): map<BookId, int>
    requires b in db.books
  {
    if b in x.base then x.base else x.base[b := ReadStock(db, x, b, refresh)]
  }

  // One iteration of the loop; None when the request raises.
  function Visit(db: Tables, x: Txn, refresh: bool): Option<Txn>
    requires x.todo != []
  {
    var l := x.todo[0];
    var x' := x.(todo := x.todo[1..], done := x.done + [l]);
    if x.req.Checkout? then
      if l.quantity < 1 || l.book !in db.books || ReadStock(db, x, l.book, refresh) < l.quantity then None
      else Some(x'.(base := Locked(db, x, l.book, refresh),
                    placed := x.placed + [OrderLine(l, db.books[l.book].price)]))
    else if l.book !in db.books then Some(x')
    else if !FitsInt32(ReadStock(db, x, l.book, refresh) + l.quantity) then None
    else Some(x'.(base := Locked(db, x, l.book, refresh)))
  }

  function WrittenStocks(books: map<BookId, Book>, x: Txn): map<BookId, Book> {
    map b | b in books ::
      if b in x.base then books[b].(stock := x.base[b] + Moved(x, b)) else books[b]
  }

  /** What the end of a transaction writes. A checkout stores its order and deletes the rows
      the cart holds by now; a cancel sets the status, whatever it is by now. */
  ghost function Written(db: Tables, x: Txn): Tables {
    var books := WrittenStocks(db.books, x);
    match x.req
    case Checkout(u, _, oid) =>
      db.(books := books, items := db.items - CartRows(db, u),
          orders := db.orders[oid := Order(u, Placed, x.placed, RunningTotal(x.placed))])
    case Cancel(_, oid) =>
      db.(books := books,
          orders := if oid in db.orders then db.orders[oid := db.orders[oid].(status := Cancelled)] else db.orders)
    case _ => db
  }

  predicate Lands(x: Txn) { x.req.Checkout? ==> FitsNumeric(RunningTotal(x.placed)) }

  // ----- the world

  ghost predicate Free(w: World, b: BookId, tid: TxnId) {
    forall o :: o in w.txns && o != tid ==> b !in w.txns[o].base
  }

  // A write waits for the locks on the rows it touches.
  predicate RowsHeld(db: Tables, db': Tables, x: Txn) {
    forall b :: b in x.base && b in db.books ==> b in db'.books && db'.books[b] == db.books[b]
  }

  // Fresh keys differ.
  predicate OtherOrder(r: Request, s: Request) { r.Checkout? && s.Checkout? ==> r.oid != s.oid }

  /** Carts and books are administered in single steps, checkouts and cancels step by step. */
  ghost predicate Can(w: World, a: Action) {
    match a
    case Begin(tid, r) =>
      tid !in w.txns && Admitted(w.db, r) && forall o :: o in w.txns ==> OtherOrder(r, w.txns[o].req)
    case Advance(tid) => tid in w.txns && w.txns[tid].todo != [] && Free(w, w.txns[tid].todo[0].book, tid)
    case Commit(tid) => tid in w.txns && w.txns[tid].todo == []
    case Abort(tid) => tid in w.txns
    case Atomic(r) =>
      && !r.Checkout? && !r.Cancel? && Enabled(w.db, r)
      && (forall o :: o in w.txns ==> RowsHeld(w.db, Apply(w.db, r), w.txns[o]))
  }

  ghost function Do(w: World, a: Action, refresh: bool): World
    requires Can(w, a)
  {
    match a
    case Begin(tid, r) => w.(txns := w.txns[tid := Started(w.db, r)])
    case Advance(tid) =>
      (match Visit(w.db, w.txns[tid], refresh)
       case None => w.(txns := w.txns - {tid})
       case Some(x) => w.(txns := w.txns[tid := x]))
    case Commit(tid) =>
      var x := w.txns[tid];
      if !Lands(x) then w.(txns := w.txns - {tid})
      else w.(db := Written(w.db, x), txns := w.txns - {tid}, log := w.log + [SerialCall(w.db, x)])
    case Abort(tid) => w.(txns := w.txns - {tid})
    case Atomic(r) => w.(db := Apply(w.db, r), log := w.log + [r], ledger := Enter(w.ledger, w.db, r))
  }

  // ----- what a commit depends on

  /** Every locked row was read as it is committed. */
  predicate Fresh(db: Tables, x: Txn) {
    forall b :: b in x.base ==> b in db.books && x.base[b] == db.books[b].stock
  }

  /** The cart still holds the quantities that were read; the order can still be cancelled. */
  ghost predicate AsRead(db: Tables, x: Txn) {
    if x.req.Checkout? then Holds(db, x.req.user, Lines(x))
    else x.req.Cancel? && x.req.oid in db.orders && Cancellable(db.orders[x.req.oid].status)
  }

  ghost predicate Relists(db: Tables, x: Txn, listing: seq<ItemId>) {
    x.req.Checkout? && IsListing(db, x.req.user, listing) && LinesOf(db.items, listing) == Lines(x)
  }

  // The request as it would have to run alone, on a listing of the cart as it is now.
  ghost function SerialCall(db: Tables, x: Txn): Request {
    if l :| Relists(db, x, l) then Checkout(x.req.user, l, x.req.oid) else x.req
  }

  // The same call of the same user; the listing is the database's choice.
  predicate SameCall(r: Request, s: Request) {
    if s.Checkout? then r.Checkout? && r.user == s.user && r.oid == s.oid else r == s
  }

  ghost predicate RunsAloneAs(db: Tables, x: Txn, r: Request) {
    SameCall(r, x.req) && Enabled(db, r) && Succeeds(db, r) && Written(db, x) == Apply(db, r)
  }

  /** Run alone on the committed tables, the request would have succeeded and left the same. */
  ghost predicate IsSerial(db: Tables, x: Txn) { exists r :: RunsAloneAs(db, x, r) }

  // ----- invariant of one transaction

  function Touched(lines: seq<Line>): set<BookId> { set k | 0 <= k < |lines| :: lines[k].book }

  // A checkout that has reserved the visited lines.
  ghost predicate Selling(books: map<BookId, Book>, x: Txn) {
    && x.base.Keys == Touched(x.done) && x.base.Keys <= books.Keys
    && AllPositive(x.done)
    && (forall b :: b in x.base ==> Demand(x.done, b) <= x.base[b])
    && |x.placed| == |x.done|
    && (forall k :: 0 <= k < |x.done| ==>
          x.done[k].book in books && x.placed[k] == OrderLine(x.done[k], books[x.done[k].book].price))
  }

  // The stocks a cancel has written so far fit their columns.
  predicate ReturnsFit(base: map<BookId, int>, done: seq<Line>) {
    forall k :: 0 <= k < |done| ==>
      done[k].book in base && FitsInt32(base[done[k].book] + Received(done, k))
  }

  // A cancel that has returned the visited lines.
  ghost predicate Returning(books: map<BookId, Book>, x: Txn) {
    x.base.Keys == Touched(x.done) && x.base.Keys <= books.Keys && ReturnsFit(x.base, x.done)
  }

  // What no step of another transaction changes: the order of a cancel is never taken away.
  ghost predicate Keyed(db: Tables, x: Txn) {
    match x.req
    case Checkout(_, _, oid) => oid !in db.orders && CartLines(Lines(x))
    case Cancel(u, oid) => oid in db.orders && db.orders[oid].user == u && Plain(db.orders[oid].lines) == Lines(x)
    case _ => false
  }

  // What was read fits, and concerned books there were.
  predicate Sound(x: Txn) {
    && RowsFit(x.start)
    && (forall b :: b in x.base ==> FitsInt32(x.base[b]))
    && (forall k :: 0 <= k < |x.done| ==> x.done[k].book in x.start.books)
    && (forall k :: 0 <= k < |x.todo| ==> x.todo[k].book in x.start.books)
  }

  ghost predicate TxnOk(db: Tables, x: Txn) {
    Keyed(db, x) && Sound(x) && if x.req.Checkout? then Selling(db.books, x) else Returning(db.books, x)
  }

  lemma LineBookExists(db: Tables, r: Request, k: nat)
    requires Inv(db) && Admitted(db, r) && k < |LinesFor(db, r)|
    ensures LinesFor(db, r)[k].book in db.books
  {
    if r.Checkout? {
      GuardsNeverFire(db, r.user, r.listing);
    } else {
      assert db.orders[r.oid].lines[k].line.book in db.books;
    }
  }

  lemma StartedOk(db: Tables, r: Request)
    requires Inv(db) && Admitted(db, r)
    ensures TxnOk(db, Started(db, r)) && Fresh(db, Started(db, r)) && AsRead(db, Started(db, r))
  {
    var x := Started(db, r);
    assert Lines(x) == x.todo;
    forall k | 0 <= k < |x.todo| ensures x.todo[k].book in db.books { LineBookExists(db, r, k); }
    if r.Checkout? {
      ListingIsCartLines(db, r.user, r.listing);
      ListingHolds(db, r.user, r.listing);
    }
  }

  lemma OneMore(done: seq<Line>, l: Line)
    ensures Touched(done + [l]) == Touched(done) + {l.book}
    ensures forall b :: Demand(done + [l], b) == Demand(done, b) + Wanted(l, b)
    ensures l.book !in Touched(done) ==> Demand(done, l.book) == 0
  {
    assert (done + [l])[..|done|] == done;
    forall b | b in Touched(done) + {l.book} ensures b in Touched(done + [l]) {
      if b in Touched(done) {
        var k :| 0 <= k < |done| && done[k].book == b;
        assert (done + [l])[k].book == b;
      } else {
        assert (done + [l])[|done|].book == b;
      }
    }
    if l.book !in Touched(done) { DemandOutside(done, l.book); }
  }

  lemma VisitSelling(db: Tables, x: Txn, refresh: bool)
    requires Selling(db.books, x) && x.req.Checkout? && x.todo != [] && Visit(db, x, refresh).Some?
    ensures Selling(db.books, Visit(db, x, refresh).value)
  {
    OneMore(x.done, x.todo[0]);
  }

  lemma OneMoreFits(base: map<BookId, int>, base': map<BookId, int>, done: seq<Line>, l: Line)
    requires ReturnsFit(base, done) && l.book in base'
    requires forall b :: b in base ==> b in base' && base'[b] == base[b]
    requires FitsInt32(base'[l.book] + Demand(done + [l], l.book))
    ensures ReturnsFit(base', done + [l])
  {
    var done' := done + [l];
    assert done'[..|done|] == done && done'[..|done| + 1] == done';
    forall k | 0 <= k < |done'|
      ensures done'[k].book in base' && FitsInt32(base'[done'[k].book] + Received(done', k))
    {
      if k < |done| { ReceivedPrefix(done', |done|, k); assert done[k] == done'[k]; }
    }
  }

  lemma VisitReturning(db: Tables, x: Txn, refresh: bool)
    requires Returning(db.books, x) && x.req.Cancel? && x.todo != [] && Visit(db, x, refresh).Some?
    requires x.todo[0].book in db.books
    ensures Returning(db.books, Visit(db, x, refresh).value)
  {
    OneMore(x.done, x.todo[0]);
    OneMoreFits(x.base, Visit(db, x, refresh).value.base, x.done, x.todo[0]);
  }

  // A visit reads no line again and keeps what was read.
  lemma VisitKeepsLines(db: Tables, x: Txn, refresh: bool)
    requires x.todo != [] && Visit(db, x, refresh).Some?
    ensures var x' := Visit(db, x, refresh).value;
            Lines(x') == Lines(x) && x'.req == x.req && x'.start == x.start
  {
    assert x.todo == [x.todo[0]] + x.todo[1..];
  }

  lemma VisitSound(db: Tables, x: Txn, refresh: bool)
    requires RowsFit(db) && Sound(x) && x.todo != [] && Visit(db, x, refresh).Some?
    ensures Sound(Visit(db, x, refresh).value)
  {
    var x' := Visit(db, x, refresh).value;
    assert forall b :: b in x'.base && b !in x.base ==> b == x.todo[0].book;
  }

  lemma VisitFresh(db: Tables, x: Txn, refresh: bool)
    requires x.todo != [] && Visit(db, x, refresh).Some? && refresh && Fresh(db, x)
    ensures Fresh(db, Visit(db, x, refresh).value)
  {
  }

  lemma VisitOk(db: Tables, x: Txn, refresh: bool)
    requires Inv(db) && TxnOk(db, x) && x.todo != [] && Visit(db, x, refresh).Some?
    ensures TxnOk(db, Visit(db, x, refresh).value)
  {
    VisitKeepsLines(db, x, refresh);
    VisitSound(db, x, refresh);
    if x.req.Checkout? {
      VisitSelling(db, x, refresh);
    } else {
      OwedBookExists(db, x, |x.done|);
      VisitReturning(db, x, refresh);
    }
  }

  lemma OwedBookExists(db: Tables, x: Txn, k: nat)
    requires OrdersRefer(db) && Keyed(db, x) && x.req.Cancel? && k < |Lines(x)|
    ensures Lines(x)[k].book in db.books
  {
    assert Plain(db.orders[x.req.oid].lines)[k] == db.orders[x.req.oid].lines[k].line;
  }

  // The order of a cancel stays, with its user and its lines.
  predicate OrdersStay(db: Tables, db': Tables) {
    forall o :: o in db.orders ==>
      o in db'.orders && db'.orders[o].user == db.orders[o].user && db'.orders[o].lines == db.orders[o].lines
  }

  // A change that leaves alone the rows x has locked keeps what x has worked out.
  lemma HeldOk(db: Tables, db': Tables, x: Txn)
    requires TxnOk(db, x) && RowsHeld(db, db', x) && OrdersStay(db, db')
    requires x.req.Checkout? ==> x.req.oid !in db'.orders
    ensures TxnOk(db', x)
    ensures Fresh(db', x) <==> Fresh(db, x)
  {
    forall k | 0 <= k < |x.done| ensures x.done[k].book in x.base { assert x.done[k].book in Touched(x.done); }
  }

  // ----- a commit keeps the tables' invariant

  lemma SellingRows(books: map<BookId, Book>, x: Txn, b: BookId)
    requires Selling(books, x) && b in x.base && FitsInt32(x.base[b])
    ensures 0 <= x.base[b] - Demand(x.done, b) <= x.base[b] && FitsInt32(x.base[b] - Demand(x.done, b))
  {
    DemandMonotone(x.done, |x.done|, b);
    assert x.done[..|x.done|] == x.done;
  }

  lemma {:induction false} ReturningRows(base: map<BookId, int>, done: seq<Line>, b: BookId)
    requires ReturnsFit(base, done) && b in base && FitsInt32(base[b])
    ensures FitsInt32(base[b] + Demand(done, b))
    decreases |done|
  {
    if done != [] {
      var n := |done| - 1;
      assert done[..n + 1] == done;
      if done[n].book != b {
        forall k | 0 <= k < n ensures done[..n][k].book in base && FitsInt32(base[done[k].book] + Received(done[..n], k)) {
          ReceivedPrefix(done, n, k);
        }
        ReturningRows(base, done[..n], b);
      }
    }
  }

  lemma WrittenRowsFit(db: Tables, x: Txn)
    requires RowsFit(db) && TxnOk(db, x) && Lands(x)
    ensures RowsFit(Written(db, x))
  {
    forall b | b in x.base ensures FitsInt32(x.base[b] + Moved(x, b)) {
      if x.req.Checkout? { SellingRows(db.books, x, b); } else { ReturningRows(x.base, x.done, b); }
    }
  }

  lemma WrittenOrders(db: Tables, x: Txn)
    requires Inv(db) && TxnOk(db, x) && x.todo == []
    ensures OrdersRefer(Written(db, x)) && OrdersSane(Written(db, x))
  {
    assert Lines(x) == x.done;
    assert Written(db, x).books.Keys == db.books.Keys;
    if x.req.Checkout? {
      forall k | 0 <= k < |x.placed| ensures SaneLine(x.placed[k]) && x.placed[k].line.book in db.books {
        assert x.placed[k].line == Lines(x)[k];
      }
    }
  }

  lemma CommitKeepsInv(db: Tables, x: Txn)
    requires Inv(db) && TxnOk(db, x) && x.todo == [] && Lands(x)
    ensures Inv(Written(db, x))
  {
    WrittenRowsFit(db, x);
    WrittenOrders(db, x);
    FewerRows(db, Written(db, x));
  }

  lemma CommitKeepsOther(db: Tables, x: Txn, y: Txn)
    requires TxnOk(db, x) && TxnOk(db, y) && x.base.Keys !! y.base.Keys && OtherOrder(x.req, y.req)
    ensures TxnOk(Written(db, x), y) && (Fresh(Written(db, x), y) <==> Fresh(db, y))
  {
    HeldOk(db, Written(db, x), y);
  }

  lemma AtomicKeeps(db: Tables, r: Request, x: Txn)
    requires Enabled(db, r) && !r.Checkout? && !r.Cancel? && RowsHeld(db, Apply(db, r), x) && TxnOk(db, x)
    ensures TxnOk(Apply(db, r), x) && (Fresh(Apply(db, r), x) <==> Fresh(db, x))
  {
    assert Apply(db, r).orders == db.orders;
    HeldOk(db, Apply(db, r), x);
  }

  // ----- when a commit is one serial step

  lemma StocksMoved(books: map<BookId, Book>, x: Txn)
    requires x.base.Keys == Touched(x.done) && x.base.Keys <= books.Keys
    requires forall b :: b in x.base ==> x.base[b] == books[b].stock
    ensures x.req.Checkout? ==> WrittenStocks(books, x) == Sell(books, x.done)
    ensures !x.req.Checkout? ==> WrittenStocks(books, x) == Restock(books, x.done)
  {
    forall b | b in books && b !in x.base ensures Demand(x.done, b) == 0 { DemandOutside(x.done, b); }
  }

  lemma SoldBooks(books: map<BookId, Book>, x: Txn)
    requires Selling(books, x)
    requires forall b :: b in x.base ==> x.base[b] == books[b].stock
    ensures Reservable(books, x.done) && x.placed == Priced(books, x.done)
  {
    forall k | 0 <= k < |x.done| ensures x.done[k].book in x.base { assert x.done[k].book in Touched(x.done); }
  }

  lemma FreshCheckoutIsSerial(db: Tables, x: Txn, listing: seq<ItemId>)
    requires TxnOk(db, x) && x.todo == [] && Lands(x) && Fresh(db, x) && Relists(db, x, listing)
    ensures RunsAloneAs(db, x, Checkout(x.req.user, listing, x.req.oid))
  {
    assert Lines(x) == x.done;
    StocksMoved(db.books, x);
    SoldBooks(db.books, x);
  }

  lemma FreshCancelIsSerial(db: Tables, x: Txn)
    requires TxnOk(db, x) && x.todo == [] && Fresh(db, x) && AsRead(db, x) && x.req.Cancel?
    ensures RunsAloneAs(db, x, x.req)
  {
    assert Lines(x) == x.done;
    StocksMoved(db.books, x);
  }

  lemma GoodCommitIsSerial(db: Tables, x: Txn)
    requires Inv(db) && TxnOk(db, x) && x.todo == [] && Lands(x) && Fresh(db, x) && AsRead(db, x)
    ensures RunsAloneAs(db, x, SerialCall(db, x))
  {
    if x.req.Checkout? {
      var listing := ListingOf(db, x.req.user, Lines(x));
      assert Relists(db, x, listing);
      var l := SerialCall(db, x).listing;
      FreshCheckoutIsSerial(db, x, l);
    } else {
      FreshCancelIsSerial(db, x);
    }
  }

  lemma SerialCheckoutAsRead(db: Tables, x: Txn, r: Request)
    requires Inv(db) && TxnOk(db, x) && x.todo == [] && x.req.Checkout? && RunsAloneAs(db, x, r)
    ensures AsRead(db, x) && LinesOf(db.items, r.listing) == x.done
  {
    assert Lines(x) == x.done;
    var o, o' := Written(db, x).orders[x.req.oid], Apply(db, r).orders[x.req.oid];
    assert Plain(o.lines) == x.done && Plain(o'.lines) == LinesOf(db.items, r.listing);
    ListingHolds(db, r.user, r.listing);
  }

  lemma SerialCommitIsGood(db: Tables, x: Txn, r: Request)
    requires Inv(db) && TxnOk(db, x) && x.todo == [] && RunsAloneAs(db, x, r)
    ensures Fresh(db, x) && AsRead(db, x)
  {
    assert Lines(x) == x.done;
    if x.req.Checkout? {
      SerialCheckoutAsRead(db, x, r);
      SameStocks(db.books, Sell(db.books, x.done), x);
    } else {
      SameStocks(db.books, Restock(db.books, x.done), x);
    }
  }

  // Written stocks that are what the lines alone explain were read as they are.
  lemma SameStocks(books: map<BookId, Book>, moved: map<BookId, Book>, x: Txn)
    requires x.base.Keys <= books.Keys && WrittenStocks(books, x) == moved
    requires moved == if x.req.Checkout? then Sell(books, x.done) else Restock(books, x.done)
    ensures forall b :: b in x.base ==> x.base[b] == books[b].stock
  {
    forall b | b in x.base ensures x.base[b] == books[b].stock {
      assert moved[b].stock == x.base[b] + Moved(x, b);
    }
  }

  /** A commit does what running its request alone on the committed tables would do exactly
      when every row it locked was read as committed and the cart, or the order, is still as
      it was read at the start. */
  lemma CommitIsSerialIff(db: Tables, x: Txn)
    requires Inv(db) && TxnOk(db, x) && x.todo == [] && Lands(x)
    ensures IsSerial(db, x) <==> Fresh(db, x) && AsRead(db, x)
  {
    if IsSerial(db, x) {
      var r :| RunsAloneAs(db, x, r);
      SerialCommitIsGood(db, x, r);
    }
    if Fresh(db, x) && AsRead(db, x) { GoodCommitIsSerial(db, x); }
  }

  // ----- how many copies a commit creates

  /** What a stale read overstates the stock by, and all the copies of an order that another
      commit has cancelled in the meantime. */
  ghost function Excess(db: Tables, x: Txn, b: BookId): int
    requires b in db.books
  {
    (if b in x.base then x.base[b] - db.books[b].stock else 0)
    + (if x.req.Cancel? && IsCancelled(db, x.req.oid) then Demand(x.done, b) else 0)
  }

  /** The exact account of any commit: it creates its excess, and nothing else. */
  lemma CommitMovesSupply(db: Tables, x: Txn, b: BookId)
    requires TxnOk(db, x) && x.todo == [] && b in db.books
    ensures b in Written(db, x).books
    ensures Supply(Written(db, x), b) == Supply(db, b) + Excess(db, x, b)
  {
    assert Lines(x) == x.done;
    if b !in x.base { DemandOutside(x.done, b); }
    if x.req.Checkout? {
      assert Plain(x.placed) == x.done;
      LiveSet(db.orders, x.req.oid, Written(db, x).orders[x.req.oid], b);
    } else {
      LiveSet(db.orders, x.req.oid, db.orders[x.req.oid].(status := Cancelled), b);
    }
  }
}
