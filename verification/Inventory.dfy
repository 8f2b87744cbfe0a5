/** The stock copies in Redis and the stock events sent to websocket clients, as derived
    views of the books table. */
module Inventory {
  import opened Domain
  import opened Requests
  import opened Ledger
  import opened Scenarios

  type StockMap = map<BookId, int>

  function Stocks(books: map<BookId, Book>): StockMap { map b | b in books :: books[b].stock }

  function Observe(m: StockMap, e: StockEvent): StockMap {
    match e
    case Updated(b, s) => m[b := s]
    case Deleted(b) => m - {b}
  }

  function Fold(m: StockMap, es: seq<StockEvent>): StockMap {
    if es == [] then m else Observe(Fold(m, es[..|es| - 1]), es[|es| - 1])
  }

  lemma {:induction false} FoldConcat(m: StockMap, xs: seq<StockEvent>, ys: seq<StockEvent>)
    ensures Fold(m, xs + ys) == Fold(Fold(m, xs), ys)
  {
    if ys == [] {
      assert xs + ys == xs;
    } else {
      assert (xs + ys)[..|xs + ys| - 1] == xs + ys[..|ys| - 1];
      FoldConcat(m, xs, ys[..|ys| - 1]);
    }
  }

  // ----- what the routes push

  // The pushes of the checkout and cancel routes: one per order line whose book exists.
  function Refreshed(books: map<BookId, Book>, lines: seq<Line>): seq<StockEvent> {
    if lines == [] then []
    else
      var n := |lines| - 1;
      var b := lines[n].book;
      Refreshed(books, lines[..n]) + if b in books then [Updated(b, books[b].stock)] else []
  }

  // The pushes of a route whose service call has left the given tables.
  function PushesOf(t': Tables, r: Request): seq<StockEvent>
    requires r.Checkout? || r.Cancel? ==> r.oid in t'.orders
    requires r.CreateBook? || r.UpdateBook? ==> r.book in t'.books
  {
    match r
    case Checkout(_, _, oid) => Refreshed(t'.books, Plain(t'.orders[oid].lines))
    case Cancel(_, oid) => Refreshed(t'.books, Plain(t'.orders[oid].lines))
    case CreateBook(b, _, _, _) => [Updated(b, t'.books[b].stock)]
    case UpdateBook(b, _, _, _) => [Updated(b, t'.books[b].stock)]
    case DeleteBook(b) => [Deleted(b)]
    case _ => []
  }

  /** What the route of a request pushes to the cache and to the hub; nothing when refused. */
  ghost function Published(t: Tables, r: Request): seq<StockEvent>
    requires Enabled(t, r)
  {
    if Succeeds(t, r) then PushesOf(Apply(t, r), r) else []
  }

  // Redis takes push k when up(k), and loses it otherwise; the hub gets them all.
  function Kept(es: seq<StockEvent>, up: nat -> bool): seq<StockEvent> {
    if es == [] then []
    else
      var n := |es| - 1;
      Kept(es[..n], up) + if up(n) then [es[n]] else []
  }

  const NO_LOSS: nat -> bool := _ => true

  lemma {:induction false} KeptAll(es: seq<StockEvent>)
    ensures Kept(es, NO_LOSS) == es
  {
    if es != [] { KeptAll(es[..|es| - 1]); }
  }

  // ----- events that tell the truth about a stock map

  predicate Tells(es: seq<StockEvent>, m: StockMap) {
    forall k :: 0 <= k < |es| ==>
      if es[k].Updated? then es[k].book in m && m[es[k].book] == es[k].stock else es[k].book !in m
  }

  // Some event that goes through is about b.
  predicate Names(es: seq<StockEvent>, up: nat -> bool, b: BookId) {
    exists k :: 0 <= k < |es| && up(k) && es[k].book == b
  }

  predicate SameAt(c: StockMap, m: StockMap, b: BookId) { (b in c <==> b in m) && (b in c ==> c[b] == m[b]) }

  /** Folding the events that go through brings exactly the books they name up to date. */
  lemma {:induction false} FoldTold(c: StockMap, m: StockMap, es: seq<StockEvent>, up: nat -> bool, b: BookId)
    requires Tells(es, m)
    ensures SameAt(Fold(c, Kept(es, up)), if Names(es, up, b) then m else c, b)
  {
    if es != [] {
      var n := |es| - 1;
      var before := Kept(es[..n], up);
      FoldTold(c, m, es[..n], up, b);
      NamesLast(es, up, b);
      if up(n) { assert (before + [es[n]])[..|before|] == before; } else { assert before + [] == before; }
    }
  }

  lemma NamesLast(es: seq<StockEvent>, up: nat -> bool, b: BookId)
    requires es != []
    ensures Names(es, up, b) <==> Names(es[..|es| - 1], up, b) || (up(|es| - 1) && es[|es| - 1].book == b)
  {
    var n := |es| - 1;
    if Names(es[..n], up, b) {
      var k :| 0 <= k < n && up(k) && es[..n][k].book == b;
      assert es[k].book == b;
    }
    if k :| 0 <= k < n && up(k) && es[k].book == b { assert es[..n][k].book == b; }
  }

  lemma {:induction false} RefreshedTells(books: map<BookId, Book>, lines: seq<Line>)
    ensures Tells(Refreshed(books, lines), Stocks(books))
  {
    if lines != [] { RefreshedTells(books, lines[..|lines| - 1]); }
  }

  lemma {:induction false} RefreshedBooks(books: map<BookId, Book>, lines: seq<Line>)
    requires forall k :: 0 <= k < |lines| ==> lines[k].book in books
    ensures |Refreshed(books, lines)| == |lines|
    ensures forall k :: 0 <= k < |lines| ==> Refreshed(books, lines)[k].book == lines[k].book
  {
    if lines != [] { RefreshedBooks(books, lines[..|lines| - 1]); }
  }

  // ----- which stocks a request changes, and which books its route pushes

  predicate Visits(lines: seq<Line>, b: BookId) { exists k :: 0 <= k < |lines| && lines[k].book == b }

  // The lines of a checkout's cart or of a cancel's order.
  ghost function LinesMoved(t: Tables, r: Request): seq<Line>
    requires Enabled(t, r) && (r.Checkout? || (r.Cancel? && r.oid in t.orders))
  {
    if r.Checkout? then LinesOf(t.items, r.listing) else Plain(t.orders[r.oid].lines)
  }

  /** The request changes the stock of b: a checkout or a cancel of a line of b, an update of
      b's stock to another value, a creation or a deletion of b. */
  ghost predicate Changes(t: Tables, r: Request, b: BookId)
    requires Enabled(t, r)
  {
    Succeeds(t, r) &&
    match r
    case Checkout(_, _, _) => Visits(LinesMoved(t, r), b)
    case Cancel(_, _) => Visits(LinesMoved(t, r), b)
    case UpdateBook(b', s, _, _) => b' == b && s.Set? && s.value != t.books[b].stock
    case CreateBook(b', _, _, _) => b' == b
    case DeleteBook(b') => b' == b
    case _ => false
  }

  /** The books the route of a request pushes, in order. */
  ghost function PushedBooks(t: Tables, r: Request): seq<BookId>
    requires Enabled(t, r)
  {
    if !Succeeds(t, r) then []
    else if r.Checkout? || r.Cancel? then
      var lines := LinesMoved(t, r);
      seq(|lines|, k requires 0 <= k < |lines| => lines[k].book)
    else if r.CreateBook? || r.UpdateBook? || r.DeleteBook? then [r.book]
    else []
  }

  lemma LinesKeepStocks(t: Tables, lines: seq<Line>, b: BookId)
    requires AllPositive(lines)
    ensures Demand(lines, b) >= 0
    ensures Visits(lines, b) <==> Demand(lines, b) != 0
  {
    if k :| 0 <= k < |lines| && lines[k].book == b {
      DemandStep(lines, k, b);
      DemandMonotone(lines, k, b);
      DemandMonotone(lines, k + 1, b);
    } else {
      DemandOutside(lines, b);
    }
  }

  lemma MovedLines(t: Tables, r: Request)
    requires Inv(t) && Enabled(t, r) && Succeeds(t, r) && (r.Checkout? || r.Cancel?)
    ensures var lines := LinesMoved(t, r);
            && AllPositive(lines) && (forall k :: 0 <= k < |lines| ==> lines[k].book in t.books)
            && r.oid in Apply(t, r).orders && Plain(Apply(t, r).orders[r.oid].lines) == lines
  {
    if r.Checkout? {
      GuardsNeverFire(t, r.user, r.listing);
    } else {
      OrderedQuantities(t.orders[r.oid]);
      forall k | 0 <= k < |LinesMoved(t, r)| ensures LinesMoved(t, r)[k].book in t.books {
        assert t.orders[r.oid].lines[k].line.book in t.books;
      }
    }
  }

  lemma LinesChange(t: Tables, r: Request, b: BookId)
    requires Inv(t) && Enabled(t, r) && Succeeds(t, r) && (r.Checkout? || r.Cancel?)
    ensures Changes(t, r, b) <==> !SameAt(Stocks(t.books), Stocks(Apply(t, r).books), b)
  {
    MovedLines(t, r);
    LinesKeepStocks(t, LinesMoved(t, r), b);
  }

  /** A stock changes exactly when the request says so. */
  lemma ChangesIff(t: Tables, r: Request, b: BookId)
    requires Inv(t) && Enabled(t, r)
    ensures Changes(t, r, b) <==> !SameAt(Stocks(t.books), Stocks(Apply(t, r).books), b)
  {
    if Succeeds(t, r) && (r.Checkout? || r.Cancel?) { LinesChange(t, r, b); }
  }

  lemma ChangesArePushed(t: Tables, r: Request, b: BookId)
    requires Enabled(t, r) && Changes(t, r, b)
    ensures b in PushedBooks(t, r)
  {
    if r.Checkout? || r.Cancel? {
      var k :| 0 <= k < |LinesMoved(t, r)| && LinesMoved(t, r)[k].book == b;
      assert PushedBooks(t, r)[k] == b;
    }
  }

  lemma LinesPublished(t: Tables, r: Request)
    requires Inv(t) && Enabled(t, r) && Succeeds(t, r) && (r.Checkout? || r.Cancel?)
    ensures Tells(Published(t, r), Stocks(Apply(t, r).books))
    ensures |Published(t, r)| == |PushedBooks(t, r)|
    ensures forall k :: 0 <= k < |Published(t, r)| ==> Published(t, r)[k].book == PushedBooks(t, r)[k]
  {
    MovedLines(t, r);
    RefreshedTells(Apply(t, r).books, LinesMoved(t, r));
    RefreshedBooks(Apply(t, r).books, LinesMoved(t, r));
  }

  /** A route pushes the stocks its request has left, of the books it names. */
  lemma PublishedTells(t: Tables, r: Request)
    requires Inv(t) && Enabled(t, r)
    ensures Tells(Published(t, r), Stocks(Apply(t, r).books))
    ensures |Published(t, r)| == |PushedBooks(t, r)|
    ensures forall k :: 0 <= k < |Published(t, r)| ==> Published(t, r)[k].book == PushedBooks(t, r)[k]
  {
    if Succeeds(t, r) && (r.Checkout? || r.Cancel?) { LinesPublished(t, r); }
  }

  // Some push of b goes through.
  ghost predicate Heard(t: Tables, r: Request, up: nat -> bool, b: BookId)
    requires Enabled(t, r)
  {
    exists k :: 0 <= k < |PushedBooks(t, r)| && up(k) && PushedBooks(t, r)[k] == b
  }

  /** The cache after a request: right about the books it heard of, as before about others. */
  lemma CacheAfter(t: Tables, cache: StockMap, r: Request, up: nat -> bool, b: BookId)
    requires Inv(t) && Enabled(t, r)
    ensures SameAt(Fold(cache, Kept(Published(t, r), up)),
                   if Heard(t, r, up, b) then Stocks(Apply(t, r).books) else cache, b)
  {
    PublishedTells(t, r);
    FoldTold(cache, Stocks(Apply(t, r).books), Published(t, r), up, b);
    HeardIsNamed(t, r, up, b);
  }

  lemma HeardIsNamed(t: Tables, r: Request, up: nat -> bool, b: BookId)
    requires Enabled(t, r) && |Published(t, r)| == |PushedBooks(t, r)|
    requires forall k :: 0 <= k < |Published(t, r)| ==> Published(t, r)[k].book == PushedBooks(t, r)[k]
    ensures Heard(t, r, up, b) <==> Names(Published(t, r), up, b)
  {
    if k :| 0 <= k < |PushedBooks(t, r)| && up(k) && PushedBooks(t, r)[k] == b { assert Published(t, r)[k].book == b; }
    if Names(Published(t, r), up, b) {
      var k :| 0 <= k < |Published(t, r)| && up(k) && Published(t, r)[k].book == b;
      assert PushedBooks(t, r)[k] == b;
    }
  }

  lemma AllHeard(t: Tables, r: Request, b: BookId)
    requires Enabled(t, r) && Changes(t, r, b)
    ensures Heard(t, r, NO_LOSS, b)
  {
    ChangesArePushed(t, r, b);
    var k :| 0 <= k < |PushedBooks(t, r)| && PushedBooks(t, r)[k] == b;
    assert NO_LOSS(k);
  }

  /** Folding what a request's route publishes over the stocks before it gives the stocks
      after it: each route refreshes exactly the books its service changed. */
  lemma PublishedReplays(t: Tables, r: Request)
    requires Inv(t) && Enabled(t, r)
    ensures Fold(Stocks(t.books), Published(t, r)) == Stocks(Apply(t, r).books)
  {
    var m := Stocks(Apply(t, r).books);
    KeptAll(Published(t, r));
    forall b ensures SameAt(Fold(Stocks(t.books), Published(t, r)), m, b) {
      CacheAfter(t, Stocks(t.books), r, NO_LOSS, b);
      ChangesIff(t, r, b);
      if Changes(t, r, b) { AllHeard(t, r, b); }
    }
    SameMaps(Fold(Stocks(t.books), Published(t, r)), m);
  }

  lemma SameMaps(c: StockMap, m: StockMap)
    requires forall b :: SameAt(c, m, b)
    ensures c == m
  {
    forall b ensures (b in c <==> b in m) && (b in c ==> c[b] == m[b]) { assert SameAt(c, m, b); }
  }

  // ----- the cache is a part of the stocks

  predicate PartAt(c: StockMap, m: StockMap, b: BookId) { b in c ==> b in m && c[b] == m[b] }

  /** Every cached stock is the database stock of an existing book. */
  ghost predicate Coherent(t: Tables, cache: StockMap) { forall b :: PartAt(cache, Stocks(t.books), b) }

  /** The pushes Redis loses leave the cache right exactly when at least one push of every
      cached book whose stock changes goes through. */
  lemma LostPushesHarmlessIff(t: Tables, cache: StockMap, r: Request, up: nat -> bool)
    requires Inv(t) && Enabled(t, r) && Coherent(t, cache)
    ensures Coherent(Apply(t, r), Fold(cache, Kept(Published(t, r), up))) <==>
            forall b :: b in cache && Changes(t, r, b) ==> Heard(t, r, up, b)
  {
    var after, m := Fold(cache, Kept(Published(t, r), up)), Stocks(Apply(t, r).books);
    forall b ensures PartAt(after, m, b) <==> (b in cache && Changes(t, r, b) ==> Heard(t, r, up, b)) {
      CacheAfter(t, cache, r, up, b);
      ChangesIff(t, r, b);
      assert PartAt(cache, Stocks(t.books), b);
    }
  }

  /** Routes push before their transaction commits. When the commit then fails, the cache is
      right exactly when every push that went through was of an unchanged stock or of a
      deleted book. */
  lemma FailedCommitHarmlessIff(t: Tables, cache: StockMap, r: Request, up: nat -> bool)
    requires Inv(t) && Enabled(t, r) && Coherent(t, cache)
    ensures Coherent(t, Fold(cache, Kept(Published(t, r), up))) <==>
            forall b :: Heard(t, r, up, b) ==> r.DeleteBook? || !Changes(t, r, b)
  {
    var after, m := Fold(cache, Kept(Published(t, r), up)), Stocks(t.books);
    forall b ensures PartAt(after, m, b) <==> (Heard(t, r, up, b) ==> r.DeleteBook? || !Changes(t, r, b)) {
      CacheAfter(t, cache, r, up, b);
      ChangesIff(t, r, b);
      HeardExists(t, r, up, b);
      assert PartAt(cache, m, b);
    }
  }

  lemma HeardExists(t: Tables, r: Request, up: nat -> bool, b: BookId)
    requires Inv(t) && Enabled(t, r)
    ensures Heard(t, r, up, b) ==> (b in Apply(t, r).books <==> !r.DeleteBook?)
  {
    if Succeeds(t, r) && (r.Checkout? || r.Cancel?) { MovedLines(t, r); }
  }

  // ----- reads through the cache

  // hydrate_book sets the mapped book's stock, and get_db then commits the session.
  function WroteBack(books: map<BookId, Book>, cache: StockMap, ids: seq<BookId>): map<BookId, Book> {
    map b | b in books :: if b in ids && b in cache then books[b].(stock := cache[b]) else books[b]
  }

  /** Reading books through the cache leaves the database alone exactly when every cached
      stock among them is the database's. */
  lemma ReadIsHarmlessIff(books: map<BookId, Book>, cache: StockMap, ids: seq<BookId>)
    ensures WroteBack(books, cache, ids) == books <==>
            forall b :: b in ids && b in cache && b in books ==> cache[b] == books[b].stock
  {
    if WroteBack(books, cache, ids) == books {
      forall b | b in ids && b in cache && b in books ensures cache[b] == books[b].stock {
        assert WroteBack(books, cache, ids)[b] == books[b];
      }
    }
  }

  /** After a request whose pushes Redis partly lost, a read puts an old stock back into the
      database exactly when it reads a cached book whose stock the request changed and whose
      pushes were all lost. */
  lemma ReadAfterLossHarmlessIff(t: Tables, cache: StockMap, r: Request, up: nat -> bool, ids: seq<BookId>)
    requires Inv(t) && Enabled(t, r) && Coherent(t, cache)
    ensures var books, after := Apply(t, r).books, Fold(cache, Kept(Published(t, r), up));
            WroteBack(books, after, ids) == books <==>
            r.DeleteBook? || forall b :: b in ids && b in cache && Changes(t, r, b) ==> Heard(t, r, up, b)
  {
    var books, after := Apply(t, r).books, Fold(cache, Kept(Published(t, r), up));
    ReadIsHarmlessIff(books, after, ids);
    forall b ensures (b in after && b in books ==> after[b] == books[b].stock) <==>
                     (r.DeleteBook? || (b in cache && Changes(t, r, b) ==> Heard(t, r, up, b))) {
      RightIff(t, cache, r, up, b);
    }
  }

  lemma RightIff(t: Tables, cache: StockMap, r: Request, up: nat -> bool, b: BookId)
    requires Inv(t) && Enabled(t, r) && Coherent(t, cache)
    ensures var books, after := Apply(t, r).books, Fold(cache, Kept(Published(t, r), up));
            (b in after && b in books ==> after[b] == books[b].stock) <==>
            r.DeleteBook? || (b in cache && Changes(t, r, b) ==> Heard(t, r, up, b))
  {
    CacheAfter(t, cache, r, up, b);
    ChangesIff(t, r, b);
    assert PartAt(cache, Stocks(t.books), b);
    if b in t.books { StaysUnlessDeleted(t, r, b); }
  }

  lemma StaysUnlessDeleted(t: Tables, r: Request, b: BookId)
    requires Enabled(t, r) && b in t.books
    ensures b in Apply(t, r).books <==> !(Succeeds(t, r) && r.DeleteBook? && r.book == b)
  {
  }

  /** Such a read puts back the very stock the book had before the request, and commits it. */
  lemma ReadAfterLossReverts(t: Tables, cache: StockMap, r: Request, up: nat -> bool, b: BookId)
    requires Inv(t) && Enabled(t, r) && Coherent(t, cache)
    requires b in cache && Changes(t, r, b) && !Heard(t, r, up, b) && !r.DeleteBook?
    ensures b in t.books && b in Apply(t, r).books
    ensures var books, after := Apply(t, r).books, Fold(cache, Kept(Published(t, r), up));
            WroteBack(books, after, [b])[b].stock == t.books[b].stock != books[b].stock
  {
    CacheAfter(t, cache, r, up, b);
    ChangesIff(t, r, b);
    assert PartAt(cache, Stocks(t.books), b);
    StaysUnlessDeleted(t, r, b);
  }

  // Every Redis call fails.
  const OUTAGE: nat -> bool := _ => false

  lemma SaleInOutage(t: Tables, r: Request)
    requires t == Shop(1) && r == Buy(1, 100)
    ensures Inv(t) && Enabled(t, r) && Coherent(t, map[7 := 1])
    ensures Changes(t, r, 7) && !Heard(t, r, OUTAGE, 7)
    ensures Apply(t, r).books == map[7 := Book(0, 500)] && Apply(t, r).orders == map[100 := Bought(1)]
  {
    ShopInv(1);
    BuyOne(1);
    ChangesIff(t, r, 7);
  }

  /** The last copy is sold while Redis is down. The next read of the book takes the old stock
      from the cache and commits it: one copy in an order, and one on the shelf again. */
  lemma ReadAfterLossRestoresSoldCopy()
    ensures var t, cache, r := Shop(1), map[7 := 1], Buy(1, 100);
            && Inv(t) && Enabled(t, r) && Coherent(t, cache) && Supply(t, 7) == 1
            && 7 in Apply(t, r).books && Apply(t, r).books[7].stock == 0
            && var books := WroteBack(Apply(t, r).books, Fold(cache, Kept(Published(t, r), OUTAGE)), [7]);
            && books[7].stock == 1 && Supply(Apply(t, r).(books := books), 7) == 2
  {
    var t, r := Shop(1), Buy(1, 100);
    SaleInOutage(t, r);
    ReadAfterLossReverts(t, map[7 := 1], r, OUTAGE, 7);
    LiveCopies(100, 200, 1, 2);
  }

  // ----- runs of whole requests

  datatype Call = Change(req: Request, up: nat -> bool) | Read(ids: seq<BookId>) | Evict(book: BookId)

  /** The tables, the cache, and the events sent since some moment. */
  datatype Site = Site(db: Tables, cache: StockMap, sent: seq<StockEvent>)

  ghost predicate CanServe(s: Site, c: Call) { c.Change? ==> Enabled(s.db, c.req) }

  ghost function Serve(s: Site, c: Call): Site
    requires CanServe(s, c)
  {
    match c
    case Change(r, up) =>
      var es := Published(s.db, r);
      Site(Apply(s.db, r), Fold(s.cache, Kept(es, up)), s.sent + es)
    case Read(ids) => s.(db := s.db.(books := WroteBack(s.db.books, s.cache, ids)))
    case Evict(b) => s.(cache := s.cache - {b})
  }

  // A book that is not cached is shown, and left, as it is in the database.
  lemma EvictedIsReadFromDatabase(s: Site, b: BookId)
    ensures Serve(Serve(s, Evict(b)), Read([b])).db == s.db
  {
    ReadIsHarmlessIff(s.db.books, s.cache - {b}, [b]);
  }

  // Redis loses no push, or only pushes it can afford to lose.
  ghost predicate Harmless(s: Site, c: Call)
    requires CanServe(s, c)
  {
    c.Change? ==> forall b :: b in s.cache && Changes(s.db, c.req, b) ==> Heard(s.db, c.req, c.up, b)
  }

  lemma NoLossIsHarmless(s: Site, r: Request)
    requires Enabled(s.db, r)
    ensures Harmless(s, Change(r, NO_LOSS))
  {
    forall b | b in s.cache && Changes(s.db, r, b) ensures Heard(s.db, r, NO_LOSS, b) { AllHeard(s.db, r, b); }
  }

  ghost predicate Serves(s: Site, cs: seq<Call>)
    decreases |cs|, 0
  {
    cs == [] || (
      && Serves(s, cs[..|cs| - 1])
      && CanServe(ServeAll(s, cs[..|cs| - 1]), cs[|cs| - 1])
      && Harmless(ServeAll(s, cs[..|cs| - 1]), cs[|cs| - 1]))
  }

  ghost function ServeAll(s: Site, cs: seq<Call>): Site
    requires Serves(s, cs)
    decreases |cs|, 1
  {
    if cs == [] then s else Serve(ServeAll(s, cs[..|cs| - 1]), cs[|cs| - 1])
  }

  function Changed(cs: seq<Call>): seq<Request> {
    if cs == [] then []
    else Changed(cs[..|cs| - 1]) + if cs[|cs| - 1].Change? then [cs[|cs| - 1].req] else []
  }

  lemma ServeKeepsCoherence(s: Site, c: Call)
    requires Inv(s.db) && Coherent(s.db, s.cache) && CanServe(s, c) && Harmless(s, c)
    ensures Coherent(Serve(s, c).db, Serve(s, c).cache)
    ensures !c.Change? ==> Serve(s, c).db == s.db
  {
    match c
    case Change(r, up) => LostPushesHarmlessIff(s.db, s.cache, r, up);
    case Read(ids) =>
      ReadIsHarmlessIff(s.db.books, s.cache, ids);
      assert forall b :: b in s.cache ==> PartAt(s.cache, Stocks(s.db.books), b);
    case Evict(b) => assert forall x :: PartAt(s.cache, Stocks(s.db.books), x) ==> PartAt(s.cache - {b}, Stocks(s.db.books), x);
  }

  /** In a run of whole requests, as long as Redis loses no push of a cached book whose stock
      changes, the cache always agrees with the database, the tables evolve as if there were
      no cache, and the events sent fold the stocks at the start to the current stocks. */
  lemma {:induction false} CacheAndEventsAgree(s: Site, cs: seq<Call>)
    requires Inv(s.db) && Coherent(s.db, s.cache) && s.sent == [] && Serves(s, cs)
    ensures var end := ServeAll(s, cs);
            && Coherent(end.db, end.cache)
            && Runs(s.db, Changed(cs)) && end.db == Exec(s.db, Changed(cs))
            && Fold(Stocks(s.db.books), end.sent) == Stocks(end.db.books)
  {
    if cs != [] {
      var n := |cs| - 1;
      var mid, c := ServeAll(s, cs[..n]), cs[n];
      CacheAndEventsAgree(s, cs[..n]);
      InvInRuns(s.db, Changed(cs[..n]));
      ServeKeepsCoherence(mid, c);
      if c.Change? {
        PublishedReplays(mid.db, c.req);
        FoldConcat(Stocks(s.db.books), mid.sent, Published(mid.db, c.req));
        assert (Changed(cs[..n]) + [c.req])[..|Changed(cs[..n])|] == Changed(cs[..n]);
      } else {
        assert Changed(cs[..n]) + [] == Changed(cs[..n]);
      }
    }
  }

  // A run in which every request is possible and no Redis call fails.
  ghost predicate FaultFree(s: Site, cs: seq<Call>)
    decreases |cs|, 0
  {
    cs == [] || (
      && FaultFree(s, cs[..|cs| - 1])
      && CanServe(ServeFaultFree(s, cs[..|cs| - 1]), cs[|cs| - 1])
      && (cs[|cs| - 1].Change? ==> cs[|cs| - 1].up == NO_LOSS))
  }

  ghost function ServeFaultFree(s: Site, cs: seq<Call>): Site
    requires FaultFree(s, cs)
    decreases |cs|, 1
  {
    if cs == [] then s else Serve(ServeFaultFree(s, cs[..|cs| - 1]), cs[|cs| - 1])
  }

  lemma {:induction false} FaultFreeServes(s: Site, cs: seq<Call>)
    requires FaultFree(s, cs)
    ensures Serves(s, cs) && ServeAll(s, cs) == ServeFaultFree(s, cs)
  {
    if cs != [] {
      var mid, c := ServeFaultFree(s, cs[..|cs| - 1]), cs[|cs| - 1];
      FaultFreeServes(s, cs[..|cs| - 1]);
      if c.Change? { NoLossIsHarmless(mid, c.req); }
    }
  }

  /** In every run without faults, cache and events agree with the database. */
  lemma FaultFreeRunsAgree(s: Site, cs: seq<Call>)
    requires Inv(s.db) && Coherent(s.db, s.cache) && s.sent == [] && FaultFree(s, cs)
    ensures var end := ServeFaultFree(s, cs);
            && Coherent(end.db, end.cache)
            && Runs(s.db, Changed(cs)) && end.db == Exec(s.db, Changed(cs))
            && Fold(Stocks(s.db.books), end.sent) == Stocks(end.db.books)
  {
    FaultFreeServes(s, cs);
    CacheAndEventsAgree(s, cs);
  }
}
