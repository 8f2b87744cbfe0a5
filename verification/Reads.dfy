/** Reads of books in flight beside the requests that change them. A GET loads its books, sets
    each book's stock from the cache, one Redis call after another, and commits the stocks that
    now differ from what it loaded. A request that changes books pushes to cache and hub before
    it commits; one such request is in flight at a time. */
module Reads {
  import opened Domain
  import opened Requests
  import opened Ledger
  import opened Inventory
  import opened Scenarios

  type ReadId = nat

  /** A GET in flight: the stocks it loaded, and those its session will write. */
  datatype Get = Get(loaded: StockMap, dirty: StockMap)

  /** `pending` is the request that has pushed but not committed; `log` the committed ones. */
  datatype Desk = Desk(db: Tables, cache: StockMap, sent: seq<StockEvent>, pending: Option<Request>,
                       gets: map<ReadId, Get>, log: seq<Request>)

  datatype Move = Post(req: Request, up: nat -> bool) | Land | Load(id: ReadId, ids: seq<BookId>)
                | Hydrate(id: ReadId, book: BookId) | Finish(id: ReadId)

  // The tables as they are once the pending request has committed.
  ghost function Ahead(d: Desk): Tables
    requires d.pending.Some? ==> Enabled(d.db, d.pending.value)
  {
    if d.pending.Some? then Apply(d.db, d.pending.value) else d.db
  }

  ghost predicate CanMove(d: Desk, m: Move) {
    match m
    case Post(r, _) => d.pending.None? && Enabled(d.db, r)
    case Land => d.pending.Some? && Enabled(d.db, d.pending.value)
    case Load(id, _) => id !in d.gets
    case Hydrate(id, b) => id in d.gets && b in d.gets[id].loaded
    case Finish(id) => id in d.gets && NotLocked(d, d.gets[id].dirty)
  }

  // The pending request has locked the rows it changes.
  ghost predicate NotLocked(d: Desk, dirty: StockMap) {
    d.pending.Some? ==>
      Enabled(d.db, d.pending.value) && forall b :: b in dirty ==> !Changes(d.db, d.pending.value, b)
  }

  function Loaded(books: map<BookId, Book>, ids: seq<BookId>): StockMap {
    map b | b in books && b in ids :: books[b].stock
  }

  // Only a stock that differs from the loaded one is written.
  function Hydrated(g: Get, cache: StockMap, b: BookId): Get
    requires b in g.loaded
  {
    if b !in cache then g
    else if cache[b] != g.loaded[b] then g.(dirty := g.dirty[b := cache[b]])
    else g.(dirty := g.dirty - {b})
  }

  // The write of a row that is gone raises, and the session rolls back.
  function Flushed(books: map<BookId, Book>, dirty: StockMap): map<BookId, Book> {
    if dirty.Keys <= books.Keys
    then map b | b in books :: if b in dirty then books[b].(stock := dirty[b]) else books[b]
    else books
  }

  ghost function After(d: Desk, m: Move): Desk
    requires CanMove(d, m)
  {
    match m
    case Post(r, up) =>
      var es := Published(d.db, r);
      d.(cache := Fold(d.cache, Kept(es, up)), sent := d.sent + es, pending := Some(r))
    case Land => d.(db := Apply(d.db, d.pending.value), pending := None, log := d.log + [d.pending.value])
    case Load(id, ids) => d.(gets := d.gets[id := Get(Loaded(d.db.books, ids), map[])])
    case Hydrate(id, b) => d.(gets := d.gets[id := Hydrated(d.gets[id], d.cache, b)])
    case Finish(id) => d.(db := d.db.(books := Flushed(d.db.books, d.gets[id].dirty)), gets := d.gets - {id})
  }

  // ----- one GET

  /** The commit of a GET changes nothing exactly when a book it would write is gone, or each
      stock it would write, as hydrated, is still the committed one. */
  lemma FinishHarmlessIff(d: Desk, id: ReadId)
    requires CanMove(d, Finish(id))
    ensures var dirty := d.gets[id].dirty;
            After(d, Finish(id)).db == d.db <==>
            (exists b :: b in dirty && b !in d.db.books) || (forall b :: b in dirty ==> dirty[b] == d.db.books[b].stock)
  {
    var dirty, books := d.gets[id].dirty, d.db.books;
    if dirty.Keys <= books.Keys {
      forall b | b in dirty && Flushed(books, dirty) == books ensures dirty[b] == books[b].stock {
        assert Flushed(books, dirty)[b] == books[b];
      }
      if forall b :: b in dirty ==> dirty[b] == books[b].stock { assert Flushed(books, dirty) == books; }
    } else {
      var b :| b in dirty && b !in books;
    }
  }

  // What a GET that nobody interrupts has to write.
  function AllDirty(books: map<BookId, Book>, cache: StockMap, ids: seq<BookId>): StockMap {
    map b | b in books && b in ids && b in cache && cache[b] != books[b].stock :: cache[b]
  }

  /** Whatever was assigned before, a cached book is written exactly when its cached stock
      differs from the loaded one, and then with the cached stock. */
  lemma LastHydrationCounts(g: Get, cache: StockMap, b: BookId)
    requires b in g.loaded && b in cache
    ensures var dirty := Hydrated(g, cache, b).dirty;
            && (b in dirty <==> cache[b] != g.loaded[b]) && (b in dirty ==> dirty[b] == cache[b])
            && (forall c :: c != b ==> (c in dirty <==> c in g.dirty) && (c in g.dirty ==> dirty[c] == g.dirty[c]))
  {
  }

  function HydratedAll(g: Get, cache: StockMap, ids: seq<BookId>): (r: Get)
    requires forall b :: b in ids ==> b in g.loaded
    ensures r.loaded == g.loaded
  {
    if ids == [] then g else Hydrated(HydratedAll(g, cache, ids[..|ids| - 1]), cache, ids[|ids| - 1])
  }

  /** Hydrating the loaded books one by one leaves exactly the differing stocks to write. */
  lemma {:induction false} HydratedAllIs(books: map<BookId, Book>, loaded: seq<BookId>, cache: StockMap, ids: seq<BookId>)
    requires forall b :: b in ids ==> b in loaded && b in books
    ensures HydratedAll(Get(Loaded(books, loaded), map[]), cache, ids).dirty == AllDirty(books, cache, ids)
  {
    if ids != [] {
      HydratedAllIs(books, loaded, cache, ids[..|ids| - 1]);
      assert forall b :: b in ids <==> b in ids[..|ids| - 1] || b == ids[|ids| - 1];
    }
  }

  /** A GET that runs alone does what a whole read does. */
  lemma AloneIsWholeRead(books: map<BookId, Book>, cache: StockMap, ids: seq<BookId>)
    ensures Flushed(books, AllDirty(books, cache, ids)) == WroteBack(books, cache, ids)
  {
  }

  // ----- runs

  ghost predicate MovesOn(d: Desk, ms: seq<Move>)
    decreases |ms|, 0
  {
    ms == [] || (MovesOn(d, ms[..|ms| - 1]) && CanMove(End(d, ms[..|ms| - 1]), ms[|ms| - 1]))
  }

  ghost function End(d: Desk, ms: seq<Move>): Desk
    requires MovesOn(d, ms)
    decreases |ms|, 1
  {
    if ms == [] then d else After(End(d, ms[..|ms| - 1]), ms[|ms| - 1])
  }

  /** Every move of the run satisfies p at the desk it is made at. */
  ghost predicate Always(d: Desk, ms: seq<Move>, p: (Desk, Move) -> bool)
    requires MovesOn(d, ms)
  {
    ms == [] || (Always(d, ms[..|ms| - 1], p) && p(End(d, ms[..|ms| - 1]), ms[|ms| - 1]))
  }

  // Redis loses no push it cannot afford to lose, and a GET's commit changes nothing.
  ghost predicate Benign(d: Desk, m: Move) {
    CanMove(d, m) ==>
      && (m.Post? ==> forall b :: b in d.cache && Changes(d.db, m.req, b) ==> Heard(d.db, m.req, m.up, b))
      && (m.Finish? ==> After(d, m).db == d.db)
  }

  ghost predicate Opened(d: Desk) {
    Inv(d.db) && Coherent(d.db, d.cache) && d.sent == [] && d.pending == None && d.gets == map[] && d.log == []
  }

  // Cache and events agree with the tables, counting the pending request as committed.
  ghost predicate Agrees(start: Tables, d: Desk) {
    && Inv(d.db) && (d.pending.Some? ==> Enabled(d.db, d.pending.value))
    && Coherent(Ahead(d), d.cache)
    && Fold(Stocks(start.books), d.sent) == Stocks(Ahead(d).books)
  }

  lemma AgreesStep(start: Tables, d: Desk, m: Move)
    requires Agrees(start, d) && CanMove(d, m) && Benign(d, m)
    ensures Agrees(start, After(d, m))
  {
    match m
    case Post(r, up) =>
      LostPushesHarmlessIff(d.db, d.cache, r, up);
      PublishedReplays(d.db, r);
      FoldConcat(Stocks(start.books), d.sent, Published(d.db, r));
    case Land => InvKept(d.db, d.pending.value);
    case _ => assert After(d, m).db == d.db;
  }

  /** With any number of GETs in flight, as long as each of their commits meets the condition
      of FinishHarmlessIff, the tables evolve as if there were no GETs, and cache and events
      agree with them. */
  lemma {:induction false} GetsAgree(d: Desk, ms: seq<Move>)
    requires Opened(d) && MovesOn(d, ms) && Always(d, ms, Benign)
    ensures Agrees(d.db, End(d, ms))
    ensures Runs(d.db, End(d, ms).log) && End(d, ms).db == Exec(d.db, End(d, ms).log)
  {
    if ms != [] {
      var mid, m := End(d, ms[..|ms| - 1]), ms[|ms| - 1];
      GetsAgree(d, ms[..|ms| - 1]);
      AgreesStep(d.db, mid, m);
      if m.Land? { assert After(mid, m).log[..|mid.log|] == mid.log; }
    }
  }

  // ----- which runs have only harmless GETs

  // No request changes a stock that a GET in flight has hydrated and will write.
  ghost predicate Steady(d: Desk, m: Move) {
    CanMove(d, m) && m.Post? ==>
      && (forall b :: b in d.cache && Changes(d.db, m.req, b) ==> Heard(d.db, m.req, m.up, b))
      && (forall id, b :: id in d.gets && b in d.gets[id].dirty ==> !Changes(d.db, m.req, b))
  }

  // What the GET will write is what the books have.
  predicate Writes(books: map<BookId, Book>, g: Get) {
    forall b :: b in g.dirty ==> b in books && g.dirty[b] == books[b].stock
  }

  ghost predicate Settled(d: Desk)
    requires d.pending.Some? ==> Enabled(d.db, d.pending.value)
  {
    forall id :: id in d.gets ==> Writes(Ahead(d).books, d.gets[id])
  }

  lemma SettledFinish(start: Tables, d: Desk, id: ReadId)
    requires Agrees(start, d) && Settled(d) && CanMove(d, Finish(id))
    ensures After(d, Finish(id)).db == d.db
  {
    var dirty := d.gets[id].dirty;
    forall b | b in dirty ensures b in d.db.books && dirty[b] == d.db.books[b].stock {
      if d.pending.Some? { ChangesIff(d.db, d.pending.value, b); }
    }
    FinishHarmlessIff(d, id);
  }

  lemma PostSettled(t: Tables, r: Request, g: Get)
    requires Inv(t) && Enabled(t, r) && Writes(t.books, g)
    requires forall b :: b in g.dirty ==> !Changes(t, r, b)
    ensures Writes(Apply(t, r).books, g)
  {
    forall b | b in g.dirty ensures b in Apply(t, r).books && g.dirty[b] == Apply(t, r).books[b].stock {
      ChangesIff(t, r, b);
    }
  }

  lemma HydrateSettled(t: Tables, g: Get, cache: StockMap, b: BookId)
    requires Writes(t.books, g) && Coherent(t, cache) && b in g.loaded
    ensures Writes(t.books, Hydrated(g, cache, b))
  {
    assert PartAt(cache, Stocks(t.books), b);
  }

  lemma StillSettled(start: Tables, d: Desk, m: Move)
    requires Agrees(start, d) && Settled(d) && CanMove(d, m) && Steady(d, m)
    requires Agrees(start, After(d, m)) && (m.Finish? ==> After(d, m).db == d.db)
    ensures Settled(After(d, m))
  {
    if m.Post? {
      forall id | id in d.gets ensures Writes(Apply(d.db, m.req).books, d.gets[id]) { PostSettled(d.db, m.req, d.gets[id]); }
    } else if m.Hydrate? {
      HydrateSettled(Ahead(d), d.gets[m.id], d.cache, m.book);
    }
  }

  lemma SettledStep(start: Tables, d: Desk, m: Move)
    requires Agrees(start, d) && Settled(d) && CanMove(d, m) && Steady(d, m)
    ensures Agrees(start, After(d, m)) && Benign(d, m) && Settled(After(d, m))
  {
    if m.Finish? { SettledFinish(start, d, m.id); }
    AgreesStep(start, d, m);
    StillSettled(start, d, m);
  }

  /** GETs are harmless in every run in which no request changes a stock that a GET in flight
      has hydrated and is going to write. */
  lemma {:induction false} SteadyGetsAreHarmless(d: Desk, ms: seq<Move>)
    requires Opened(d) && MovesOn(d, ms) && Always(d, ms, Steady)
    ensures Always(d, ms, Benign) && Agrees(d.db, End(d, ms)) && Settled(End(d, ms))
  {
    if ms != [] {
      SteadyGetsAreHarmless(d, ms[..|ms| - 1]);
      SettledStep(d.db, End(d, ms[..|ms| - 1]), ms[|ms| - 1]);
    }
  }
}
