/** The book and order routes: service call, pushes to the cache and to the hub, commit. */
module Routes {
  import opened Domain
  import opened Requests
  import opened Persistence
  import opened Api
  import opened Inventory

  class InventoryCache {
    var entries: StockMap

    constructor ()
      ensures entries == map[]
    {
      entries := map[];
    }

    method GetStock(b: BookId) returns (r: Option<int>)
      ensures r == if b in entries then Some(entries[b]) else None
    {
      r := if b in entries then Some(entries[b]) else None;
    }

    method SetStock(b: BookId, stock: int)
      modifies this
      ensures entries == old(entries)[b := stock]
    {
      entries := entries[b := stock];
    }

    method DeleteStock(b: BookId)
      modifies this
      ensures entries == old(entries) - {b}
    {
      entries := entries - {b};
    }

    // Set each loaded book's stock from the cache; the session writes it at its next flush.
    method HydrateBooks(books: map<BookId, Book>, ids: seq<BookId>) returns (dirty: map<BookId, Book>)
      ensures dirty == WroteBack(books, entries, ids)
    {
      dirty := books;
      for i := 0 to |ids|
        invariant dirty == WroteBack(books, entries, ids[..i])
      {
        var cached := GetStock(ids[i]);
        assert forall b :: b in ids[..i + 1] <==> b in ids[..i] || b == ids[i];
        if cached.Some? && ids[i] in dirty {
          dirty := dirty[ids[i] := dirty[ids[i]].(stock := cached.value)];
        }
      }
      assert ids[..|ids|] == ids;
    }
  }

  class App {
    const db: Session
    const api: Endpoint
    const cache: InventoryCache
    var sent: seq<StockEvent>  // every message broadcast to the hub

    ghost predicate Wired() { api.db == db && api.Wired() }

    constructor (db: Session)
      ensures Wired() && this.db == db && cache.entries == map[] && sent == [] && fresh(cache)
    {
      this.db := db;
      api := new Endpoint(db);
      cache := new InventoryCache();
      sent := [];
    }

    // `up` says whether the Redis call goes through; its error is suppressed.
    method StoreBookStock(b: BookId, stock: int, up: bool)
      modifies this`sent, cache
      ensures cache.entries == if up then Observe(old(cache.entries), Updated(b, stock)) else old(cache.entries)
      ensures sent == old(sent) + [Updated(b, stock)]
    {
      if up { cache.SetStock(b, stock); }
      sent := sent + [Updated(b, stock)];
    }

    method DeleteBookStock(b: BookId, up: bool)
      modifies this`sent, cache
      ensures cache.entries == if up then Observe(old(cache.entries), Deleted(b)) else old(cache.entries)
      ensures sent == old(sent) + [Deleted(b)]
    {
      if up { cache.DeleteStock(b); }
      sent := sent + [Deleted(b)];
    }

    // The loop of the order routes: read each line's book afresh, then cache and broadcast it.
    method PushLines(lines: seq<Line>, up: nat -> bool)
      modifies this`sent, cache
      ensures cache.entries == Fold(old(cache.entries), Kept(Refreshed(db.work.books, lines), up))
      ensures sent == old(sent) + Refreshed(db.work.books, lines)
    {
      ghost var books := db.work.books;
      var pushes := 0;
      for i := 0 to |lines|
        invariant pushes == |Refreshed(books, lines[..i])|
        invariant cache.entries == Fold(old(cache.entries), Kept(Refreshed(books, lines[..i]), up))
        invariant sent == old(sent) + Refreshed(books, lines[..i])
        invariant db.work.books == books
      {
        assert lines[..i + 1][..i] == lines[..i];
        var current := if lines[i].book in db.work.books then Some(db.work.books[lines[i].book]) else None;
        ghost var before := Refreshed(books, lines[..i]);
        if current.Some? {
          KeptNext(old(cache.entries), before, Updated(lines[i].book, current.value.stock), up);
          StoreBookStock(lines[i].book, current.value.stock, up(pushes));
          pushes := pushes + 1;
        } else {
          assert before + [] == before;
        }
      }
      assert lines[..|lines|] == lines;
    }

    // What a route pushes once its service call has returned.
    method Push(req: Request, up: nat -> bool)
      requires req.Checkout? || req.Cancel? ==> req.oid in db.work.orders
      requires req.CreateBook? || req.UpdateBook? ==> req.book in db.work.books
      modifies this`sent, cache
      ensures cache.entries == Fold(old(cache.entries), Kept(PushesOf(db.work, req), up))
      ensures sent == old(sent) + PushesOf(db.work, req)
    {
      match req
      case Checkout(_, _, oid) => PushLines(Plain(db.work.orders[oid].lines), up);
      case Cancel(_, oid) => PushLines(Plain(db.work.orders[oid].lines), up);
      case CreateBook(b, _, _, _) =>
        KeptNext(cache.entries, [], Updated(b, db.work.books[b].stock), up);
        StoreBookStock(b, db.work.books[b].stock, up(0));
      case UpdateBook(b, _, _, _) =>
        KeptNext(cache.entries, [], Updated(b, db.work.books[b].stock), up);
        StoreBookStock(b, db.work.books[b].stock, up(0));
      case DeleteBook(b) =>
        KeptNext(cache.entries, [], Deleted(b), up);
        DeleteBookStock(b, up(0));
      case _ =>
    }

    /** A complete request: the tables, the cache and the event stream change as Inventory
        says, and not at all when the service refuses. The pushes come before the commit, so
        a failing commit takes back the tables but not the cache and the events. */
    method Serve(req: Request, up: nat -> bool) returns (r: Result<()>)
      requires Wired() && db.work == db.committed
      requires Schema(db.committed) && Enabled(db.committed, req)
      modifies this`sent, cache, db
      ensures db.work == db.committed
      ensures r.Ok? ==> Succeeds(old(db.committed), req) && db.committed == Apply(old(db.committed), req)
      ensures !r.Ok? ==> db.committed == old(db.committed)
      ensures old(db.fault) == None ==> db.fault == None && (r.Ok? <==> Succeeds(old(db.committed), req))
      ensures r.Ok? || cache.entries != old(cache.entries) || sent != old(sent) ==>
                && cache.entries == Fold(old(cache.entries), Kept(Published(old(db.committed), req), up))
                && sent == old(sent) + Published(old(db.committed), req)
    {
      r := api.Route(req);
      if r.Ok? { Push(req, up); }
      var done := db.Finish(r.Ok?);
      if r.Ok? && !done { r := DbError; }
    }

    /** Reading books, one or a list. Redis may fail after some books, and the write of the
        hydrated rows or the commit may fail, which leaves the database as it was. */
    method ReadBooks(ids: seq<BookId>, reached: nat) returns (r: Result<map<BookId, Book>>)
      requires db.work == db.committed && reached <= |ids|
      modifies db
      ensures db.work == db.committed
      ensures r.Ok? ==> r.value == WroteBack(old(db.committed).books, cache.entries, ids[..reached])
      ensures db.committed == if r.Ok? then old(db.committed).(books := r.value) else old(db.committed)
      ensures old(db.fault) == None ==> r.Ok? && db.fault == None
      ensures Coherent(old(db.committed), cache.entries) ==> db.committed == old(db.committed)
    {
      var shown := cache.HydrateBooks(db.work.books, ids[..reached]);
      ReadIsHarmlessIff(db.work.books, cache.entries, ids[..reached]);
      assert forall b :: b in cache.entries && PartAt(cache.entries, Stocks(db.work.books), b) ==>
          Stocks(db.work.books)[b] == cache.entries[b];
      var ok := db.Flush(db.work.(books := shown));
      ok := db.Finish(ok);
      return if ok then Ok(shown) else DbError;
    }
  }

  // One more push.
  lemma KeptNext(m: StockMap, es: seq<StockEvent>, e: StockEvent, up: nat -> bool)
    ensures Fold(m, Kept(es + [e], up)) == if up(|es|) then Observe(Fold(m, Kept(es, up)), e) else Fold(m, Kept(es, up))
    ensures Fold(m, Kept([], up)) == m && [] + [e] == [e]
  {
    assert (es + [e])[..|es|] == es;
    var kept := Kept(es, up);
    if up(|es|) { assert (kept + [e])[..|kept|] == kept; } else { assert kept + [] == kept; }
  }
}
