/** A run without faults in which a GET puts a sold copy back on the shelf: it loads two copies,
    finds in the cache the one that the first checkout has left, and commits it after the
    second checkout. */
module LateGet {
  import opened Domain
  import opened Requests
  import opened Ledger
  import opened Inventory
  import opened Scenarios
  import opened Reads

  // The first k moves of the run lead to e.
  ghost predicate Reaches(d: Desk, ms: seq<Move>, k: nat, e: Desk) {
    k <= |ms| && MovesOn(d, ms[..k]) && End(d, ms[..k]) == e
  }

  lemma Next(d: Desk, ms: seq<Move>, k: nat, e: Desk)
    requires Reaches(d, ms, k, e) && k < |ms| && CanMove(e, ms[k])
    ensures Reaches(d, ms, k + 1, After(e, ms[k]))
  {
    assert ms[..k + 1][..k] == ms[..k];
  }

  // A request posts its pushes and commits, while a GET of book 7 is in flight or none.
  ghost function Traded(e: Desk, r: Request): Desk
    requires Enabled(e.db, r)
  {
    Desk(Apply(e.db, r), Fold(e.cache, Kept(Published(e.db, r), NO_LOSS)), e.sent + Published(e.db, r),
         None, e.gets, e.log + [r])
  }

  lemma Trade(d: Desk, ms: seq<Move>, k: nat, e: Desk, r: Request)
    requires Reaches(d, ms, k, e) && k + 2 <= |ms| && ms[k] == Post(r, NO_LOSS) && ms[k + 1] == Land
    requires e.pending == None && Enabled(e.db, r)
    ensures Reaches(d, ms, k + 2, Traded(e, r))
  {
    Next(d, ms, k, e);
    Next(d, ms, k + 1, After(e, Post(r, NO_LOSS)));
  }

  ghost function Start(): Desk { Desk(Shop(2), map[], [], None, map[], []) }

  function Run(): seq<Move> {
    [Load(0, [7]), Post(Buy(1, 100), NO_LOSS), Land, Hydrate(0, 7), Post(Buy(2, 200), NO_LOSS), Land, Finish(0)]
  }

  // The GET has loaded two copies, and the first checkout has left one.
  lemma FirstTrade() returns (e: Desk)
    ensures Reaches(Start(), Run(), 3, e)
    ensures e.db == Sold(1) && e.gets == map[0 := Get(map[7 := 2], map[])] && e.pending == None
    ensures 7 in e.cache && e.cache[7] == 1
  {
    var d := Start();
    assert Run()[..0] == [];
    Next(d, Run(), 0, d);
    var e0 := After(d, Load(0, [7]));
    assert Loaded(d.db.books, [7]) == map[7 := 2];
    BuyOne(2);
    Trade(d, Run(), 1, e0, Buy(1, 100));
    FirstPush();
    e := Traded(e0, Buy(1, 100));
  }

  lemma FirstPush()
    ensures Enabled(Shop(2), Buy(1, 100))
    ensures var cache := Fold(map[], Kept(Published(Shop(2), Buy(1, 100)), NO_LOSS)); 7 in cache && cache[7] == 1
  {
    var t, r := Shop(2), Buy(1, 100);
    ShopInv(2);
    BuyOne(2);
    ChangesIff(t, r, 7);
    AllHeard(t, r, 7);
    CacheAfter(t, map[], r, NO_LOSS, 7);
  }

  // The GET hydrates its book with the copy that is left.
  lemma HydrateCopy(e: Desk)
    requires Reaches(Start(), Run(), 3, e)
    requires e.gets == map[0 := Get(map[7 := 2], map[])] && 7 in e.cache && e.cache[7] == 1
    ensures Reaches(Start(), Run(), 4, e.(gets := map[0 := Get(map[7 := 2], map[7 := 1])]))
  {
    Next(Start(), Run(), 3, e);
    var g := Get(map[7 := 2], map[]);
    assert Hydrated(g, e.cache, 7) == Get(map[7 := 2], map[7 := 1]);
    assert e.gets[0 := Get(map[7 := 2], map[7 := 1])] == map[0 := Get(map[7 := 2], map[7 := 1])];
  }

  lemma SecondTrade(e: Desk) returns (f: Desk)
    requires Reaches(Start(), Run(), 4, e) && e.db == Sold(1) && e.pending == None
    ensures Reaches(Start(), Run(), 6, f) && f.gets == e.gets && f.pending == None
    ensures f.db.books == map[7 := Book(0, 500)] && f.db.orders == map[100 := Bought(1), 200 := Bought(2)]
  {
    BuySecond(1);
    Trade(Start(), Run(), 4, e, Buy(2, 200));
    f := Traded(e, Buy(2, 200));
  }

  lemma WriteBackCopy(f: Desk) returns (end: Desk)
    requires Reaches(Start(), Run(), 6, f) && f.pending == None && f.gets == map[0 := Get(map[7 := 2], map[7 := 1])]
    requires f.db.books == map[7 := Book(0, 500)]
    ensures Reaches(Start(), Run(), 7, end)
    ensures end.db.books == map[7 := Book(1, 500)] && end.db.orders == f.db.orders
  {
    Next(Start(), Run(), 6, f);
    end := After(f, Finish(0));
    assert Flushed(f.db.books, map[7 := 1]) == map[7 := Book(1, 500)];
  }

  lemma Supplies(t: Tables)
    requires t.books == map[7 := Book(1, 500)] && t.orders == map[100 := Bought(1), 200 := Bought(2)]
    ensures Supply(Shop(2), 7) == 2 && Supply(t, 7) == 3
  {
    LiveCopies(100, 200, 1, 2);
  }

  lemma StartOpened()
    ensures Opened(Start())
  {
    ShopInv(2);
  }

  /** Two copies are in the shop and both are sold; the GET's commit then shows one on the
      shelf, and the supply has grown from two to three. */
  lemma GetRestoresSoldCopy() returns (end: Desk)
    ensures Opened(Start()) && Supply(Start().db, 7) == 2
    ensures Reaches(Start(), Run(), |Run()|, end)
    ensures 7 in end.db.books && end.db.books[7].stock == 1 && Supply(end.db, 7) == 3
  {
    StartOpened();
    var e := FirstTrade();
    HydrateCopy(e);
    var f := SecondTrade(e.(gets := map[0 := Get(map[7 := 2], map[7 := 1])]));
    end := WriteBackCopy(f);
    Supplies(end.db);
  }
}
