/** Three short runs, each of two requests that start together and finish one after the other,
    in which a condition of the theorems on runs is missing and their conclusion fails. */
module Anomalies {
  import opened Domain
  import opened Requests
  import opened Ledger
  import opened Carts
  import opened Scenarios
  import opened Interleaving
  import opened InterleavedRuns

  ghost function At(t: Tables): World
    requires Inv(t)
  {
    World(t, map[], [], Opening(t))
  }

  function InTurn(r1: Request, r2: Request): seq<Action> {
    [Begin(1, r1), Begin(2, r2), Advance(1), Commit(1), Advance(2), Commit(2)]
  }

  // The first k steps of the run lead to m.
  ghost predicate Reaches(w: World, acts: seq<Action>, k: nat, m: World, refresh: bool) {
    k <= |acts| && CanAll(w, acts[..k], refresh) && DoAll(w, acts[..k], refresh) == m
  }

  lemma Next(w: World, acts: seq<Action>, k: nat, m: World, refresh: bool)
    requires Reaches(w, acts, k, m, refresh) && k < |acts| && Can(m, acts[k])
    ensures Reaches(w, acts, k + 1, Do(m, acts[k], refresh), refresh)
  {
    assert acts[..k + 1][..k] == acts[..k];
  }

  // One visit of its only line takes the transaction from s to x, ready to commit.
  ghost predicate OneVisit(db: Tables, s: Txn, x: Txn, refresh: bool) {
    s.todo != [] && Visit(db, s, refresh) == Some(x) && x.todo == [] && Lands(x)
  }

  /** Both requests have one line; x1 and x2 are the transactions once they visited it. */
  ghost predicate TwoInTurn(t: Tables, r1: Request, r2: Request, x1: Txn, x2: Txn, refresh: bool) {
    && Admitted(t, r1) && Admitted(t, r2) && OtherOrder(r2, r1)
    && OneVisit(t, Started(t, r1), x1, refresh) && OneVisit(Written(t, x1), Started(t, r2), x2, refresh)
  }

  function Two(s1: Txn, s2: Txn): map<TxnId, Txn> { map[1 := s1, 2 := s2] }

  lemma BothBegin(w: World, r1: Request, r2: Request, refresh: bool)
    requires w.txns == map[] && Admitted(w.db, r1) && Admitted(w.db, r2) && OtherOrder(r2, r1)
    ensures Reaches(w, InTurn(r1, r2), 2, w.(txns := Two(Started(w.db, r1), Started(w.db, r2))), refresh)
  {
    var acts := InTurn(r1, r2);
    assert acts[0] == Begin(1, r1) && acts[1] == Begin(2, r2);
    Next(w, acts, 0, w, refresh);
    Next(w, acts, 1, w.(txns := map[1 := Started(w.db, r1)]), refresh);
  }

  // One transaction visits its only line and commits, while the others hold no lock.
  lemma VisitAndCommit(w: World, acts: seq<Action>, k: nat, m: World, tid: TxnId, x: Txn, refresh: bool)
    requires Reaches(w, acts, k, m, refresh) && k + 2 <= |acts| && acts[k] == Advance(tid) && acts[k + 1] == Commit(tid)
    requires tid in m.txns && OneVisit(m.db, m.txns[tid], x, refresh)
    requires forall o :: o in m.txns && o != tid ==> m.txns[o].base == map[]
    ensures Reaches(w, acts, k + 1, m.(txns := m.txns[tid := x]), refresh)
    ensures Reaches(w, acts, k + 2, Committed(m, tid, x), refresh)
  {
    Next(w, acts, k, m, refresh);
    Next(w, acts, k + 1, m.(txns := m.txns[tid := x]), refresh);
    assert m.txns[tid := x] - {tid} == m.txns - {tid};
  }

  ghost function Committed(m: World, tid: TxnId, x: Txn): World {
    World(Written(m.db, x), m.txns - {tid}, m.log + [SerialCall(m.db, x)], m.ledger)
  }

  lemma TwoTxns(s1: Txn, s2: Txn)
    ensures Two(s1, s2) - {1} == map[2 := s2]
    ensures forall o :: o in Two(s1, s2) && o != 1 ==> Two(s1, s2)[o] == s2
  {
  }

  lemma FirstInTurn(w: World, acts: seq<Action>, m: World, s1: Txn, s2: Txn, x1: Txn, refresh: bool) returns (m': World)
    requires Reaches(w, acts, 2, m, refresh) && m.txns == Two(s1, s2) && s2.base == map[]
    requires |acts| == 6 && acts[2] == Advance(1) && acts[3] == Commit(1) && OneVisit(m.db, s1, x1, refresh)
    ensures Reaches(w, acts, 4, m', refresh) && m'.db == Written(m.db, x1) && m'.txns == map[2 := s2]
  {
    TwoTxns(s1, s2);
    VisitAndCommit(w, acts, 2, m, 1, x1, refresh);
    m' := Committed(m, 1, x1);
  }

  lemma OneTxn(s2: Txn, x2: Txn)
    ensures map[2 := s2][2 := x2] == map[2 := x2]
  {
  }

  lemma SecondInTurn(w: World, acts: seq<Action>, m: World, s2: Txn, x2: Txn, refresh: bool)
    returns (late: World, end: World)
    requires Reaches(w, acts, 4, m, refresh) && m.txns == map[2 := s2]
    requires |acts| == 6 && acts[4] == Advance(2) && acts[5] == Commit(2) && OneVisit(m.db, s2, x2, refresh)
    ensures Reaches(w, acts, 5, late, refresh) && late.db == m.db && late.txns == map[2 := x2]
    ensures Reaches(w, acts, 6, end, refresh) && end.db == Written(m.db, x2)
  {
    OneTxn(s2, x2);
    VisitAndCommit(w, acts, 4, m, 2, x2, refresh);
    late, end := m.(txns := m.txns[2 := x2]), Committed(m, 2, x2);
  }

  lemma BothInTurn(w: World, acts: seq<Action>, s1: Txn, s2: Txn, x1: Txn, x2: Txn, refresh: bool)
    returns (late: World, end: World)
    requires Reaches(w, acts, 2, w.(txns := Two(s1, s2)), refresh) && s2.base == map[]
    requires |acts| == 6 && acts[2..] == [Advance(1), Commit(1), Advance(2), Commit(2)]
    requires OneVisit(w.db, s1, x1, refresh) && OneVisit(Written(w.db, x1), s2, x2, refresh)
    ensures Reaches(w, acts, 5, late, refresh) && late.db == Written(w.db, x1) && late.txns == map[2 := x2]
    ensures Reaches(w, acts, 6, end, refresh) && end.db == Written(late.db, x2)
  {
    assert forall k :: 2 <= k < 6 ==> acts[k] == acts[2..][k - 2];
    var m := FirstInTurn(w, acts, w.(txns := Two(s1, s2)), s1, s2, x1, refresh);
    late, end := SecondInTurn(w, acts, m, s2, x2, refresh);
  }

  // What the run leads to before its second commit, and at its end.
  lemma RunInTurn(w: World, r1: Request, r2: Request, x1: Txn, x2: Txn, refresh: bool) returns (late: World, end: World)
    requires w.txns == map[] && TwoInTurn(w.db, r1, r2, x1, x2, refresh)
    ensures Reaches(w, InTurn(r1, r2), 5, late, refresh) && late.db == Written(w.db, x1) && late.txns == map[2 := x2]
    ensures Reaches(w, InTurn(r1, r2), 6, end, refresh) && end.db == Written(late.db, x2)
  {
    BothBegin(w, r1, r2, refresh);
    late, end := BothInTurn(w, InTurn(r1, r2), Started(w.db, r1), Started(w.db, r2), x1, x2, refresh);
  }

  // The whole run.
  lemma Whole(w: World, r1: Request, r2: Request, end: World, refresh: bool)
    requires Reaches(w, InTurn(r1, r2), 6, end, refresh)
    ensures CanAll(w, InTurn(r1, r2), refresh) && DoAll(w, InTurn(r1, r2), refresh) == end
  {
    assert InTurn(r1, r2)[..6] == InTurn(r1, r2);
  }

  // ----- two checkouts

  // A checkout of one copy of book 7 that has read the given stock.
  function Took(r: Request, t: Tables, stock: int): Txn {
    Txn(r, t, [], [L7], [OrderLine(L7, 500)], map[7 := stock])
  }

  lemma BuyStarts(stock: int, u: UserId, oid: OrderId)
    requires u == 1 || u == 2
    ensures Admitted(Shop(stock), Buy(u, oid))
    ensures Started(Shop(stock), Buy(u, oid)) == Txn(Buy(u, oid), Shop(stock), [L7], [], [], map[])
  {
    ShopListing(stock, u);
  }

  lemma BuyVisits(db: Tables, r: Request, t: Tables, refresh: bool, read: int)
    requires r.Checkout? && 7 in db.books && db.books[7].price == 500 && 7 in t.books
    requires read == (if refresh then db.books[7].stock else t.books[7].stock) && read >= 1
    ensures Visit(db, Txn(r, t, [L7], [], [], map[]), refresh) == Some(Took(r, t, read))
    ensures Lands(Took(r, t, read))
    ensures Written(db, Took(r, t, read)).books == db.books[7 := db.books[7].(stock := read - 1)]
    ensures Written(db, Took(r, t, read)).orders == db.orders[r.oid := Bought(r.user)]
  {
    OneLine();
    var x := Txn(r, t, [L7], [], [], map[]);
    assert x.todo[1..] == [] && x.done + [L7] == [L7] && x.placed + [OrderLine(L7, 500)] == [OrderLine(L7, 500)];
    assert ReadStock(db, x, 7, refresh) == read;
    assert Locked(db, x, 7, refresh) == map[7 := read];
  }

  lemma BothTake(stock: int, u1: UserId, u2: UserId, refresh: bool, read: int)
    requires 1 <= stock <= INT32_MAX && (u1 == 1 || u1 == 2) && (u2 == 1 || u2 == 2)
    requires read == (if refresh then stock - 1 else stock) && read >= 1
    ensures var t, r1, r2 := Shop(stock), Buy(u1, 100), Buy(u2, 200);
            TwoInTurn(t, r1, r2, Took(r1, t, stock), Took(r2, t, read), refresh)
  {
    var t, r1, r2 := Shop(stock), Buy(u1, 100), Buy(u2, 200);
    BuyStarts(stock, u1, 100);
    BuyStarts(stock, u2, 200);
    BuyVisits(t, r1, t, refresh, stock);
    BuyVisits(Written(t, Took(r1, t, stock)), r2, t, refresh, read);
  }

  // Books and orders once users u1 and u2, or one user twice, have bought a copy in turn.
  lemma BothWrite(stock: int, u1: UserId, u2: UserId, refresh: bool, read: int)
    requires 1 <= stock <= INT32_MAX && read == (if refresh then stock - 1 else stock) && read >= 1
    ensures var t, r1, r2 := Shop(stock), Buy(u1, 100), Buy(u2, 200);
            var t1 := Written(t, Took(r1, t, stock)); var t2 := Written(t1, Took(r2, t, read));
            && t1.books == map[7 := Book(stock - 1, 500)] && t1.orders == map[100 := Bought(u1)]
            && t2.books == map[7 := Book(read - 1, 500)] && t2.orders == map[100 := Bought(u1), 200 := Bought(u2)]
  {
    var t, r1, r2 := Shop(stock), Buy(u1, 100), Buy(u2, 200);
    BuyVisits(t, r1, t, refresh, stock);
    BuyVisits(Written(t, Took(r1, t, stock)), r2, t, refresh, read);
  }

  /** With stale locking reads, two concurrent checkouts of two users both sell the only copy:
      two live copies come out of a supply of one. */
  lemma StaleReadsOversell()
    ensures Inv(Shop(1))
    ensures var w, acts := At(Shop(1)), InTurn(Buy(1, 100), Buy(2, 200));
            && Opened(w) && Supply(w.db, 7) == 1 && CanAll(w, acts, false)
            && 7 in DoAll(w, acts, false).db.books && Supply(DoAll(w, acts, false).db, 7) == 2
  {
    var t, r1, r2 := Shop(1), Buy(1, 100), Buy(2, 200);
    ShopInv(1);
    BothTake(1, 1, 2, false, 1);
    BothWrite(1, 1, 2, false, 1);
    var _, end := RunInTurn(At(t), r1, r2, Took(r1, t, 1), Took(r2, t, 1), false);
    Whole(At(t), r1, r2, end, false);
    LiveCopies(100, 200, 1, 2);
  }

  // ----- a checkout submitted twice

  // Only user 1's checkouts, one at a time, from the shop: at most one of them gets through.
  ghost predicate AtMostOnce(t: Tables, stock: int) {
    t == Shop(stock) || (CartRows(t, 1) == {} && |t.orders| == 1)
  }

  lemma OnceStep(t: Tables, stock: int, r: Request)
    requires AtMostOnce(t, stock) && Enabled(t, r) && r.Checkout? && r.user == 1
    ensures AtMostOnce(Apply(t, r), stock)
  {
    if r.listing != [] { assert r.listing[0] in CartRows(t, 1); }
    if Succeeds(t, r) { CheckoutEmpties(t, r.user, r.listing, r.oid); }
  }

  lemma CheckoutEmpties(t: Tables, u: UserId, listing: seq<ItemId>, oid: OrderId)
    requires IsListing(t, u, listing) && CheckoutOk(t, u, listing)
    ensures CartRows(CheckoutNext(t, u, listing, oid), u) == {}
  {
  }

  lemma {:induction false} OneAtATime(stock: int, rs: seq<Request>)
    requires Runs(Shop(stock), rs) && forall k :: 0 <= k < |rs| ==> rs[k].Checkout? && rs[k].user == 1
    ensures AtMostOnce(Exec(Shop(stock), rs), stock)
  {
    if rs != [] {
      var before := rs[..|rs| - 1];
      forall k | 0 <= k < |before| ensures before[k].Checkout? && before[k].user == 1 { assert before[k] == rs[k]; }
      OneAtATime(stock, before);
      OnceStep(Exec(Shop(stock), before), stock, rs[|rs| - 1]);
    }
  }

  // The second commit reads its rows as they are, but the cart is empty by then.
  lemma SecondIsLate(stock: int)
    requires 2 <= stock <= INT32_MAX
    ensures var t, r1, r2 := Shop(stock), Buy(1, 100), Buy(1, 200);
            var t1, x2 := Written(t, Took(r1, t, stock)), Took(r2, t, stock - 1);
            Fresh(t1, x2) && !AsRead(t1, x2)
  {
    var t, r1, r2 := Shop(stock), Buy(1, 100), Buy(1, 200);
    var t1, x2 := Written(t, Took(r1, t, stock)), Took(r2, t, stock - 1);
    BothWrite(stock, 1, 1, true, stock - 1);
    OneLine();
    assert Lines(x2) == [L7];
    NoRow(t1, 1, 7);
  }

  lemma TwoOrders(rs: seq<Request>, t: Tables)
    requires Runs(Shop(5), rs) && forall k :: 0 <= k < |rs| ==> rs[k].Checkout? && rs[k].user == 1
    requires t.orders == map[100 := Bought(1), 200 := Bought(1)]
    ensures t != Exec(Shop(5), rs)
  {
    OneAtATime(5, rs);
    assert t.orders.Keys == {100, 200};
  }

  // Where the double submission ends.
  lemma SubmittedTwice() returns (end: World)
    ensures Inv(Shop(5)) && Reaches(At(Shop(5)), InTurn(Buy(1, 100), Buy(1, 200)), 6, end, true)
    ensures end.db.orders == map[100 := Bought(1), 200 := Bought(1)] && end.db.books == map[7 := Book(3, 500)]
  {
    var t, r1, r2 := Shop(5), Buy(1, 100), Buy(1, 200);
    ShopInv(5);
    BothTake(5, 1, 1, true, 4);
    BothWrite(5, 1, 1, true, 4);
    var _, e := RunInTurn(At(t), r1, r2, Took(r1, t, 5), Took(r2, t, 4), true);
    end := e;
  }

  lemma FiveCopies(t: Tables)
    requires t.orders == map[100 := Bought(1), 200 := Bought(1)] && t.books == map[7 := Book(3, 500)]
    ensures Supply(Shop(5), 7) == 5 && Supply(t, 7) == 5
  {
    LiveCopies(100, 200, 1, 1);
  }

  /** A checkout submitted twice places two orders for a cart of one copy, even with fresh
      locking reads: no sequence of the user's checkouts, run one at a time, leaves these
      tables. No copy is created. */
  lemma DoubleSubmit(rs: seq<Request>)
    requires Runs(Shop(5), rs) && forall k :: 0 <= k < |rs| ==> rs[k].Checkout? && rs[k].user == 1
    ensures Inv(Shop(5))
    ensures var w, acts := At(Shop(5)), InTurn(Buy(1, 100), Buy(1, 200));
            && Opened(w) && Supply(w.db, 7) == 5 && CanAll(w, acts, true)
            && var db := DoAll(w, acts, true).db;
            && db.orders == map[100 := Bought(1), 200 := Bought(1)] && db != Exec(w.db, rs)
            && 7 in db.books && Supply(db, 7) == 5
  {
    var end := SubmittedTwice();
    Whole(At(Shop(5)), Buy(1, 100), Buy(1, 200), end, true);
    FiveCopies(end.db);
    TwoOrders(rs, end.db);
  }

  /** In that run the second commit finds its rows fresh, but its cart not as it was read. */
  lemma DoubleSubmitIsFresh()
    ensures Inv(Shop(5))
    ensures var w, acts := At(Shop(5)), InTurn(Buy(1, 100), Buy(1, 200));
            && CanAll(w, acts[..5], true)
            && var late := DoAll(w, acts[..5], true);
            && 2 in late.txns && late.txns[2].todo == [] && Lands(late.txns[2])
            && Fresh(late.db, late.txns[2]) && !AsRead(late.db, late.txns[2]) && !IsSerial(late.db, late.txns[2])
  {
    var t, r1, r2 := Shop(5), Buy(1, 100), Buy(1, 200);
    ShopInv(5);
    BothTake(5, 1, 1, true, 4);
    var late, _ := RunInTurn(At(t), r1, r2, Took(r1, t, 5), Took(r2, t, 4), true);
    SecondIsLate(5);
    assert late.txns[2] == Took(r2, t, 4);
    OkInRuns(At(t), InTurn(r1, r2)[..5], true);
    CommitIsSerialIff(late.db, late.txns[2]);
  }

  // ----- two cancels of one order

  // A cancel of user 1's order that has read the given stock.
  function Returned(t: Tables, stock: int): Txn {
    Txn(Cancel(1, 100), t, [], [L7], [], map[7 := stock])
  }

  lemma CancelStarts(stock: int)
    ensures Admitted(Sold(stock), Cancel(1, 100))
    ensures Started(Sold(stock), Cancel(1, 100)) == Txn(Cancel(1, 100), Sold(stock), [L7], [], [], map[])
  {
    OneLine();
  }

  lemma CancelVisits(db: Tables, t: Tables)
    requires 7 in db.books && 100 in db.orders && FitsInt32(db.books[7].stock + 1)
    ensures var x := Returned(t, db.books[7].stock);
            && Visit(db, Txn(Cancel(1, 100), t, [L7], [], [], map[]), true) == Some(x)
            && Written(db, x).books == db.books[7 := db.books[7].(stock := db.books[7].stock + 1)]
            && Written(db, x).orders == db.orders[100 := db.orders[100].(status := Cancelled)]
  {
    OneLine();
    var x := Txn(Cancel(1, 100), t, [L7], [], [], map[]);
    assert x.todo[1..] == [] && x.done + [L7] == [L7];
    assert ReadStock(db, x, 7, true) == db.books[7].stock;
    assert Locked(db, x, 7, true) == map[7 := db.books[7].stock];
  }

  lemma BothReturn()
    ensures var t, r := Sold(0), Cancel(1, 100);
            && TwoInTurn(t, r, r, Returned(t, 0), Returned(t, 1), true)
            && var t2 := Written(Written(t, Returned(t, 0)), Returned(t, 1));
            && t2.books == map[7 := Book(2, 500)] && t2.orders == map[100 := Bought(1).(status := Cancelled)]
  {
    var t := Sold(0);
    CancelStarts(0);
    CancelVisits(t, t);
    CancelVisits(Written(t, Returned(t, 0)), t);
  }

  /** Two cancels of one order in flight both return its copy, even with fresh locking reads:
      the status is read without a lock. A supply of one becomes two. */
  lemma DoubleCancel()
    ensures Inv(Sold(0))
    ensures var w, acts := At(Sold(0)), InTurn(Cancel(1, 100), Cancel(1, 100));
            && Opened(w) && Supply(w.db, 7) == 1 && CanAll(w, acts, true)
            && 7 in DoAll(w, acts, true).db.books && Supply(DoAll(w, acts, true).db, 7) == 2
  {
    var t, r := Sold(0), Cancel(1, 100);
    SoldInv(0);
    BothReturn();
    var _, end := RunInTurn(At(t), r, r, Returned(t, 0), Returned(t, 1), true);
    Whole(At(t), r, r, end, true);
    LiveCopies(100, 200, 1, 1);
  }
}
