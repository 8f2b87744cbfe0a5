/** A checkout or cancel in flight is not refused more often than it should be: what makes it
    raise would have it refused when run alone, and run alone its steps do the whole request. */
module Alone {
  import opened Domain
  import opened Requests
  import opened Ledger
  import opened Carts
  import opened Interleaving
  import opened InterleavedRuns

  lemma SerialCallListing(db: Tables, x: Txn)
    requires Inv(db) && TxnOk(db, x) && x.req.Checkout? && AsRead(db, x)
    ensures var r := SerialCall(db, x);
            r.Checkout? && r.user == x.req.user && r.oid == x.req.oid && Relists(db, x, r.listing) && Enabled(db, r)
  {
    var listing := ListingOf(db, x.req.user, Lines(x));
    assert Relists(db, x, listing);
  }

  lemma CheckoutRaisesRightly(db: Tables, x: Txn)
    requires Inv(db) && TxnOk(db, x) && Fresh(db, x) && AsRead(db, x) && x.req.Checkout? && x.todo != []
    requires Visit(db, x, true).None?
    ensures Enabled(db, SerialCall(db, x)) && !Succeeds(db, SerialCall(db, x))
  {
    var l, u := x.todo[0], x.req.user;
    var lines, k := Lines(x), |x.done|;
    assert lines[k] == l;
    SerialCallListing(db, x);
    LineQuantity(lines, k);
    CheckoutDecision(db, u, SerialCall(db, x).listing);
    assert Quantity(db, u, l.book) == l.quantity;
    var i := RowFor(db, u, l.book);
    assert l.book in db.books;
    forall j | 0 <= j < |x.done| ensures x.done[j].book != l.book { assert lines[j] == x.done[j]; }
  }

  lemma CancelRaisesRightly(db: Tables, x: Txn)
    requires Inv(db) && TxnOk(db, x) && Fresh(db, x) && x.req.Cancel? && x.todo != []
    requires Visit(db, x, true).None?
    ensures !Succeeds(db, x.req)
  {
    var l, lines, k := x.todo[0], Lines(x), |x.done|;
    assert lines[k] == l && lines[..k] == x.done;
    OwedBookExists(db, x, k);
    DemandStep(lines, k, l.book);
    if l.book !in x.base { DemandOutside(x.done, l.book); }
    assert Received(lines, k) == Demand(x.done, l.book) + l.quantity;
  }

  /** A visit that raises, or a total that does not land, finds a request that would also be
      refused if it ran alone on the committed tables. */
  lemma RaisesRightly(db: Tables, x: Txn)
    requires Inv(db) && TxnOk(db, x) && Fresh(db, x) && AsRead(db, x)
    requires if x.todo != [] then Visit(db, x, true).None? else !Lands(x)
    ensures Enabled(db, SerialCall(db, x)) && !Succeeds(db, SerialCall(db, x))
  {
    if x.req.Checkout? {
      SerialCallListing(db, x);
      if x.todo != [] {
        CheckoutRaisesRightly(db, x);
      } else {
        assert Lines(x) == x.done;
        SoldBooks(db.books, x);
      }
    } else {
      CancelRaisesRightly(db, x);
    }
  }

  // ----- a request that runs alone

  // The lines of the serial call are the lines read.
  lemma SameOutcome(db: Tables, r: Request, x: Txn)
    requires Inv(db) && Admitted(db, r) && TxnOk(db, x) && AsRead(db, x)
    requires x.req == r && Lines(x) == LinesFor(db, r)
    ensures Enabled(db, SerialCall(db, x))
    ensures Succeeds(db, SerialCall(db, x)) <==> Succeeds(db, r)
    ensures Apply(db, SerialCall(db, x)) == Apply(db, r)
  {
    if r.Checkout? { SerialCallListing(db, x); }
  }

  // Begun on these tables, with n lines visited.
  ghost predicate OnItsWay(db: Tables, x: Txn, r: Request, n: nat) {
    && Admitted(db, r) && x.req == r && Lines(x) == LinesFor(db, r) && |x.done| == n
    && TxnOk(db, x) && Fresh(db, x) && AsRead(db, x)
  }

  ghost predicate Underway(w: World, m: World, tid: TxnId, r: Request, n: nat) {
    m.db == w.db && m.txns.Keys == {tid} && OnItsWay(w.db, m.txns[tid], r, n)
  }

  lemma VisitGoesOn(db: Tables, x: Txn, r: Request, n: nat)
    requires Inv(db) && OnItsWay(db, x, r, n) && Succeeds(db, r) && n < |LinesFor(db, r)|
    ensures x.todo != [] && Visit(db, x, true).Some? && OnItsWay(db, Visit(db, x, true).value, r, n + 1)
  {
    SameOutcome(db, r, x);
    if Visit(db, x, true).None? { RaisesRightly(db, x); }
    VisitOk(db, x, true);
    VisitFresh(db, x, true);
    VisitKeepsLines(db, x, true);
    SameLines(db, x, Visit(db, x, true).value);
  }

  // The run is possible and leads from w to m.
  ghost predicate Leads(w: World, acts: seq<Action>, m: World) {
    CanAll(w, acts, true) && DoAll(w, acts, true) == m
  }

  lemma OneStep(w: World, acts: seq<Action>, m: World, a: Action)
    requires Leads(w, acts, m) && Can(m, a)
    ensures Leads(w, acts + [a], Do(m, a, true))
  {
    assert (acts + [a])[..|acts|] == acts;
  }

  lemma BeginsAlone(w: World, tid: TxnId, r: Request) returns (acts: seq<Action>, m: World)
    requires w.txns == map[] && Inv(w.db) && Admitted(w.db, r)
    ensures Leads(w, acts, m) && Underway(w, m, tid, r, 0)
  {
    StartedOk(w.db, r);
    assert Lines(Started(w.db, r)) == LinesFor(w.db, r);
    OneStep(w, [], w, Begin(tid, r));
    acts, m := [] + [Begin(tid, r)], Do(w, Begin(tid, r), true);
  }

  lemma VisitsAlone(w: World, acts: seq<Action>, m: World, tid: TxnId, r: Request, n: nat)
    returns (acts': seq<Action>, m': World)
    requires Inv(w.db) && Underway(w, m, tid, r, n) && Succeeds(w.db, r) && n < |LinesFor(w.db, r)|
    requires Leads(w, acts, m)
    ensures Leads(w, acts', m') && Underway(w, m', tid, r, n + 1)
  {
    VisitGoesOn(w.db, m.txns[tid], r, n);
    OneStep(w, acts, m, Advance(tid));
    acts', m' := acts + [Advance(tid)], Do(m, Advance(tid), true);
  }

  lemma CommitGoesOn(db: Tables, x: Txn, r: Request)
    requires Inv(db) && Admitted(db, r) && Succeeds(db, r) && OnItsWay(db, x, r, |LinesFor(db, r)|)
    ensures x.todo == [] && Lands(x) && Written(db, x) == Apply(db, r)
  {
    SameOutcome(db, r, x);
    assert x.todo == [];
    if !Lands(x) { RaisesRightly(db, x); }
    GoodCommitIsSerial(db, x);
  }

  lemma CommitsAlone(w: World, acts: seq<Action>, m: World, tid: TxnId, r: Request) returns (end: World)
    requires Inv(w.db) && Admitted(w.db, r) && Succeeds(w.db, r) && Underway(w, m, tid, r, |LinesFor(w.db, r)|)
    requires Leads(w, acts, m)
    ensures Leads(w, acts + [Commit(tid)], end) && end.db == Apply(w.db, r) && end.txns == map[]
  {
    CommitGoesOn(w.db, m.txns[tid], r);
    OneStep(w, acts, m, Commit(tid));
    end := Do(m, Commit(tid), true);
  }

  lemma {:induction false} StepsAlone(w: World, tid: TxnId, r: Request, n: nat) returns (acts: seq<Action>, m: World)
    requires w.txns == map[] && Inv(w.db) && Admitted(w.db, r) && Succeeds(w.db, r) && n <= |LinesFor(w.db, r)|
    ensures Leads(w, acts, m) && Underway(w, m, tid, r, n)
  {
    if n == 0 {
      acts, m := BeginsAlone(w, tid, r);
    } else {
      acts, m := StepsAlone(w, tid, r, n - 1);
      acts, m := VisitsAlone(w, acts, m, tid, r, n - 1);
    }
  }

  // A request that would succeed passes the guards before the loop.
  lemma Passes(db: Tables, r: Request)
    requires Enabled(db, r) && Succeeds(db, r) && (r.Checkout? || r.Cancel?)
    ensures Admitted(db, r)
  {
  }

  /** Every request that would succeed can run with nothing else in flight, and its steps then
      do exactly what the request does. */
  lemma AloneDoesAll(w: World, tid: TxnId, r: Request) returns (acts: seq<Action>, end: World)
    requires w.txns == map[] && Inv(w.db) && Enabled(w.db, r) && Succeeds(w.db, r)
    ensures Leads(w, acts, end) && end.db == Apply(w.db, r) && end.txns == map[]
  {
    if r.Checkout? || r.Cancel? {
      Passes(w.db, r);
      var m;
      acts, m := StepsAlone(w, tid, r, |LinesFor(w.db, r)|);
      end := CommitsAlone(w, acts, m, tid, r);
      acts := acts + [Commit(tid)];
    } else {
      OneStep(w, [], w, Atomic(r));
      acts, end := [] + [Atomic(r)], Do(w, Atomic(r), true);
    }
  }
}
