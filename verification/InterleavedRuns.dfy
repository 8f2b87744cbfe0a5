/** Runs of the interleaved world: what every run keeps, what it never loses or creates, and
    which runs amount to their committed requests one at a time. */
module InterleavedRuns {
  import opened Domain
  import opened Requests
  import opened Reservation
  import opened Ledger
  import opened Carts
  import opened Interleaving

  // ----- the invariant of the world

  ghost predicate Exclusive(txns: map<TxnId, Txn>) {
    forall i, j :: i in txns && j in txns && i != j ==>
      OtherOrder(txns[i].req, txns[j].req) && txns[i].base.Keys !! txns[j].base.Keys
  }

  ghost predicate WorldOk(w: World) {
    Inv(w.db) && Exclusive(w.txns) && forall i :: i in w.txns ==> TxnOk(w.db, w.txns[i])
  }

  ghost predicate AllFresh(w: World) { forall i :: i in w.txns ==> Fresh(w.db, w.txns[i]) }

  lemma BeginOk(w: World, tid: TxnId, r: Request)
    requires WorldOk(w) && Can(w, Begin(tid, r))
    ensures WorldOk(w.(txns := w.txns[tid := Started(w.db, r)])) && Fresh(w.db, Started(w.db, r))
  {
    StartedOk(w.db, r);
  }

  // A visit locks at most the row of its line, which no one else holds.
  lemma AdvanceExclusive(w: World, tid: TxnId, refresh: bool)
    requires Exclusive(w.txns) && Can(w, Advance(tid)) && Visit(w.db, w.txns[tid], refresh).Some?
    ensures Exclusive(w.txns[tid := Visit(w.db, w.txns[tid], refresh).value])
  {
    var x' := Visit(w.db, w.txns[tid], refresh).value;
    VisitKeepsLines(w.db, w.txns[tid], refresh);
    assert x'.base.Keys <= w.txns[tid].base.Keys + {w.txns[tid].todo[0].book};
  }

  lemma AdvanceOk(w: World, tid: TxnId, refresh: bool)
    requires WorldOk(w) && Can(w, Advance(tid)) && Visit(w.db, w.txns[tid], refresh).Some?
    ensures WorldOk(w.(txns := w.txns[tid := Visit(w.db, w.txns[tid], refresh).value]))
  {
    VisitOk(w.db, w.txns[tid], refresh);
    AdvanceExclusive(w, tid, refresh);
  }

  lemma CommitOk(w: World, tid: TxnId)
    requires WorldOk(w) && Can(w, Commit(tid)) && Lands(w.txns[tid])
    ensures var db' := Written(w.db, w.txns[tid]);
            Inv(db') && forall i :: i in w.txns && i != tid ==>
              TxnOk(db', w.txns[i]) && (Fresh(db', w.txns[i]) <==> Fresh(w.db, w.txns[i]))
  {
    CommitKeepsInv(w.db, w.txns[tid]);
    forall i | i in w.txns && i != tid
      ensures TxnOk(Written(w.db, w.txns[tid]), w.txns[i])
      ensures Fresh(Written(w.db, w.txns[tid]), w.txns[i]) <==> Fresh(w.db, w.txns[i])
    {
      CommitKeepsOther(w.db, w.txns[tid], w.txns[i]);
    }
  }

  lemma AtomicOk(w: World, r: Request)
    requires WorldOk(w) && Can(w, Atomic(r))
    ensures var db' := Apply(w.db, r);
            Inv(db') && forall i :: i in w.txns ==>
              TxnOk(db', w.txns[i]) && (Fresh(db', w.txns[i]) <==> Fresh(w.db, w.txns[i]))
  {
    InvKept(w.db, r);
    forall i | i in w.txns
      ensures TxnOk(Apply(w.db, r), w.txns[i])
      ensures Fresh(Apply(w.db, r), w.txns[i]) <==> Fresh(w.db, w.txns[i])
    {
      AtomicKeeps(w.db, r, w.txns[i]);
    }
  }

  lemma FewerOk(w: World, w': World)
    requires Exclusive(w.txns) && Inv(w'.db)
    requires forall i :: i in w'.txns ==> i in w.txns && w'.txns[i] == w.txns[i] && TxnOk(w'.db, w'.txns[i])
    ensures WorldOk(w')
  {
  }

  /** Every step keeps the tables' invariant, the exclusive locks and each transaction's
      account of its work, whatever the locking reads return and whoever else is in flight. */
  lemma StepOk(w: World, a: Action, refresh: bool)
    requires WorldOk(w) && Can(w, a)
    ensures WorldOk(Do(w, a, refresh))
  {
    if a.Begin? {
      BeginOk(w, a.tid, a.req);
    } else if a.Atomic? {
      AtomicOk(w, a.req);
      FewerOk(w, Do(w, a, refresh));
    } else if a.Advance? && Visit(w.db, w.txns[a.tid], refresh).Some? {
      AdvanceOk(w, a.tid, refresh);
    } else {
      if a.Commit? && Lands(w.txns[a.tid]) { CommitOk(w, a.tid); }
      FewerOk(w, Do(w, a, refresh));
    }
  }

  lemma FreshStep(w: World, a: Action)
    requires WorldOk(w) && Can(w, a) && AllFresh(w)
    ensures AllFresh(Do(w, a, true))
  {
    if a.Begin? {
      BeginOk(w, a.tid, a.req);
    } else if a.Atomic? {
      AtomicOk(w, a.req);
    } else if a.Advance? && Visit(w.db, w.txns[a.tid], true).Some? {
      VisitFresh(w.db, w.txns[a.tid], true);
    } else if a.Commit? && Lands(w.txns[a.tid]) {
      CommitOk(w, a.tid);
    }
  }

  // The step rolls a transaction back: by itself, by raising in its loop, or at its end.
  ghost predicate RollsBack(w: World, a: Action, refresh: bool)
    requires Can(w, a)
  {
    || a.Abort?
    || (a.Advance? && Visit(w.db, w.txns[a.tid], refresh).None?)
    || (a.Commit? && !Lands(w.txns[a.tid]))
  }

  /** A rollback leaves the committed tables as they are, frees exactly the transaction's locks,
      and touches no other transaction. */
  lemma RollbackLeavesNoTrace(w: World, a: Action, refresh: bool)
    requires Can(w, a) && RollsBack(w, a, refresh)
    ensures var w' := Do(w, a, refresh);
            && w'.db == w.db && w'.log == w.log && w'.ledger == w.ledger
            && a.tid !in w'.txns && w'.txns.Keys == w.txns.Keys - {a.tid}
            && (forall o :: o in w'.txns ==> w'.txns[o] == w.txns[o])
            && (WorldOk(w) ==> forall b :: b in w.txns[a.tid].base ==> Free(w', b, a.tid))
  {
  }

  // A step begins a transaction, moves it on by a visit, or leaves it as it is.
  lemma TxnAfter(w: World, a: Action, refresh: bool, i: TxnId)
    requires Can(w, a) && i in Do(w, a, refresh).txns
    ensures var x' := Do(w, a, refresh).txns[i];
            if a.Begin? && a.tid == i then x' == Started(w.db, a.req)
            else i in w.txns && x'.req == w.txns[i].req && x'.start == w.txns[i].start && Lines(x') == Lines(w.txns[i])
                 && w.txns[i].base.Keys <= x'.base.Keys
                 && (x' == w.txns[i] || (a == Advance(i) && Visit(w.db, w.txns[i], refresh) == Some(x')))
  {
    if a.Advance? && Visit(w.db, w.txns[a.tid], refresh).Some? { VisitKeepsLines(w.db, w.txns[a.tid], refresh); }
  }

  // ----- runs

  ghost predicate CanAll(w: World, acts: seq<Action>, refresh: bool)
    decreases |acts|, 0
  {
    acts == [] || (CanAll(w, acts[..|acts| - 1], refresh) && Can(DoAll(w, acts[..|acts| - 1], refresh), acts[|acts| - 1]))
  }

  ghost function DoAll(w: World, acts: seq<Action>, refresh: bool): World
    requires CanAll(w, acts, refresh)
    decreases |acts|, 1
  {
    if acts == [] then w else Do(DoAll(w, acts[..|acts| - 1], refresh), acts[|acts| - 1], refresh)
  }

  /** Every step of the run satisfies p in the world it is taken in. */
  ghost predicate Always(w: World, acts: seq<Action>, refresh: bool, p: (World, Action) -> bool)
    requires CanAll(w, acts, refresh)
  {
    acts == [] || (
      && Always(w, acts[..|acts| - 1], refresh, p)
      && p(DoAll(w, acts[..|acts| - 1], refresh), acts[|acts| - 1]))
  }

  ghost predicate Opened(w: World) {
    w.txns == map[] && w.log == [] && Inv(w.db) && w.ledger == Opening(w.db)
  }

  lemma {:induction false} OkInRuns(w: World, acts: seq<Action>, refresh: bool)
    requires WorldOk(w) && CanAll(w, acts, refresh)
    ensures WorldOk(DoAll(w, acts, refresh))
    ensures refresh && AllFresh(w) ==> AllFresh(DoAll(w, acts, refresh))
  {
    if acts != [] {
      var mid, a := DoAll(w, acts[..|acts| - 1], refresh), acts[|acts| - 1];
      OkInRuns(w, acts[..|acts| - 1], refresh);
      StepOk(mid, a, refresh);
      if refresh && AllFresh(w) { FreshStep(mid, a); }
    }
  }

  // ----- serializability

  // The step, if it commits a transaction, commits a good one.
  ghost predicate GoodCommit(w: World, a: Action) {
    a.Commit? && a.tid in w.txns && Lands(w.txns[a.tid]) ==>
      Fresh(w.db, w.txns[a.tid]) && AsRead(w.db, w.txns[a.tid])
  }

  // A step leaves tables and log alone, or runs one enabled request and logs it.
  lemma SerialStep(w: World, a: Action, refresh: bool)
    requires WorldOk(w) && Can(w, a) && GoodCommit(w, a)
    ensures var w' := Do(w, a, refresh);
            || (w'.db == w.db && w'.log == w.log)
            || (|w'.log| == |w.log| + 1 && w'.log[..|w.log|] == w.log
                && Enabled(w.db, w'.log[|w.log|]) && w'.db == Apply(w.db, w'.log[|w.log|]))
  {
    if a.Commit? && Lands(w.txns[a.tid]) { GoodCommitIsSerial(w.db, w.txns[a.tid]); }
  }

  /** Serializability: for locking reads of either kind, a run whose commits are each serial
      by CommitIsSerialIff leaves the tables that its committed requests, one at a time in
      commit order, leave. */
  lemma {:induction false} Serializability(w: World, acts: seq<Action>, refresh: bool)
    requires Opened(w) && CanAll(w, acts, refresh) && Always(w, acts, refresh, GoodCommit)
    ensures var end := DoAll(w, acts, refresh);
            Runs(w.db, end.log) && end.db == Exec(w.db, end.log)
  {
    if acts != [] {
      var n := |acts| - 1;
      var mid, a := DoAll(w, acts[..n], refresh), acts[n];
      Serializability(w, acts[..n], refresh);
      OkInRuns(w, acts[..n], refresh);
      SerialStep(mid, a, refresh);
      var end := Do(mid, a, refresh);
      if end.log != mid.log {
        assert end.log[..|end.log| - 1] == mid.log;
      }
    }
  }

  // ----- runs in which nobody touches another's cart or order

  predicate Apart(r: Request, s: Request) {
    && (r.Checkout? && s.Checkout? ==> r.user != s.user)
    && (r.Cancel? && s.Cancel? ==> r.oid != s.oid)
  }

  predicate WritesCart(r: Request, u: UserId) {
    (r.AddItem? || r.UpdateItem? || r.RemoveItem? || r.ClearCart?) && r.user == u
  }

  predicate Spares(r: Request, x: Txn) {
    x.req.Checkout? ==>
      && !WritesCart(r, x.req.user)
      && (r.DeleteBook? ==> forall k :: 0 <= k < |Lines(x)| ==> Lines(x)[k].book != r.book)
  }

  /** A checkout or cancel starts only beside others of other users and orders, and carts and
      books are edited only beside checkouts they do not concern. */
  ghost predicate KeepsApart(w: World, a: Action) {
    && (a.Begin? ==> forall o :: o in w.txns ==> Apart(a.req, w.txns[o].req))
    && (a.Atomic? ==> forall o :: o in w.txns ==> Spares(a.req, w.txns[o]))
  }

  ghost predicate AllApart(w: World) {
    && (forall i, j :: i in w.txns && j in w.txns && i != j ==> Apart(w.txns[i].req, w.txns[j].req))
    && (forall i :: i in w.txns ==> AsRead(w.db, w.txns[i]))
  }

  // A checkout's commit empties its user's cart and no other; a cancel's commit none.
  lemma CommitCarts(db: Tables, x: Txn, u: UserId, b: BookId)
    requires Inv(db) && Inv(Written(db, x)) && (x.req.Checkout? || x.req.Cancel?)
    ensures Quantity(Written(db, x), u, b) == if x.req.Checkout? && x.req.user == u then 0 else Quantity(db, u, b)
  {
    if x.req.Checkout? && x.req.user == u { NoRow(Written(db, x), u, b); } else { SameRow(db, Written(db, x), u, b); }
  }

  lemma CommitSpares(db: Tables, x: Txn, y: Txn)
    requires Inv(db) && Inv(Written(db, x)) && TxnOk(db, x) && TxnOk(db, y)
    requires Apart(x.req, y.req) && AsRead(db, y)
    ensures AsRead(Written(db, x), y)
  {
    if y.req.Checkout? {
      forall b ensures Quantity(Written(db, x), y.req.user, b) == Demand(Lines(y), b) {
        CommitCarts(db, x, y.req.user, b);
        assert Quantity(db, y.req.user, b) == Demand(Lines(y), b);
      }
    }
  }

  lemma AtomicSpares(db: Tables, r: Request, y: Txn)
    requires Inv(db) && Enabled(db, r) && !r.Checkout? && !r.Cancel? && Spares(r, y) && AsRead(db, y)
    ensures AsRead(Apply(db, r), y)
  {
    if y.req.Checkout? {
      forall b ensures Quantity(Apply(db, r), y.req.user, b) == Demand(Lines(y), b) {
        CartRefinement(db, r, y.req.user, b);
        assert Quantity(db, y.req.user, b) == Demand(Lines(y), b);
        if r.DeleteBook? && r.book == b { DemandOutside(Lines(y), b); }
      }
    } else {
      assert Apply(db, r).orders == db.orders;
    }
  }

  lemma ApartStep(w: World, a: Action, refresh: bool)
    requires WorldOk(w) && Can(w, a) && AllApart(w) && KeepsApart(w, a)
    ensures AllApart(Do(w, a, refresh))
    ensures AllFresh(w) ==> GoodCommit(w, a)
  {
    var w' := Do(w, a, refresh);
    StepOk(w, a, refresh);
    forall i | i in w'.txns ensures AsRead(w'.db, w'.txns[i]) { StillAsRead(w, a, refresh, i); }
    forall i, j | i in w'.txns && j in w'.txns && i != j ensures Apart(w'.txns[i].req, w'.txns[j].req) {
      TxnAfter(w, a, refresh, i);
      TxnAfter(w, a, refresh, j);
    }
  }

  // A step of another transaction, or of none, spares what x depends on.
  lemma SparesAnother(w: World, a: Action, refresh: bool, i: TxnId)
    requires WorldOk(w) && Can(w, a) && AllApart(w) && KeepsApart(w, a) && Inv(Do(w, a, refresh).db)
    requires i in w.txns && !(a.Commit? && a.tid == i)
    ensures AsRead(Do(w, a, refresh).db, w.txns[i])
  {
    if a.Atomic? {
      AtomicSpares(w.db, a.req, w.txns[i]);
    } else if a.Commit? && Lands(w.txns[a.tid]) {
      CommitSpares(w.db, w.txns[a.tid], w.txns[i]);
    }
  }

  lemma SameLines(db: Tables, x: Txn, x': Txn)
    requires AsRead(db, x) && x'.req == x.req && Lines(x') == Lines(x)
    ensures AsRead(db, x')
  {
  }

  lemma StillAsRead(w: World, a: Action, refresh: bool, i: TxnId)
    requires WorldOk(w) && Can(w, a) && AllApart(w) && KeepsApart(w, a)
    requires Inv(Do(w, a, refresh).db) && i in Do(w, a, refresh).txns
    ensures AsRead(Do(w, a, refresh).db, Do(w, a, refresh).txns[i])
  {
    TxnAfter(w, a, refresh, i);
    if a.Begin? && a.tid == i {
      StartedOk(w.db, a.req);
    } else {
      SparesAnother(w, a, refresh, i);
      SameLines(Do(w, a, refresh).db, w.txns[i], Do(w, a, refresh).txns[i]);
    }
  }

  /** With fresh locking reads, any interleaving of requests that stay apart is serializable. */
  lemma {:induction false} ApartRunsAreGood(w: World, acts: seq<Action>)
    requires Opened(w) && CanAll(w, acts, true) && Always(w, acts, true, KeepsApart)
    ensures Always(w, acts, true, GoodCommit) && AllApart(DoAll(w, acts, true))
  {
    if acts != [] {
      var before := acts[..|acts| - 1];
      ApartRunsAreGood(w, before);
      OkInRuns(w, before, true);
      ApartStep(DoAll(w, before, true), acts[|acts| - 1], true);
    }
  }

  lemma SerializabilityApart(w: World, acts: seq<Action>)
    requires Opened(w) && CanAll(w, acts, true) && Always(w, acts, true, KeepsApart)
    ensures var end := DoAll(w, acts, true);
            Runs(w.db, end.log) && end.db == Exec(w.db, end.log)
  {
    ApartRunsAreGood(w, acts);
    Serializability(w, acts, true);
  }

  // ----- conservation

  // No two cancels of one order in flight.
  ghost predicate OneCancel(w: World, a: Action) {
    a.Begin? && a.req.Cancel? ==> forall o :: o in w.txns ==> !(w.txns[o].req.Cancel? && w.txns[o].req.oid == a.req.oid)
  }

  ghost predicate CancelsOpen(w: World) {
    && (forall i, j :: i in w.txns && j in w.txns && i != j && w.txns[i].req.Cancel? && w.txns[j].req.Cancel? ==>
          w.txns[i].req.oid != w.txns[j].req.oid)
    && (forall i :: i in w.txns && w.txns[i].req.Cancel? ==> AsRead(w.db, w.txns[i]))
  }

  // Only the commit of its own cancel touches an order.
  lemma OrderUntouched(w: World, a: Action, refresh: bool, oid: OrderId)
    requires WorldOk(w) && Can(w, a) && oid in w.db.orders
    requires a.Commit? && w.txns[a.tid].req.Cancel? ==> w.txns[a.tid].req.oid != oid
    ensures oid in Do(w, a, refresh).db.orders && Do(w, a, refresh).db.orders[oid] == w.db.orders[oid]
  {
    if a.Atomic? {
      OrderAfter(w.db, a.req, oid);
    } else if a.Commit? {
      assert TxnOk(w.db, w.txns[a.tid]);
    }
  }

  lemma StillOpen(w: World, a: Action, refresh: bool, i: TxnId)
    requires WorldOk(w) && Can(w, a) && CancelsOpen(w) && i in Do(w, a, refresh).txns
    requires Do(w, a, refresh).txns[i].req.Cancel?
    ensures AsRead(Do(w, a, refresh).db, Do(w, a, refresh).txns[i])
  {
    TxnAfter(w, a, refresh, i);
    if a.Begin? && a.tid == i {
      assert Admitted(w.db, a.req);
    } else {
      assert AsRead(w.db, w.txns[i]);
      NotTheSame(w, a, refresh, i);
      OrderUntouched(w, a, refresh, w.txns[i].req.oid);
    }
  }

  lemma NotTheSame(w: World, a: Action, refresh: bool, i: TxnId)
    requires Can(w, a) && CancelsOpen(w) && i in w.txns && w.txns[i].req.Cancel?
    requires i in Do(w, a, refresh).txns
    ensures a.Commit? && w.txns[a.tid].req.Cancel? ==> w.txns[a.tid].req.oid != w.txns[i].req.oid
  {
  }

  lemma CancelsStep(w: World, a: Action, refresh: bool)
    requires WorldOk(w) && Can(w, a) && CancelsOpen(w) && OneCancel(w, a)
    ensures CancelsOpen(Do(w, a, refresh))
  {
    var w' := Do(w, a, refresh);
    forall i | i in w'.txns && w'.txns[i].req.Cancel? ensures AsRead(w'.db, w'.txns[i]) { StillOpen(w, a, refresh, i); }
    forall i, j | i in w'.txns && j in w'.txns && i != j && w'.txns[i].req.Cancel? && w'.txns[j].req.Cancel?
      ensures w'.txns[i].req.oid != w'.txns[j].req.oid
    {
      TxnAfter(w, a, refresh, i);
      TxnAfter(w, a, refresh, j);
    }
  }

  /** The copies of b that the commits of the run have created since b was last created. */
  ghost function Drift(w: World, acts: seq<Action>, refresh: bool, b: BookId): int
    requires CanAll(w, acts, refresh)
  {
    if acts == [] then 0
    else
      var mid, a := DoAll(w, acts[..|acts| - 1], refresh), acts[|acts| - 1];
      if b !in mid.db.books then 0
      else
        Drift(w, acts[..|acts| - 1], refresh, b)
        + if a.Commit? && Lands(mid.txns[a.tid]) then Excess(mid.db, mid.txns[a.tid], b) else 0
  }

  // The stock and the live copies of b exceed its ledger by d.
  ghost predicate Off(w: World, b: BookId, d: int) {
    b in w.db.books && b in w.ledger && Supply(w.db, b) == w.ledger[b] + d
  }

  lemma LedgerKeys(w: World, a: Action, refresh: bool)
    requires WorldOk(w) && Can(w, a) && w.ledger.Keys == w.db.books.Keys
    ensures Do(w, a, refresh).ledger.Keys == Do(w, a, refresh).db.books.Keys
  {
    if a.Atomic? {
      EntryKeys(w.ledger, w.db, a.req);
    } else if a.Commit? && Lands(w.txns[a.tid]) {
      assert Written(w.db, w.txns[a.tid]).books.Keys == w.db.books.Keys;
    }
  }

  lemma OffStep(w: World, a: Action, refresh: bool, b: BookId, d: int)
    requires WorldOk(w) && Can(w, a) && w.ledger.Keys == w.db.books.Keys
    requires b in Do(w, a, refresh).db.books && (b in w.db.books ==> Off(w, b, d))
    ensures Off(Do(w, a, refresh), b,
                if b !in w.db.books then 0
                else d + if a.Commit? && Lands(w.txns[a.tid]) then Excess(w.db, w.txns[a.tid], b) else 0)
  {
    if a.Atomic? {
      EntryFollows(w.ledger, w.db, a.req, b);
    } else if a.Commit? && Lands(w.txns[a.tid]) {
      CommitMovesSupply(w.db, w.txns[a.tid], b);
    }
  }

  /** The exact account of any run, for fresh and for stale locking reads and any number of
      cancels of one order: stock plus live copies is what administrators' requests say, plus
      what the commits have created. */
  lemma {:induction false} SupplyAccount(w: World, acts: seq<Action>, refresh: bool)
    requires Opened(w) && CanAll(w, acts, refresh)
    ensures var end := DoAll(w, acts, refresh);
            && end.ledger.Keys == end.db.books.Keys
            && forall b :: b in end.db.books ==> Off(end, b, Drift(w, acts, refresh, b))
  {
    if acts != [] {
      var before := acts[..|acts| - 1];
      var mid, a := DoAll(w, before, refresh), acts[|acts| - 1];
      SupplyAccount(w, before, refresh);
      OkInRuns(w, before, refresh);
      LedgerKeys(mid, a, refresh);
      forall b | b in Do(mid, a, refresh).db.books ensures Off(Do(mid, a, refresh), b, Drift(w, acts, refresh, b)) {
        OffStep(mid, a, refresh, b, Drift(w, before, refresh, b));
      }
    }
  }

  lemma NoExcess(w: World, tid: TxnId, b: BookId)
    requires AllFresh(w) && CancelsOpen(w) && tid in w.txns && b in w.db.books
    ensures Excess(w.db, w.txns[tid], b) == 0
  {
    assert w.txns[tid].req.Cancel? ==> AsRead(w.db, w.txns[tid]);
  }

  // With fresh reads and one cancel of an order in flight, no commit creates a copy.
  lemma {:induction false} NoDrift(w: World, acts: seq<Action>)
    requires Opened(w) && CanAll(w, acts, true) && Always(w, acts, true, OneCancel)
    ensures CancelsOpen(DoAll(w, acts, true)) && forall b :: Drift(w, acts, true, b) == 0
  {
    if acts != [] {
      var n := |acts| - 1;
      var mid, a := DoAll(w, acts[..n], true), acts[n];
      NoDrift(w, acts[..n]);
      OkInRuns(w, acts[..n], true);
      CancelsStep(mid, a, true);
      if a.Commit? { forall b | b in mid.db.books ensures Excess(mid.db, mid.txns[a.tid], b) == 0 { NoExcess(mid, a.tid, b); } }
    }
  }

  /** With fresh locking reads, under any interleaving with at most one cancel of an order in
      flight, double-submitted checkouts included, stock plus live copies stays equal, book by
      book, to a ledger that only administrators' requests write. */
  lemma ConservationInterleaved(w: World, acts: seq<Action>)
    requires Opened(w) && CanAll(w, acts, true) && Always(w, acts, true, OneCancel)
    ensures Balanced(DoAll(w, acts, true).ledger, DoAll(w, acts, true).db)
  {
    var end := DoAll(w, acts, true);
    SupplyAccount(w, acts, true);
    NoDrift(w, acts);
    forall b | b in end.db.books ensures end.ledger[b] == Supply(end.db, b) { assert Off(end, b, Drift(w, acts, true, b)); }
  }

  // ----- no overselling, also in flight

  // Only single-step requests can be administration; they set non-negative stocks.
  predicate CleanWrite(w: World, a: Action) { a.Atomic? ==> SetsNonNegative(a.req) }

  lemma DoneQuantities(db: Tables, x: Txn)
    requires Inv(db) && TxnOk(db, x)
    ensures AllPositive(x.done)
  {
    if x.req.Cancel? {
      OrderedQuantities(db.orders[x.req.oid]);
      forall k | 0 <= k < |x.done| ensures x.done[k].quantity >= 1 { assert x.done[k] == Lines(x)[k]; }
    }
  }

  // The stock of every row x has locked, as x has written it so far.
  predicate SeesNonNegative(x: Txn) { forall b :: b in x.base ==> x.base[b] + Moved(x, b) >= 0 }

  // What x read was not negative, at its start and under its locks.
  predicate ReadNonNegative(x: Txn) {
    NonNegative(x.start.books) && forall b :: b in x.base ==> x.base[b] >= 0
  }

  lemma WritesNonNegative(x: Txn)
    requires ReadNonNegative(x) && AllPositive(x.done)
    requires x.req.Checkout? ==> forall b :: b in x.base ==> Demand(x.done, b) <= x.base[b]
    ensures SeesNonNegative(x)
  {
    forall b | b in x.base ensures Demand(x.done, b) >= 0 {
      DemandMonotone(x.done, |x.done|, b);
      assert x.done[..|x.done|] == x.done;
    }
  }

  lemma InFlightNonNegative(db: Tables, x: Txn)
    requires Inv(db) && TxnOk(db, x) && ReadNonNegative(x)
    ensures SeesNonNegative(x)
  {
    DoneQuantities(db, x);
    WritesNonNegative(x);
  }

  lemma VisitNonNegative(db: Tables, x: Txn, refresh: bool)
    requires NonNegative(db.books) && ReadNonNegative(x) && x.todo != [] && Visit(db, x, refresh).Some?
    ensures ReadNonNegative(Visit(db, x, refresh).value)
  {
  }

  lemma ReadNonNegativeStep(w: World, a: Action, refresh: bool, i: TxnId)
    requires Can(w, a) && NonNegative(w.db.books) && i in Do(w, a, refresh).txns
    requires forall j :: j in w.txns ==> ReadNonNegative(w.txns[j])
    ensures ReadNonNegative(Do(w, a, refresh).txns[i])
  {
    TxnAfter(w, a, refresh, i);
    if a == Advance(i) { VisitNonNegative(w.db, w.txns[i], refresh); }
  }

  lemma NonNegativeStep(w: World, a: Action, refresh: bool)
    requires WorldOk(w) && Can(w, a) && CleanWrite(w, a) && NonNegative(w.db.books)
    requires forall i :: i in w.txns ==> SeesNonNegative(w.txns[i])
    ensures NonNegative(Do(w, a, refresh).db.books)
  {
    if a.Atomic? { StocksStayNonNegative(w.db, a.req); }
  }

  ghost predicate NoneNegative(w: World) {
    && NonNegative(w.db.books)
    && forall i :: i in w.txns ==> ReadNonNegative(w.txns[i]) && SeesNonNegative(w.txns[i])
  }

  /** Under any interleaving, for fresh and for stale locking reads, double-submitted checkouts
      and double cancels included, no stock goes negative, neither in the committed tables nor
      in any transaction's own writes. */
  lemma {:induction false} NeverNegativeInterleaved(w: World, acts: seq<Action>, refresh: bool)
    requires Opened(w) && NonNegative(w.db.books) && CanAll(w, acts, refresh) && Always(w, acts, refresh, CleanWrite)
    ensures NoneNegative(DoAll(w, acts, refresh))
  {
    var end := DoAll(w, acts, refresh);
    OkInRuns(w, acts, refresh);
    if acts != [] {
      var mid, a := DoAll(w, acts[..|acts| - 1], refresh), acts[|acts| - 1];
      NeverNegativeInterleaved(w, acts[..|acts| - 1], refresh);
      OkInRuns(w, acts[..|acts| - 1], refresh);
      NonNegativeStep(mid, a, refresh);
      forall i | i in end.txns ensures ReadNonNegative(end.txns[i]) { ReadNonNegativeStep(mid, a, refresh, i); }
    }
    forall i | i in end.txns ensures SeesNonNegative(end.txns[i]) { InFlightNonNegative(end.db, end.txns[i]); }
  }

  /** What can be oversold is what commits have created: live orders hold no more copies than
      the ledger shows and the drift adds. */
  lemma OversoldByDrift(w: World, acts: seq<Action>, refresh: bool, b: BookId)
    requires Opened(w) && NonNegative(w.db.books) && CanAll(w, acts, refresh) && Always(w, acts, refresh, CleanWrite)
    requires b in DoAll(w, acts, refresh).db.books
    ensures var end := DoAll(w, acts, refresh);
            b in end.ledger && Live(end.db.orders, b) <= end.ledger[b] + Drift(w, acts, refresh, b)
  {
    NeverNegativeInterleaved(w, acts, refresh);
    SupplyAccount(w, acts, refresh);
    assert Off(DoAll(w, acts, refresh), b, Drift(w, acts, refresh, b));
  }

  /** With fresh locking reads and at most one cancel of an order in flight nothing is oversold:
      live orders hold no more copies than the ledger shows. */
  lemma NoOversellingInterleaved(w: World, acts: seq<Action>)
    requires Opened(w) && NonNegative(w.db.books) && CanAll(w, acts, true)
    requires Always(w, acts, true, CleanWrite) && Always(w, acts, true, OneCancel)
    ensures var end := DoAll(w, acts, true);
            && NonNegative(end.db.books) && end.ledger.Keys == end.db.books.Keys
            && forall b :: b in end.db.books ==> Live(end.db.orders, b) <= end.ledger[b]
  {
    NeverNegativeInterleaved(w, acts, true);
    ConservationInterleaved(w, acts);
  }

  // ----- what stale locking reads see

  // No step from i on starts this transaction anew.
  predicate StartsOnce(acts: seq<Action>, i: nat, tid: TxnId) {
    i < |acts| && acts[i].Begin? && acts[i].tid == tid
    && forall k :: i < k < |acts| && acts[k].Begin? ==> acts[k].tid != tid
  }

  lemma {:induction false} Prefixes(w: World, acts: seq<Action>, i: nat, refresh: bool)
    requires CanAll(w, acts, refresh) && i <= |acts|
    ensures CanAll(w, acts[..i], refresh)
    decreases |acts|
  {
    if i == |acts| {
      assert acts[..i] == acts;
    } else {
      Prefixes(w, acts[..|acts| - 1], i, refresh);
      assert acts[..|acts| - 1][..i] == acts[..i];
    }
  }

  // The transaction is in flight from its start to the end of the run, with the tables it found.
  lemma {:induction false} StartIs(w: World, acts: seq<Action>, i: nat, tid: TxnId, refresh: bool)
    requires CanAll(w, acts, refresh) && StartsOnce(acts, i, tid) && tid in DoAll(w, acts, refresh).txns
    ensures CanAll(w, acts[..i], refresh) && DoAll(w, acts, refresh).txns[tid].start == DoAll(w, acts[..i], refresh).db
    decreases |acts|
  {
    var n := |acts| - 1;
    Prefixes(w, acts, i, refresh);
    if i < n {
      var mid, a := DoAll(w, acts[..n], refresh), acts[n];
      assert acts[..n][..i] == acts[..i];
      assert acts[..n][i] == acts[i];
      TxnAfter(mid, a, refresh, tid);
      StartIs(w, acts[..n], i, tid, refresh);
    }
  }

  // A stale locking read returns the stock found at the start.
  predicate ReadAtStart(x: Txn) {
    forall b :: b in x.base ==> b in x.start.books && x.base[b] == x.start.books[b].stock
  }

  lemma StaleVisit(db: Tables, x: Txn)
    requires ReadAtStart(x) && Sound(x) && x.todo != [] && Visit(db, x, false).Some?
    ensures ReadAtStart(Visit(db, x, false).value)
  {
    assert x.todo[0].book in x.start.books;
  }

  lemma {:induction false} StaleReads(w: World, acts: seq<Action>, tid: TxnId)
    requires Opened(w) && CanAll(w, acts, false) && tid in DoAll(w, acts, false).txns
    ensures ReadAtStart(DoAll(w, acts, false).txns[tid])
  {
    var n := |acts| - 1;
    var mid, a := DoAll(w, acts[..n], false), acts[n];
    TxnAfter(mid, a, false, tid);
    if !(a.Begin? && a.tid == tid) {
      StaleReads(w, acts[..n], tid);
      OkInRuns(w, acts[..n], false);
      if a == Advance(tid) { StaleVisit(mid.db, mid.txns[tid]); }
    }
  }

  lemma RowUntouched(w: World, a: Action, tid: TxnId, b: BookId, refresh: bool)
    requires Exclusive(w.txns) && Can(w, a) && tid in w.txns && b in w.txns[tid].base && b in w.db.books
    requires !(a.Commit? && a.tid == tid)
    ensures b in Do(w, a, refresh).db.books && Do(w, a, refresh).db.books[b] == w.db.books[b]
  {
    if a.Atomic? {
      assert RowsHeld(w.db, Apply(w.db, a.req), w.txns[tid]);
    } else if a.Commit? {
      assert b !in w.txns[a.tid].base;
    }
  }

  // The transaction has locked the row of b, whose committed stock is the given one.
  predicate Holding(w: World, tid: TxnId, b: BookId, stock: int) {
    tid in w.txns && b in w.txns[tid].base && b in w.db.books && w.db.books[b].stock == stock
  }

  lemma HoldingStep(w: World, a: Action, tid: TxnId, b: BookId, stock: int, refresh: bool)
    requires Exclusive(w.txns) && Can(w, a) && Holding(w, tid, b, stock)
    requires tid in Do(w, a, refresh).txns && !(a.Begin? && a.tid == tid)
    ensures Holding(Do(w, a, refresh), tid, b, stock)
  {
    TxnAfter(w, a, refresh, tid);
    RowUntouched(w, a, tid, b, refresh);
  }

  // A locked row keeps its stock while the transaction is in flight.
  lemma {:induction false} LockedStays(w: World, acts: seq<Action>, j: nat, tid: TxnId, b: BookId, stock: int, refresh: bool)
    requires WorldOk(w) && CanAll(w, acts, refresh) && j <= |acts| && tid in DoAll(w, acts, refresh).txns
    requires forall k :: j <= k < |acts| && acts[k].Begin? ==> acts[k].tid != tid
    requires CanAll(w, acts[..j], refresh) && Holding(DoAll(w, acts[..j], refresh), tid, b, stock)
    ensures Holding(DoAll(w, acts, refresh), tid, b, stock)
    decreases |acts|
  {
    if j == |acts| {
      assert acts[..j] == acts;
    } else {
      var n := |acts| - 1;
      var mid, a := DoAll(w, acts[..n], refresh), acts[n];
      assert acts[..n][..j] == acts[..j];
      assert DoAll(w, acts, refresh) == Do(mid, a, refresh);
      TxnAfter(mid, a, refresh, tid);
      LockedStays(w, acts[..n], j, tid, b, stock, refresh);
      OkInRuns(w, acts[..n], refresh);
      HoldingStep(mid, a, tid, b, stock, refresh);
    }
  }

  /** With stale locking reads, what transaction tid, started by step i, has read of a book it
      had locked by step j is the committed stock exactly when the stock before step i and the
      stock at step j are the same. */
  lemma StaleReadIsFreshIff(w: World, acts: seq<Action>, i: nat, j: nat, tid: TxnId, b: BookId)
    requires Opened(w) && CanAll(w, acts, false) && StartsOnce(acts, i, tid) && i < j <= |acts|
    requires CanAll(w, acts[..j], false) && tid in DoAll(w, acts, false).txns
    requires var m := DoAll(w, acts[..j], false); tid in m.txns && b in m.txns[tid].base
    ensures CanAll(w, acts[..i], false)
    ensures var first, locked, end := DoAll(w, acts[..i], false).db, DoAll(w, acts[..j], false).db, DoAll(w, acts, false);
            && b in first.books && b in locked.books && b in end.txns[tid].base && b in end.db.books
            && (end.txns[tid].base[b] == end.db.books[b].stock <==> first.books[b].stock == locked.books[b].stock)
  {
    OkInRuns(w, acts[..j], false);
    LockedStays(w, acts, j, tid, b, DoAll(w, acts[..j], false).db.books[b].stock, false);
    StartIs(w, acts, i, tid, false);
    StaleReads(w, acts, tid);
  }

  // Every book the request lists has the stock it had at the start.
  predicate Current(db: Tables, x: Txn) {
    forall k :: 0 <= k < |Lines(x)| ==>
      var b := Lines(x)[k].book;
      b in x.start.books && b in db.books && db.books[b].stock == x.start.books[b].stock
  }

  // The step changes no stock of a book that another request in flight lists.
  ghost predicate KeepsListed(w: World, a: Action) {
    Can(w, a) ==>
      forall o, k :: o in w.txns && !(a.Commit? && a.tid == o) && 0 <= k < |Lines(w.txns[o])| ==>
        var b, db' := Lines(w.txns[o])[k].book, Do(w, a, false).db;
        b in w.db.books ==> b in db'.books && db'.books[b].stock == w.db.books[b].stock
  }

  ghost predicate AllCurrent(w: World) { forall i :: i in w.txns ==> Current(w.db, w.txns[i]) && ReadAtStart(w.txns[i]) }

  lemma CurrentIsFresh(db: Tables, x: Txn)
    requires TxnOk(db, x) && Current(db, x) && ReadAtStart(x)
    ensures Fresh(db, x)
  {
    forall b | b in x.base ensures b in db.books && db.books[b].stock == x.base[b] {
      var k :| 0 <= k < |x.done| && x.done[k].book == b;
      assert Lines(x)[k].book == b;
    }
  }

  lemma StartedCurrent(db: Tables, r: Request)
    requires Inv(db) && Admitted(db, r)
    ensures Current(db, Started(db, r))
  {
    var x := Started(db, r);
    forall k | 0 <= k < |Lines(x)| ensures Lines(x)[k].book in db.books {
      assert Lines(x)[k] == LinesFor(db, r)[k];
      LineBookExists(db, r, k);
    }
  }

  lemma CurrentStep(w: World, a: Action, i: TxnId)
    requires WorldOk(w) && Can(w, a) && AllCurrent(w) && KeepsListed(w, a) && i in Do(w, a, false).txns
    ensures Current(Do(w, a, false).db, Do(w, a, false).txns[i]) && ReadAtStart(Do(w, a, false).txns[i])
  {
    TxnAfter(w, a, false, i);
    if a.Begin? && a.tid == i {
      StartedCurrent(w.db, a.req);
    } else {
      assert Current(w.db, w.txns[i]);
      if a == Advance(i) { StaleVisit(w.db, w.txns[i]); }
    }
  }

  lemma {:induction false} SteadyRunsAreGood(w: World, acts: seq<Action>)
    requires Opened(w) && CanAll(w, acts, false)
    requires Always(w, acts, false, KeepsApart) && Always(w, acts, false, KeepsListed)
    ensures Always(w, acts, false, GoodCommit)
    ensures AllApart(DoAll(w, acts, false)) && AllCurrent(DoAll(w, acts, false))
  {
    if acts != [] {
      var mid, a := DoAll(w, acts[..|acts| - 1], false), acts[|acts| - 1];
      SteadyRunsAreGood(w, acts[..|acts| - 1]);
      OkInRuns(w, acts[..|acts| - 1], false);
      forall i | i in mid.txns ensures Fresh(mid.db, mid.txns[i]) { CurrentIsFresh(mid.db, mid.txns[i]); }
      ApartStep(mid, a, false);
      forall i | i in Do(mid, a, false).txns
        ensures Current(Do(mid, a, false).db, Do(mid, a, false).txns[i]) && ReadAtStart(Do(mid, a, false).txns[i])
      {
        CurrentStep(mid, a, i);
      }
    }
  }

  /** With stale locking reads, runs are serializable when also no step changes the stock of a
      book that another request in flight has listed. */
  lemma SerializabilityStale(w: World, acts: seq<Action>)
    requires Opened(w) && CanAll(w, acts, false)
    requires Always(w, acts, false, KeepsApart) && Always(w, acts, false, KeepsListed)
    ensures var end := DoAll(w, acts, false);
            Runs(w.db, end.log) && end.db == Exec(w.db, end.log)
  {
    SteadyRunsAreGood(w, acts);
    Serializability(w, acts, false);
  }
}
