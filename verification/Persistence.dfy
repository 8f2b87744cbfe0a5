/** The request's database session and the three repositories over it. A flush, and the
    commit, may raise: `fault` says after how many more of them the connection fails. */
module Persistence {
  import opened Domain
  import opened Requests

  // What a service call gives: a value, an HTTPException, or any other exception.
  datatype Result<+T> = Ok(value: T) | HttpError(code: nat) | DbError

  class Session {
    var committed: Tables
    var work: Tables
    var fault: Option<nat>
    ghost var trail: seq<Tables>  // every state of the transaction some flush has produced

    constructor (t: Tables, fault: Option<nat>)
      ensures committed == t && work == t && this.fault == fault && trail == []
    {
      committed, work, this.fault, trail := t, t, fault, [];
    }

    method Alive() returns (ok: bool)
      modifies this`fault
      ensures ok <==> old(fault) != Some(0)
      ensures fault == if old(fault).Some? && old(fault).value > 0 then Some(old(fault).value - 1) else old(fault)
    {
      ok := fault != Some(0);
      if fault.Some? && fault.value > 0 { fault := Some(fault.value - 1); }
    }

    // Write the pending rows inside the open transaction.
    method Flush(pending: Tables) returns (ok: bool)
      modifies this
      ensures committed == old(committed)
      ensures ok <==> old(fault) != Some(0)
      ensures old(fault) == None ==> fault == None
      ensures ok ==> work == pending && trail == old(trail) + [pending]
      ensures !ok ==> work == old(work) && trail == old(trail)
    {
      ok := Alive();
      if ok { work, trail := pending, trail + [pending]; }
    }

    // get_db after the route returned (ok) or raised: commit, or roll back.
    method Finish(ok: bool) returns (done: bool)
      modifies this
      ensures done <==> ok && old(fault) != Some(0)
      ensures committed == if done then old(work) else old(committed)
      ensures work == committed
      ensures old(fault) == None ==> fault == None
    {
      done := false;
      if ok { done := Alive(); }
      if done { committed := work; } else { work := committed; }
    }
  }

  class BookRepository {
    const db: Session

    constructor (db: Session) ensures this.db == db { this.db := db; }

    method GetById(b: BookId) returns (r: Option<Book>)
      ensures r == if b in db.work.books then Some(db.work.books[b]) else None
    {
      r := if b in db.work.books then Some(db.work.books[b]) else None;
    }

    // SELECT ... FOR UPDATE: the committed row, or this transaction's own write, under lock.
    method GetByIdForUpdate(b: BookId) returns (r: Option<Book>)
      ensures r == if b in db.work.books then Some(db.work.books[b]) else None
    {
      r := GetById(b);
    }

    method Update(b: BookId, book: Book) returns (ok: bool)
      requires b in db.work.books
      modifies db
      ensures db.committed == old(db.committed)
      ensures ok ==> FitsInt32(book.stock) && FitsNumeric(book.price)
      ensures ok ==> db.work == old(db.work).(books := old(db.work).books[b := book])
      ensures ok ==> db.trail == old(db.trail) + [db.work]
      ensures !ok ==> db.work == old(db.work) && db.trail == old(db.trail)
      ensures old(db.fault) == None ==> db.fault == None
      ensures old(db.fault) == None ==> (ok <==> FitsInt32(book.stock) && FitsNumeric(book.price))
    {
      if !FitsInt32(book.stock) || !FitsNumeric(book.price) { return false; }
      ok := db.Flush(db.work.(books := db.work.books[b := book]));
    }

    method Create(b: BookId, book: Book) returns (ok: bool)
      modifies db
      ensures db.committed == old(db.committed)
      ensures ok ==> db.work == old(db.work).(books := old(db.work).books[b := book])
      ensures ok ==> FitsInt32(book.stock) && FitsNumeric(book.price)
      ensures !ok ==> db.work == old(db.work)
      ensures old(db.fault) == None ==> db.fault == None
      ensures old(db.fault) == None ==> (ok <==> FitsInt32(book.stock) && FitsNumeric(book.price))
    {
      if !FitsInt32(book.stock) || !FitsNumeric(book.price) { return false; }
      ok := db.Flush(db.work.(books := db.work.books[b := book]));
    }

    // The book's cart rows go with it; an order line that refers to it blocks the delete.
    method Delete(b: BookId) returns (ok: bool)
      requires b in db.work.books
      modifies db
      ensures db.committed == old(db.committed)
      ensures ok ==> !Ordered(old(db.work), b) && db.work == DeleteBookNext(old(db.work), b)
      ensures !ok ==> db.work == old(db.work)
      ensures old(db.fault) == None ==> db.fault == None && (ok <==> !Ordered(old(db.work), b))
    {
      if Ordered(db.work, b) { return false; }
      ok := db.Flush(DeleteBookNext(db.work, b));
    }
  }

  class CartRepository {
    const db: Session

    constructor (db: Session) ensures this.db == db { this.db := db; }

    method GetByUserId(u: UserId) returns (r: Option<CartId>)
      ensures r.Some? <==> HasCart(db.work, u)
      ensures r.Some? ==> r.value in db.work.carts && db.work.carts[r.value] == u
    {
      if c :| c in db.work.carts && db.work.carts[c] == u {
        r := Some(c);
      } else {
        r := None;
      }
    }

    method GetItemByBook(c: CartId, b: BookId) returns (r: Option<ItemId>)
      ensures r.Some? <==> exists i :: i in db.work.items && db.work.items[i].cart == c && db.work.items[i].book == b
      ensures r.Some? ==> r.value in db.work.items && db.work.items[r.value].cart == c && db.work.items[r.value].book == b
    {
      if i :| i in db.work.items && db.work.items[i].cart == c && db.work.items[i].book == b {
        r := Some(i);
      } else {
        r := None;
      }
    }

    method Create(u: UserId, cid: CartId) returns (ok: bool)
      modifies db
      ensures db.committed == old(db.committed)
      ensures old(db.fault) == None ==> ok && db.fault == None
      ensures ok ==> db.work == old(db.work).(carts := old(db.work).carts[cid := u])
    {
      ok := db.Flush(db.work.(carts := db.work.carts[cid := u]));
    }

    // Insert a row, or write an existing row's quantity, which is a 32-bit column.
    method SaveItem(i: ItemId, row: CartItem) returns (ok: bool)
      modifies db
      ensures db.committed == old(db.committed)
      ensures ok ==> FitsInt32(row.quantity) && db.work == old(db.work).(items := old(db.work).items[i := row])
      ensures old(db.fault) == None ==> db.fault == None && (ok <==> FitsInt32(row.quantity))
    {
      if !FitsInt32(row.quantity) { return false; }
      ok := db.Flush(db.work.(items := db.work.items[i := row]));
    }

    method DeleteItem(i: ItemId) returns (ok: bool)
      modifies db
      ensures db.committed == old(db.committed)
      ensures old(db.fault) == None ==> ok && db.fault == None
      ensures ok ==> db.work == old(db.work).(items := old(db.work).items - {i})
    {
      ok := db.Flush(db.work.(items := db.work.items - {i}));
    }

    // Delete every row of the cart one by one, then flush once.
    method ClearItems(c: CartId) returns (ok: bool)
      modifies db
      ensures db.committed == old(db.committed)
      ensures old(db.fault) == None ==> ok && db.fault == None
      ensures ok ==> db.work == old(db.work).(items := old(db.work).items - (set i | i in old(db.work).items && old(db.work).items[i].cart == c))
      ensures ok ==> db.trail == old(db.trail) + [db.work]
      ensures !ok ==> db.work == old(db.work) && db.trail == old(db.trail)
    {
      var rows := set i | i in db.work.items && db.work.items[i].cart == c;
      var left, pending := rows, db.work.items;
      while left != {}
        invariant left <= rows
        invariant pending == db.work.items - (rows - left)
        decreases left
      {
        var i :| i in left;
        pending := pending - {i};
        left := left - {i};
      }
      ok := db.Flush(db.work.(items := pending));
    }
  }

  class OrderRepository {
    const db: Session

    constructor (db: Session) ensures this.db == db { this.db := db; }

    method GetById(o: OrderId) returns (r: Option<Order>)
      ensures r == if o in db.work.orders then Some(db.work.orders[o]) else None
    {
      r := if o in db.work.orders then Some(db.work.orders[o]) else None;
    }

    // Insert a new order or write an existing one; the total is a Numeric(10, 2).
    method Save(oid: OrderId, order: Order) returns (ok: bool)
      modifies db
      ensures db.committed == old(db.committed)
      ensures ok ==> FitsNumeric(order.total)
      ensures ok ==> db.work == old(db.work).(orders := old(db.work).orders[oid := order])
      ensures ok ==> db.trail == old(db.trail) + [db.work]
      ensures !ok ==> db.work == old(db.work) && db.trail == old(db.trail)
      ensures old(db.fault) == None ==> db.fault == None && (ok <==> FitsNumeric(order.total))
    {
      if !FitsNumeric(order.total) { return false; }
      ok := db.Flush(db.work.(orders := db.work.orders[oid := order]));
    }
  }
}
