/** A whole request: the route's service call inside get_db's transaction. */
module Api {
  import opened Domain
  import opened Requests
  import opened Persistence
  import opened OrderServices
  import opened CartServices
  import opened BookServices

  class Endpoint {
    const db: Session
    const orders: OrderService
    const carts: CartService
    const catalog: BookService

    ghost predicate Wired() {
      && orders.db == db && orders.Wired()
      && carts.db == db && carts.Wired()
      && catalog.db == db && catalog.Wired()
    }

    constructor (db: Session)
      ensures Wired() && this.db == db
    {
      this.db := db;
      orders := new OrderService(db);
      carts := new CartService(db);
      catalog := new BookService(db);
    }

    method Route(req: Request) returns (r: Result<()>)
      requires Wired() && Schema(db.work) && Enabled(db.work, req)
      modifies db
      ensures db.committed == old(db.committed)
      ensures r.Ok? ==> Succeeds(old(db.work), req) && db.work == Apply(old(db.work), req)
      ensures old(db.fault) == None ==> db.fault == None && (r.Ok? <==> Succeeds(old(db.work), req))
      ensures old(db.fault) == None ==>
                Refusal(old(db.work), req) == if r.HttpError? then Some(r.code) else None
    {
      match req
      case Checkout(u, listing, oid) =>
        assert forall i :: i in listing ==> i in CartRows(db.work, u);
        var o := orders.Checkout(u, listing, oid);
        r := if o.Ok? then Ok(()) else if o.HttpError? then HttpError(o.code) else DbError;
      case Cancel(u, oid) =>
        var o := orders.CancelOrder(u, oid);
        r := if o.Ok? then Ok(()) else if o.HttpError? then HttpError(o.code) else DbError;
      case ViewCart(u, cid) =>
        var c := carts.GetOrCreateCart(u, cid);
        r := if c.Ok? then Ok(()) else DbError;
      case AddItem(u, b, q, cid, iid) => r := carts.AddItem(u, b, q, cid, iid);
      case UpdateItem(u, i, amount, cid) => r := carts.UpdateItem(u, i, amount, cid);
      case RemoveItem(u, i, cid) => r := carts.RemoveItem(u, i, cid);
      case ClearCart(u, cid) => r := carts.ClearCart(u, cid);
      case CreateBook(b, s, p, accepted) => r := catalog.CreateBook(b, s, p, accepted);
      case UpdateBook(b, s, p, accepted) => r := catalog.UpdateBook(b, s, p, accepted);
      case DeleteBook(b) => r := catalog.DeleteBook(b);
    }

    /** All or nothing: wherever a guard, a constraint or a fault stops the request, the
        committed tables are untouched; otherwise they are exactly what Apply says. */
    method Handle(req: Request) returns (r: Result<()>)
      requires Wired() && db.work == db.committed
      requires Schema(db.committed) && Enabled(db.committed, req)
      modifies db
      ensures db.work == db.committed
      ensures r.Ok? ==> Succeeds(old(db.committed), req) && db.committed == Apply(old(db.committed), req)
      ensures !r.Ok? ==> db.committed == old(db.committed)
      ensures old(db.fault) == None ==> (r.Ok? <==> Succeeds(old(db.committed), req))
      ensures old(db.fault) == None ==> db.committed == Apply(old(db.committed), req)
      ensures old(db.fault) == None ==>
                Refusal(old(db.committed), req) == if r.HttpError? then Some(r.code) else None
    {
      r := Route(req);
      var done := db.Finish(r.Ok?);
      if r.Ok? && !done { r := DbError; }
    }
  }
}
