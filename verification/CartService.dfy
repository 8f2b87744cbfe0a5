/** The cart operations, row by row. */
module CartServices {
  import opened Domain
  import opened Requests
  import opened Persistence

  class CartService {
    const db: Session
    const repo: CartRepository
    const books: BookRepository

    ghost predicate Wired() { repo.db == db && books.db == db }

    constructor (db: Session)
      ensures Wired() && this.db == db && fresh(this)
    {
      this.db := db;
      repo := new CartRepository(db);
      books := new BookRepository(db);
    }

    method GetOrCreateCart(u: UserId, cid: CartId) returns (r: Result<CartId>)
      requires Wired() && OneCartPerUser(db.work) && cid !in db.work.carts
      modifies db
      ensures db.committed == old(db.committed)
      ensures r.Ok? ==> db.work == WithCart(old(db.work), u, cid) && OneCartPerUser(db.work)
      ensures r.Ok? ==> r.value in db.work.carts && db.work.carts[r.value] == u
      ensures !r.HttpError?
      ensures old(db.fault) == None ==> r.Ok? && db.fault == None
    {
      var cart := repo.GetByUserId(u);
      if cart.Some? { return Ok(cart.value); }
      var ok := repo.Create(u, cid);
      return if ok then Ok(cid) else DbError;
    }

    method AddItem(u: UserId, b: BookId, q: int, cid: CartId, iid: ItemId) returns (r: Result<()>)
      requires Wired() && Schema(db.work) && cid !in db.work.carts && iid !in db.work.items
      modifies db
      ensures db.committed == old(db.committed)
      ensures r == HttpError(400) <==> q < 1
      ensures r == HttpError(404) <==> q >= 1 && b !in old(db.work).books
      ensures r.HttpError? ==> r.code == 404 || r.code == 400
      ensures r.Ok? ==> AddItemOk(old(db.work), u, b, q) && db.work == AddItemNext(old(db.work), u, b, q, cid, iid)
      ensures old(db.fault) == None ==> db.fault == None && (r.Ok? <==> AddItemOk(old(db.work), u, b, q))
    {
      if q < 1 { return HttpError(400); }
      var book := books.GetById(b);
      if book == None { return HttpError(404); }
      ghost var t0 := db.work;
      var cart := GetOrCreateCart(u, cid);
      if !cart.Ok? { return DbError; }
      RowsOfOwner(t0, u, cid, cart.value);
      var existing := repo.GetItemByBook(cart.value, b);
      var ok;
      match existing
      case None =>
        ok := repo.SaveItem(iid, CartItem(cart.value, b, q));
        return if ok then Ok(()) else DbError;
      case Some(i) =>
        assert RowOf(t0, u, b, i) && InCart(t0, u, b);
        var row := db.work.items[i];
        ok := repo.SaveItem(i, row.(quantity := row.quantity + q));
        return if ok then Ok(()) else DbError;
    }

    // get_item_by_id within the user's cart.
    method FindItem(u: UserId, i: ItemId, cid: CartId) returns (r: Result<CartItem>)
      requires Wired() && Schema(db.work) && cid !in db.work.carts
      modifies db
      ensures db.committed == old(db.committed)
      ensures r.Ok? ==> Owns(old(db.work), u, i) && db.work == old(db.work) && r.value == db.work.items[i]
      ensures r.HttpError? ==> !Owns(old(db.work), u, i) && r.code == 404
      ensures old(db.fault) == None ==> db.fault == None && !r.DbError?
    {
      ghost var t0 := db.work;
      var cart := GetOrCreateCart(u, cid);
      if !cart.Ok? { return DbError; }
      RowsOfOwner(t0, u, cid, cart.value);
      if i !in db.work.items || db.work.items[i].cart != cart.value { return HttpError(404); }
      return Ok(db.work.items[i]);
    }

    method UpdateItem(u: UserId, i: ItemId, amount: Option<int>, cid: CartId) returns (r: Result<()>)
      requires Wired() && Schema(db.work) && cid !in db.work.carts
      modifies db
      ensures db.committed == old(db.committed)
      ensures r.HttpError? ==> r.code == 404 || r.code == 400
      ensures r == HttpError(404) ==> !Owns(old(db.work), u, i)
      ensures r == HttpError(400) ==> Owns(old(db.work), u, i) && amount.Some? && amount.value < 1
      ensures old(db.fault) == None && !Owns(old(db.work), u, i) ==> r == HttpError(404)
      ensures old(db.fault) == None && Owns(old(db.work), u, i) && amount.Some? && amount.value < 1 ==> r == HttpError(400)
      ensures r.Ok? ==> UpdateItemOk(old(db.work), u, i, amount) && db.work == UpdateItemNext(old(db.work), i, amount)
      ensures old(db.fault) == None ==> db.fault == None && (r.Ok? <==> UpdateItemOk(old(db.work), u, i, amount))
    {
      var item := FindItem(u, i, cid);
      match item
      case HttpError(code) => return HttpError(code);
      case DbError => return DbError;
      case Ok(row) =>
        if amount == None { return Ok(()); }
        if amount.value < 1 { return HttpError(400); }
        var ok := repo.SaveItem(i, row.(quantity := amount.value));
        return if ok then Ok(()) else DbError;
    }

    method RemoveItem(u: UserId, i: ItemId, cid: CartId) returns (r: Result<()>)
      requires Wired() && Schema(db.work) && cid !in db.work.carts
      modifies db
      ensures db.committed == old(db.committed)
      ensures r.HttpError? ==> !Owns(old(db.work), u, i) && r.code == 404
      ensures old(db.fault) == None && !Owns(old(db.work), u, i) ==> r == HttpError(404)
      ensures r.Ok? ==> Owns(old(db.work), u, i) && db.work == old(db.work).(items := old(db.work).items - {i})
      ensures old(db.fault) == None ==> db.fault == None && (r.Ok? <==> Owns(old(db.work), u, i))
    {
      var item := FindItem(u, i, cid);
      match item
      case HttpError(code) => return HttpError(code);
      case DbError => return DbError;
      case Ok(_) =>
        var ok := repo.DeleteItem(i);
        return if ok then Ok(()) else DbError;
    }

    method ClearCart(u: UserId, cid: CartId) returns (r: Result<()>)
      requires Wired() && Schema(db.work) && cid !in db.work.carts
      modifies db
      ensures db.committed == old(db.committed)
      ensures !r.HttpError?
      ensures r.Ok? ==> db.work == WithCart(old(db.work), u, cid).(items := old(db.work).items - CartRows(old(db.work), u))
      ensures old(db.fault) == None ==> db.fault == None && r.Ok?
    {
      ghost var t0 := db.work;
      var cart := GetOrCreateCart(u, cid);
      if !cart.Ok? { return DbError; }
      RowsOfOwner(t0, u, cid, cart.value);
      var ok := repo.ClearItems(cart.value);
      assert (set i | i in t0.items && t0.items[i].cart == cart.value) == CartRows(t0, u);
      return if ok then Ok(()) else DbError;
    }
  }

  // A user's rows are the rows of the user's one cart; a cart just created has none.
  lemma RowsOfOwner(t: Tables, u: UserId, cid: CartId, c: CartId)
    requires Schema(t) && cid !in t.carts
    requires c in WithCart(t, u, cid).carts && WithCart(t, u, cid).carts[c] == u
    ensures forall i :: i in t.items ==> (t.items[i].cart == c <==> Owns(t, u, i))
    ensures CartIdOf(WithCart(t, u, cid), u) == c
  {
    var t1 := WithCart(t, u, cid);
    if HasCart(t, u) {
      var d := CartIdOf(t, u);
      assert t1 == t && d == c;
    } else {
      assert forall d :: d in t.carts ==> t.carts[d] != u;
      assert c == cid;
    }
  }
}
