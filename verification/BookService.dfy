/** The book administration operations. */
module BookServices {
  import opened Domain
  import opened Requests
  import opened Persistence

  class BookService {
    const db: Session
    const repo: BookRepository

    ghost predicate Wired() { repo.db == db }

    constructor (db: Session)
      ensures Wired() && this.db == db && fresh(this)
    {
      this.db := db;
      repo := new BookRepository(db);
    }

    // `accepted` stands for the author, category and ISBN checks.
    method CreateBook(b: BookId, stock: int, price: int, accepted: bool) returns (r: Result<()>)
      requires Wired()
      modifies db
      ensures db.committed == old(db.committed)
      ensures r.Ok? ==> accepted && FitsInt32(stock) && FitsNumeric(price)
      ensures r.Ok? ==> db.work == old(db.work).(books := old(db.work).books[b := Book(stock, price)])
      ensures r.HttpError? <==> !accepted
      ensures r.HttpError? ==> r.code == 400
      ensures old(db.fault) == None ==> db.fault == None
      ensures old(db.fault) == None ==> (r.Ok? <==> accepted && FitsInt32(stock) && FitsNumeric(price))
    {
      if !accepted { return HttpError(400); }
      var ok := repo.Create(b, Book(stock, price));
      return if ok then Ok(()) else DbError;
    }

    method UpdateBook(b: BookId, s: Field, p: Field, accepted: bool) returns (r: Result<()>)
      requires Wired() && RowsFit(db.work)
      modifies db
      ensures db.committed == old(db.committed)
      ensures r.Ok? ==> UpdateBookOk(old(db.work), b, s, p, accepted) && db.work == UpdateBookNext(old(db.work), b, s, p)
      ensures r == HttpError(404) <==> b !in old(db.work).books
      ensures r == HttpError(400) <==> b in old(db.work).books && !accepted
      ensures r.HttpError? ==> r.code == 404 || r.code == 400
      ensures old(db.fault) == None ==> db.fault == None && (r.Ok? <==> UpdateBookOk(old(db.work), b, s, p, accepted))
    {
      var found := repo.GetById(b);
      if found == None { return HttpError(404); }
      if !accepted { return HttpError(400); }
      if s.Null? || p.Null? { return DbError; }  // both columns are NOT NULL
      if s == Unset && p == Unset {
        assert db.work == UpdateBookNext(db.work, b, s, p);
        return Ok(());
      }
      var book := found.value;
      if s.Set? { book := book.(stock := s.value); }
      if p.Set? { book := book.(price := p.value); }
      var ok := repo.Update(b, book);
      return if ok then Ok(()) else DbError;
    }

    method DeleteBook(b: BookId) returns (r: Result<()>)
      requires Wired()
      modifies db
      ensures db.committed == old(db.committed)
      ensures r.Ok? ==> b in old(db.work).books && !Ordered(old(db.work), b)
      ensures r.Ok? ==> db.work == DeleteBookNext(old(db.work), b)
      ensures r == HttpError(404) <==> b !in old(db.work).books
      ensures r.HttpError? ==> r.code == 404
      ensures old(db.fault) == None ==>
                db.fault == None && (r.Ok? <==> b in old(db.work).books && !Ordered(old(db.work), b))
    {
      var found := repo.GetById(b);
      if found == None { return HttpError(404); }
      var ok := repo.Delete(b);
      return if ok then Ok(()) else DbError;
    }
  }
}
