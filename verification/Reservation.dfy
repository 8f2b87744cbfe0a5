/** Theory of the check-then-decrement loop: one step, why a failed check is final, and
    independence of the order in which the lines are visited. */
module Reservation {
  import opened Domain
  import opened Requests

  predicate NonNegative(books: map<BookId, Book>) { forall b :: b in books ==> books[b].stock >= 0 }

  predicate CanTake(books: map<BookId, Book>, l: Line) {
    l.quantity >= 1 && l.book in books && l.quantity <= books[l.book].stock
  }

  function Take(books: map<BookId, Book>, l: Line): map<BookId, Book>
    requires l.book in books
  {
    books[l.book := books[l.book].(stock := books[l.book].stock - l.quantity)]
  }

  predicate CanReturn(books: map<BookId, Book>, l: Line) {
    l.book in books ==> FitsInt32(books[l.book].stock + l.quantity)
  }

  function Return(books: map<BookId, Book>, l: Line): map<BookId, Book> {
    if l.book in books then books[l.book := books[l.book].(stock := books[l.book].stock + l.quantity)] else books
  }

  // One more accepted line.
  lemma ReserveStep(books: map<BookId, Book>, lines: seq<Line>, i: nat)
    requires i < |lines| && Reservable(books, lines[..i])
    requires CanTake(Sell(books, lines[..i]), lines[i])
    ensures Reservable(books, lines[..i + 1])
    ensures Sell(books, lines[..i + 1]) == Take(Sell(books, lines[..i]), lines[i])
    ensures Priced(books, lines[..i + 1]) ==
            Priced(books, lines[..i]) + [OrderLine(lines[i], books[lines[i].book].price)]
  {
    forall b ensures Demand(lines[..i + 1], b) == Demand(lines[..i], b) + Wanted(lines[i], b) {
      DemandStep(lines, i, b);
    }
  }

  /** A line refused part-way is refused for good: no continuation of the loop, and no
      other reading of the list, makes the whole list reservable. */
  lemma RefusalIsFinal(books: map<BookId, Book>, lines: seq<Line>, i: nat)
    requires i < |lines| && !CanTake(Sell(books, lines[..i]), lines[i])
    ensures !Reservable(books, lines)
  {
    if Reservable(books, lines) {
      var b := lines[i].book;
      DemandStep(lines, i, b);
      DemandMonotone(lines, i + 1, b);
    }
  }

  // The loop as a function: take line after line, or stop at the first that cannot be taken.
  function Greedy(books: map<BookId, Book>, lines: seq<Line>): Option<map<BookId, Book>> {
    if lines == [] then Some(books)
    else
      var n := |lines| - 1;
      match Greedy(books, lines[..n])
      case None => None
      case Some(left) => if CanTake(left, lines[n]) then Some(Take(left, lines[n])) else None
  }

  /** Checking and decrementing line by line gives what one test up front gives: it succeeds
      exactly when all quantities are positive, all books exist and each book's summed
      demand is within its starting stock, and it leaves start minus summed demand. */
  lemma {:induction false} GreedyMeetsTest(books: map<BookId, Book>, lines: seq<Line>)
    ensures Greedy(books, lines) == if Reservable(books, lines) then Some(Sell(books, lines)) else None
    decreases |lines|
  {
    if lines == [] {
      assert Sell(books, lines) == books;
    } else {
      var n := |lines| - 1;
      GreedyMeetsTest(books, lines[..n]);
      assert lines[..n + 1] == lines;
      if !Reservable(books, lines[..n]) {
        if Reservable(books, lines) { PrefixReservable(books, lines, n); }
      } else if CanTake(Sell(books, lines[..n]), lines[n]) {
        ReserveStep(books, lines, n);
      } else {
        RefusalIsFinal(books, lines, n);
      }
    }
  }

  lemma PrefixReservable(books: map<BookId, Book>, lines: seq<Line>, n: nat)
    requires Reservable(books, lines) && n <= |lines|
    ensures Reservable(books, lines[..n])
  {
    forall i | 0 <= i < n ensures Demand(lines[..n], lines[i].book) <= books[lines[i].book].stock {
      DemandMonotone(lines, n, lines[i].book);
    }
  }

  lemma RestockStep(books: map<BookId, Book>, lines: seq<Line>, i: nat)
    requires i < |lines|
    ensures Restock(books, lines[..i + 1]) == Return(Restock(books, lines[..i]), lines[i])
  {
    forall b ensures Demand(lines[..i + 1], b) == Demand(lines[..i], b) + Wanted(lines[i], b) {
      DemandStep(lines, i, b);
    }
  }

  lemma SellStaysNonNegative(books: map<BookId, Book>, lines: seq<Line>)
    requires NonNegative(books) && Reservable(books, lines)
    ensures NonNegative(Sell(books, lines))
  {
    forall b | b in books ensures books[b].stock - Demand(lines, b) >= 0 {
      if forall i :: 0 <= i < |lines| ==> lines[i].book != b { DemandOutside(lines, b); }
    }
  }

  // A reserved stock only shrinks, and not below zero, so its column still holds it.
  lemma SoldStocksFit(books: map<BookId, Book>, lines: seq<Line>)
    requires Reservable(books, lines)
    requires forall b :: b in books ==> FitsInt32(books[b].stock)
    ensures forall b :: b in books ==> FitsInt32(Sell(books, lines)[b].stock)
  {
    forall b | b in books ensures FitsInt32(books[b].stock - Demand(lines, b)) {
      if forall i :: 0 <= i < |lines| ==> lines[i].book != b { DemandOutside(lines, b); }
      else { DemandMonotone(lines, |lines|, b); assert lines[..|lines|] == lines; }
    }
  }

  lemma RestockStaysNonNegative(books: map<BookId, Book>, lines: seq<Line>)
    requires NonNegative(books) && AllPositive(lines)
    ensures NonNegative(Restock(books, lines))
  {
    forall b | b in books ensures books[b].stock + Demand(lines, b) >= 0 {
      DemandMonotone(lines, |lines|, b);
      assert lines[..|lines|] == lines;
    }
  }

  /** With positive quantities, writing every intermediate stock fits exactly when the
      final stocks fit. */
  lemma RestockFitsIff(books: map<BookId, Book>, lines: seq<Line>)
    requires AllPositive(lines)
    requires forall b :: b in books ==> FitsInt32(books[b].stock)
    ensures RestockFits(books, lines) <==> forall b :: b in books ==> FitsInt32(Restock(books, lines)[b].stock)
  {
    forall b, k | b in books && 0 <= k < |lines| && lines[k].book == b
      ensures books[b].stock <= books[b].stock + Received(lines, k) <= Restock(books, lines)[b].stock
    {
      DemandMonotone(lines, k + 1, b);
    }
    if RestockFits(books, lines) {
      forall b | b in books ensures FitsInt32(Restock(books, lines)[b].stock) {
        LastFits(books, lines, b);
      }
    }
  }

  lemma {:induction false} LastFits(books: map<BookId, Book>, lines: seq<Line>, b: BookId)
    requires RestockFits(books, lines) && b in books && FitsInt32(books[b].stock)
    ensures FitsInt32(books[b].stock + Demand(lines, b))
    decreases |lines|
  {
    if lines != [] {
      var n := |lines| - 1;
      assert lines[..n + 1] == lines;
      if lines[n].book != b {
        forall k | 0 <= k < n && lines[..n][k].book in books
          ensures FitsInt32(books[lines[k].book].stock + Received(lines[..n], k))
        {
          ReceivedPrefix(lines, n, k);
        }
        LastFits(books, lines[..n], b);
      }
    }
  }

  // ----- order independence

  lemma PermutedMembers<T>(xs: seq<T>, ys: seq<T>)
    requires multiset(xs) == multiset(ys)
    ensures |xs| == |ys|
    ensures forall x :: x in xs <==> x in ys
  {
    assert |multiset(xs)| == |xs| && |multiset(ys)| == |ys|;
    forall x ensures x in xs <==> x in ys {
      assert x in multiset(xs) <==> x in xs;
      assert x in multiset(ys) <==> x in ys;
    }
  }

  lemma ReservablePermuted(books: map<BookId, Book>, xs: seq<Line>, ys: seq<Line>)
    requires multiset(xs) == multiset(ys) && Reservable(books, xs)
    ensures Reservable(books, ys)
  {
    PermutedMembers(xs, ys);
    forall i | 0 <= i < |ys|
      ensures ys[i].quantity >= 1 && ys[i].book in books && Demand(ys, ys[i].book) <= books[ys[i].book].stock
    {
      assert ys[i] in xs;
      var j :| 0 <= j < |xs| && xs[j] == ys[i];
      DemandPermutation(xs, ys, ys[i].book);
    }
  }

  // If equal elements of xs and ys have equal images, permuting the elements permutes the images.
  lemma {:induction false} ImagesPermute<A, B>(xs: seq<A>, xs': seq<B>, ys: seq<A>, ys': seq<B>)
    requires multiset(xs) == multiset(ys)
    requires |xs| == |xs'| && |ys| == |ys'|
    requires forall i, j :: 0 <= i < |xs| && 0 <= j < |ys| && xs[i] == ys[j] ==> xs'[i] == ys'[j]
    ensures multiset(xs') == multiset(ys')
    decreases |xs|
  {
    PermutedMembers(xs, ys);
    if xs != [] {
      var n := |xs| - 1;
      var k := Matching(xs, ys);
      ImagesPermute(xs[..n], xs'[..n], ys[..k] + ys[k + 1..], ys'[..k] + ys'[k + 1..]);
      assert xs' == xs'[..n] + [xs'[n]];
      assert ys' == ys'[..k] + [ys'[k]] + ys'[k + 1..];
    }
  }

  /** Visiting the lines in another order changes neither whether they can be reserved,
      nor the stocks left, nor the order lines as a multiset, nor the exact total. */
  lemma OrderIndependence(books: map<BookId, Book>, xs: seq<Line>, ys: seq<Line>)
    requires multiset(xs) == multiset(ys)
    ensures Reservable(books, xs) <==> Reservable(books, ys)
    ensures Sell(books, xs) == Sell(books, ys)
    ensures Reservable(books, xs) ==>
              && multiset(Priced(books, xs)) == multiset(Priced(books, ys))
              && ExactTotal(Priced(books, xs)) == ExactTotal(Priced(books, ys))
  {
    if Reservable(books, xs) { ReservablePermuted(books, xs, ys); }
    if Reservable(books, ys) { ReservablePermuted(books, ys, xs); }
    forall b ensures Demand(xs, b) == Demand(ys, b) { DemandPermutation(xs, ys, b); }
    if Reservable(books, xs) {
      ImagesPermute(xs, Priced(books, xs), ys, Priced(books, ys));
      ExactPermutation(Priced(books, xs), Priced(books, ys));
    }
  }

  lemma {:induction false} DistinctCount<T>(xs: seq<T>, x: T)
    requires Distinct(xs)
    ensures multiset(xs)[x] == if x in xs then 1 else 0
  {
    if xs != [] {
      var n := |xs| - 1;
      DistinctCount(xs[..n], x);
      assert xs == xs[..n] + [xs[n]];
    }
  }

  /** Two listings of the same cart give the same lines up to order. */
  lemma ListingsPermute(t: Tables, u: UserId, xs: seq<ItemId>, ys: seq<ItemId>)
    requires IsListing(t, u, xs) && IsListing(t, u, ys)
    ensures multiset(LinesOf(t.items, xs)) == multiset(LinesOf(t.items, ys))
  {
    forall i ensures multiset(xs)[i] == multiset(ys)[i] {
      DistinctCount(xs, i);
      DistinctCount(ys, i);
      assert (i in xs <==> i in CartRows(t, u)) && (i in ys <==> i in CartRows(t, u));
    }
    assert multiset(xs) == multiset(ys);
    ImagesPermute(xs, LinesOf(t.items, xs), ys, LinesOf(t.items, ys));
  }
}
