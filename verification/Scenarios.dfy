/** A small shop in which single requests go wrong, for the counterexamples: book 7 at five
    euros, and one copy of it in the cart of user 1 and in the cart of user 2. */
module Scenarios {
  import opened Domain
  import opened Requests
  import opened Ledger

  function Shop(stock: int): Tables {
    Tables(map[7 := Book(stock, 500)], map[1 := 1, 2 := 2],
           map[11 := CartItem(1, 7, 1), 12 := CartItem(2, 7, 1)], map[])
  }

  const L7 := Line(7, 1)

  function Bought(u: UserId): Order { Order(u, Placed, [OrderLine(L7, 500)], 500) }

  function Listing(u: UserId): seq<ItemId> { [10 + u] }

  function Buy(u: UserId, oid: OrderId): Request { Checkout(u, Listing(u), oid) }

  // The shop after user 1 bought a copy.
  function Sold(stock: int): Tables { Shop(stock).(items := map[12 := CartItem(2, 7, 1)], orders := map[100 := Bought(1)]) }

  lemma OneLine()
    ensures forall b :: Demand([L7], b) == if b == 7 then 1 else 0
    ensures RunningTotal([OrderLine(L7, 500)]) == 500
    ensures Plain([OrderLine(L7, 500)]) == [L7]
  {
    assert [L7][..0] == [] && [OrderLine(L7, 500)][..0] == [];
    RoundedExact(500);
  }

  lemma ShopInv(stock: int)
    requires FitsInt32(stock)
    ensures Inv(Shop(stock))
  {
  }

  lemma SoldInv(stock: int)
    requires FitsInt32(stock)
    ensures Inv(Sold(stock))
  {
    OneLine();
    ShopInv(stock);
  }

  lemma ShopListing(stock: int, u: UserId)
    requires u == 1 || u == 2
    ensures CartRows(Shop(stock), u) == {10 + u} && IsListing(Shop(stock), u, Listing(u))
    ensures LinesOf(Shop(stock).items, Listing(u)) == [L7]
  {
    assert CartRows(Shop(stock), u) == {10 + u};
  }

  // User 1 buys the copy in the cart, and user 2 after that.
  lemma BuyOne(stock: int)
    requires stock >= 1
    ensures var t, r := Shop(stock), Buy(1, 100);
            Enabled(t, r) && Succeeds(t, r) && Apply(t, r) == Sold(stock - 1)
  {
    OneLine();
    ShopListing(stock, 1);
    assert Priced(Shop(stock).books, [L7]) == [OrderLine(L7, 500)];
  }

  lemma BuySecond(stock: int)
    requires stock >= 1
    ensures var t, r := Sold(stock), Buy(2, 200);
            && Enabled(t, r) && Succeeds(t, r) && Apply(t, r).books == map[7 := Book(stock - 1, 500)]
            && Apply(t, r).orders == map[100 := Bought(1), 200 := Bought(2)]
  {
    OneLine();
    var t := Sold(stock);
    assert CartRows(t, 2) == {12};
    assert LinesOf(t.items, Listing(2)) == [L7];
    assert Priced(t.books, [L7]) == [OrderLine(L7, 500)];
  }

  // Copies of book 7 in live orders, for no order, one, and two.
  lemma LiveCopies(oid: OrderId, oid': OrderId, u: UserId, u': UserId)
    requires oid != oid'
    ensures Live(map[], 7) == 0 && Live(map[oid := Bought(u)], 7) == 1
    ensures Live(map[oid := Bought(u), oid' := Bought(u')], 7) == 2
    ensures Live(map[oid := Bought(u).(status := Cancelled)], 7) == 0
  {
    OneLine();
    var none: map<OrderId, Order> := map[];
    LiveSet(none, oid, Bought(u), 7);
    LiveSet(none, oid, Bought(u).(status := Cancelled), 7);
    LiveSet(none[oid := Bought(u)], oid', Bought(u'), 7);
    assert none[oid := Bought(u)][oid' := Bought(u')] == map[oid := Bought(u), oid' := Bought(u')];
  }
}
