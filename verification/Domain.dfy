/** Rows of the shop's tables, the ranges their columns accept, and the sums over
    cart and order lines that the other modules reason with. */
module Domain {
  datatype Option<+T> = None | Some(value: T)

  // Every primary key is a UUID; only equality of keys matters.
  type BookId = nat
  type UserId = nat
  type CartId = nat
  type ItemId = nat
  type OrderId = nat

  datatype Book = Book(stock: int, price: int)  // price in cents
  datatype CartItem = CartItem(cart: CartId, book: BookId, quantity: int)
  datatype Line = Line(book: BookId, quantity: int)
  datatype OrderLine = OrderLine(line: Line, unitPrice: int)
  datatype Status = Pending | Placed | Cancelled | Other(name: string)
  datatype Order = Order(user: UserId, status: Status, lines: seq<OrderLine>, total: int)

  datatype Tables = Tables(
    books: map<BookId, Book>,
    carts: map<CartId, UserId>,
    items: map<ItemId, CartItem>,
    orders: map<OrderId, Order>)

  // What the hub tells its clients about a book's stock.
  datatype StockEvent = Updated(book: BookId, stock: int) | Deleted(book: BookId)

  // Column types: Integer is 32 bits wide, Numeric(10, 2) holds ten digits in all.
  const INT32_MAX := 2_147_483_647
  const NUMERIC_LIMIT := 10_000_000_000

  predicate FitsInt32(x: int) { -INT32_MAX - 1 <= x <= INT32_MAX }
  predicate FitsNumeric(cents: int) { -NUMERIC_LIMIT < cents < NUMERIC_LIMIT }

  // ----- demand: how many copies of one book a list of lines asks for

  function Wanted(l: Line, b: BookId): int { if l.book == b then l.quantity else 0 }

  function Demand(lines: seq<Line>, b: BookId): int {
    if lines == [] then 0
    else Demand(lines[..|lines| - 1], b) + Wanted(lines[|lines| - 1], b)
  }

  function Plain(ls: seq<OrderLine>): seq<Line> {
    seq(|ls|, i requires 0 <= i < |ls| => ls[i].line)
  }

  lemma DemandStep(lines: seq<Line>, k: nat, b: BookId)
    requires k < |lines|
    ensures Demand(lines[..k + 1], b) == Demand(lines[..k], b) + Wanted(lines[k], b)
  {
    assert lines[..k + 1][..k] == lines[..k];
  }

  lemma {:induction false} DemandConcat(xs: seq<Line>, ys: seq<Line>, b: BookId)
    ensures Demand(xs + ys, b) == Demand(xs, b) + Demand(ys, b)
  {
    if ys == [] {
      assert xs + ys == xs;
    } else {
      var n := |ys| - 1;
      assert (xs + ys)[..|xs + ys| - 1] == xs + ys[..n];
      DemandConcat(xs, ys[..n], b);
    }
  }

  predicate Distinct<T(==)>(xs: seq<T>) { forall i, j :: 0 <= i < j < |xs| ==> xs[i] != xs[j] }

  // The last element of xs occurs in ys, and dropping both keeps a permutation.
  lemma Matching<T>(xs: seq<T>, ys: seq<T>) returns (k: nat)
    requires multiset(xs) == multiset(ys) && xs != []
    ensures k < |ys| && ys[k] == xs[|xs| - 1]
    ensures ys == ys[..k] + ([ys[k]] + ys[k + 1..])
    ensures multiset(xs[..|xs| - 1]) == multiset(ys[..k] + ys[k + 1..])
  {
    var x := xs[|xs| - 1];
    assert x in multiset(ys);
    k :| 0 <= k < |ys| && ys[k] == x;
    assert ys == ys[..k] + ([x] + ys[k + 1..]);
    assert xs == xs[..|xs| - 1] + [x];
    assert multiset(ys) == multiset(ys[..k]) + multiset{x} + multiset(ys[k + 1..]);
    assert multiset(xs) == multiset(xs[..|xs| - 1]) + multiset{x};
    assert multiset(xs[..|xs| - 1]) == multiset(ys) - multiset{x};
    assert multiset(ys[..k]) + multiset(ys[k + 1..]) == multiset(ys) - multiset{x};
  }

  /** Demand ignores the order of the lines. */
  lemma {:induction false} DemandPermutation(xs: seq<Line>, ys: seq<Line>, b: BookId)
    requires multiset(xs) == multiset(ys)
    ensures Demand(xs, b) == Demand(ys, b)
    decreases |xs|
  {
    if xs == [] {
      assert |multiset(ys)| == 0;
    } else {
      var n := |xs| - 1;
      var k := Matching(xs, ys);
      var rest := ys[..k] + ys[k + 1..];
      DemandPermutation(xs[..n], rest, b);
      DemandConcat(ys[..k], ys[k + 1..], b);
      DemandConcat(ys[..k], [ys[k]] + ys[k + 1..], b);
      DemandConcat([ys[k]], ys[k + 1..], b);
      assert Demand([ys[k]], b) == Wanted(ys[k], b);
    }
  }

  predicate AllPositive(lines: seq<Line>) { forall i :: 0 <= i < |lines| ==> lines[i].quantity >= 1 }

  /** With positive quantities, a prefix never asks for more than the whole list does. */
  lemma {:induction false} DemandMonotone(lines: seq<Line>, k: nat, b: BookId)
    requires AllPositive(lines) && k <= |lines|
    ensures 0 <= Demand(lines[..k], b) <= Demand(lines, b)
    decreases |lines|
  {
    if k == |lines| {
      assert lines[..k] == lines;
      if k > 0 { DemandMonotone(lines[..k - 1], k - 1, b); assert lines[..k - 1][..k - 1] == lines[..k - 1]; }
    } else {
      var n := |lines| - 1;
      assert lines[..n][..k] == lines[..k];
      DemandMonotone(lines[..n], k, b);
    }
  }

  lemma {:induction false} DemandOutside(lines: seq<Line>, b: BookId)
    requires forall i :: 0 <= i < |lines| ==> lines[i].book != b
    ensures Demand(lines, b) == 0
  {
    if lines != [] { DemandOutside(lines[..|lines| - 1], b); }
  }

  // ----- keys

  lemma FreshKey(keys: set<nat>) returns (k: nat)
    ensures k !in keys
  {
    k := AllBelow(keys);
  }

  lemma {:induction false} AllBelow(keys: set<nat>) returns (k: nat)
    ensures forall x :: x in keys ==> x < k
  {
    if keys == {} {
      k := 0;
    } else {
      var x :| x in keys;
      k := AllBelow(keys - {x});
      if k <= x { k := x + 1; }
      assert forall y :: y in keys ==> y == x || y in keys - {x};
    }
  }

  // ----- money: Python's Decimal with the default context of 28 significant digits

  const PRECISION_LIMIT := 10_000_000_000_000_000_000_000_000_000

  // The power of ten that leaves 28 digits of x.
  function RoundUnit(x: nat): (u: nat)
    ensures u > 0
    ensures x < u * PRECISION_LIMIT
    ensures u == 1 || x >= u * (PRECISION_LIMIT / 10)
  {
    if x < PRECISION_LIMIT then 1 else 10 * RoundUnit(x / 10)
  }

  // Nearest multiple of unit; a tie goes to the even quotient.
  function RoundTo(x: nat, unit: nat): int
    requires unit > 0
  {
    var q, r := x / unit, x % unit;
    if 2 * r < unit || (2 * r == unit && q % 2 == 0) then q * unit else (q + 1) * unit
  }

  function Rounded(x: int): int {
    if x >= 0 then RoundTo(x, RoundUnit(x)) else -RoundTo(-x, RoundUnit(-x))
  }

  lemma RoundToNearest(x: nat, u: nat) returns (q: nat)
    requires u > 0
    ensures RoundTo(x, u) == q * u && 2 * RoundTo(x, u) - u <= 2 * x <= 2 * RoundTo(x, u) + u
    ensures 2 * x == 2 * RoundTo(x, u) - u || 2 * x == 2 * RoundTo(x, u) + u ==> q % 2 == 0
  {
    var k, r := x / u, x % u;
    assert x == k * u + r;
    assert (k + 1) * u == k * u + u;
    q := if 2 * r < u || (2 * r == u && k % 2 == 0) then k else k + 1;
  }

  /** Rounding an amount gives the nearest multiple q of the unit that leaves 28 digits, and an
      even q when two are as near; a negative amount is rounded as its opposite. */
  lemma RoundedNearest(x: nat) returns (q: nat, u: nat)
    ensures Rounded(x) == q * u && Rounded(0 - x) == 0 - Rounded(x)
    ensures 2 * Rounded(x) - u <= 2 * x <= 2 * Rounded(x) + u
    ensures 2 * x == 2 * Rounded(x) - u || 2 * x == 2 * Rounded(x) + u ==> q % 2 == 0
    ensures x < u * PRECISION_LIMIT && (u == 1 || x >= u * (PRECISION_LIMIT / 10))
  {
    u := RoundUnit(x);
    q := RoundToNearest(x, u);
  }

  lemma RoundedExact(x: int)
    requires -PRECISION_LIMIT < x < PRECISION_LIMIT
    ensures Rounded(x) == x
  {
    var n: nat := if x >= 0 then x else -x;
    assert RoundUnit(n) == 1 && n % 1 == 0;
  }

  function Amount(l: OrderLine): int { l.unitPrice * l.line.quantity }

  // The total as checkout accumulates it: every product and every sum is rounded.
  function RunningTotal(ls: seq<OrderLine>): int {
    if ls == [] then 0
    else Rounded(RunningTotal(ls[..|ls| - 1]) + Rounded(Amount(ls[|ls| - 1])))
  }

  // The total as arithmetic without rounding.
  function ExactTotal(ls: seq<OrderLine>): int {
    if ls == [] then 0
    else ExactTotal(ls[..|ls| - 1]) + Amount(ls[|ls| - 1])
  }

  predicate SaneLine(l: OrderLine) { 1 <= l.line.quantity <= INT32_MAX && FitsNumeric(l.unitPrice) }
  predicate SaneLines(ls: seq<OrderLine>) { forall i :: 0 <= i < |ls| ==> SaneLine(ls[i]) }

  // NUMERIC_LIMIT times INT32_MAX, the most one line can add, taken n times.
  function Reach(n: nat): int { n * 21_474_836_470_000_000_000 }

  lemma AmountBound(l: OrderLine)
    requires SaneLine(l)
    ensures -Reach(1) <= Amount(l) <= Reach(1)
  {
    ScaleMonotone(l.unitPrice, NUMERIC_LIMIT, l.line.quantity);
    ScaleMonotone(-NUMERIC_LIMIT, l.unitPrice, l.line.quantity);
  }

  lemma ScaleMonotone(x: int, y: int, q: nat)
    requires x <= y
    ensures x * q <= y * q
  {
  }

  const MAX_EXACT_LINES := 100_000_000

  /** For up to 10^8 lines no product and no sum reaches 28 digits, so the
      accumulated Decimal total is the exact sum of unit price times quantity. */
  lemma {:induction false} TotalsAreExact(ls: seq<OrderLine>)
    requires SaneLines(ls) && |ls| <= MAX_EXACT_LINES
    ensures RunningTotal(ls) == ExactTotal(ls)
    ensures -Reach(|ls|) <= ExactTotal(ls) <= Reach(|ls|)
  {
    if ls != [] {
      var n := |ls| - 1;
      TotalsAreExact(ls[..n]);
      AmountBound(ls[n]);
      RoundedExact(Amount(ls[n]));
      RoundedExact(ExactTotal(ls[..n]) + Amount(ls[n]));
    }
  }

  lemma {:induction false} ExactConcat(xs: seq<OrderLine>, ys: seq<OrderLine>)
    ensures ExactTotal(xs + ys) == ExactTotal(xs) + ExactTotal(ys)
  {
    if ys == [] {
      assert xs + ys == xs;
    } else {
      var n := |ys| - 1;
      assert (xs + ys)[..|xs + ys| - 1] == xs + ys[..n];
      ExactConcat(xs, ys[..n]);
    }
  }

  lemma {:induction false} ExactPermutation(xs: seq<OrderLine>, ys: seq<OrderLine>)
    requires multiset(xs) == multiset(ys)
    ensures ExactTotal(xs) == ExactTotal(ys)
    decreases |xs|
  {
    if xs == [] {
      assert |multiset(ys)| == 0;
    } else {
      var n := |xs| - 1;
      var k := Matching(xs, ys);
      var rest := ys[..k] + ys[k + 1..];
      ExactPermutation(xs[..n], rest);
      ExactConcat(ys[..k], ys[k + 1..]);
      ExactConcat(ys[..k], [ys[k]] + ys[k + 1..]);
      ExactConcat([ys[k]], ys[k + 1..]);
    }
  }
}
