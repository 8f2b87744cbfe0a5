# Book store API: orders, stock views, refresh tokens and the websocket hub

A Dafny model of the parts of the book store where several requests meet: checkout and cancel
with the stock they move, the cart tables, the Redis copy of the stock and the stock events,
refresh-token rotation over a Redis that may fail, and the websocket hub.
`dafny verify dfyconfig.toml` checks everything.

| file | what it holds |
|---|---|
| `Domain.dfy` | table rows, column ranges, demand of a list of lines, Decimal totals |
| `Requests.dfy` | what each request does to the tables, stated up front: `Succeeds` and `Apply` |
| `Outcomes.dfy` | each request in terms of rows, numbers and statuses: exactly when it succeeds and what it leaves, and totals, statuses and prices over runs |
| `Reservation.dfy` | the check-then-decrement loop against the up-front test; order independence |
| `Persistence.dfy`, `OrderService.dfy`, `CartService.dfy`, `BookService.dfy`, `Api.dfy` | the session, repositories, services and the transaction around a request, as classes that update state, proved against `Requests` |
| `Ledger.dfy` | invariants, conservation of copies and order histories over runs of requests |
| `Undo.dfy` | a checkout and its cancel against the run without them |
| `Carts.dfy` | the cart tables as a map from user and book to quantity |
| `Interleaving.dfy` | one checkout or cancel among others in flight: locks, visits, and when its commit is a serial step |
| `InterleavedRuns.dfy` | runs of concurrent requests: serializability, conservation, no overselling, stale reads |
| `Alone.dfy` | a checkout or cancel in flight raises only when it should, and alone does the whole request |
| `Scenarios.dfy`, `Anomalies.dfy` | a small shop, and the runs in it that go wrong: stale reads, a double checkout, a double cancel |
| `Inventory.dfy`, `Routes.dfy` | the stock cache, the event stream, and the routes that feed them |
| `Reads.dfy`, `LateGet.dfy` | GETs of books in flight beside the requests that change them, and one that puts a sold copy back |
| `RefreshTokens.dfy`, `AuthRoutes.dfy` | login, rotation with its compensating revoke, logout |
| `Sessions.dfy` | whose session a token is, and what each reply of login, refresh and logout means |
| `Hub.dfy`, `Delivery.dfy` | connects, disconnects and broadcasts; the stock events as one client receives them |

## Reading the model

- Keys are naturals standing for UUIDs; fresh keys, and the order in which a query returns rows,
  are arguments of a request (`Enabled` says which arguments are possible).
- Money is in cents, so a `Numeric(10, 2)` is an integer below 10^10 in size; `Decimal` sums and
  products are rounded half-even to 28 digits. `Integer` columns hold 32 bits, and a flush that
  would overflow one raises.
- A flush or the commit may raise: a session's `fault` says after how many more of them. Author,
  category and ISBN checks are one flag of the administration requests.
- A book with order lines cannot be deleted, because `order_items.book_id` is a non-null foreign
  key without cascade (app/models/order.py:45-49); its cart rows go with it
  (app/models/book.py:45-49). So the "book is missing, skip it" branch of cancel is kept in the
  code of the model, and the invariant shows that no reachable order needs it.
- `SELECT ... FOR UPDATE` is taken to return the committed row or the transaction's own write.
  Checkout has already eager-loaded the same rows through the cart
  (app/repositories/cart_repository.py:14-22), so this is an assumption about the ORM;
  `Interleaving` makes it the parameter `refresh`, and `StaleReadsOversell` sells one copy twice
  without it. Prices are always read fresh, since every stock write is followed by a refresh of
  the row (app/repositories/book_repository.py:107-109).
- In `Interleaving` a checkout reads its cart, and a cancel its order, when it begins, and nothing
  locks either (app/services/order_service.py:23, app/services/order_service.py:91). Any number of
  checkouts of one user, and of cancels of one order, may be in flight, and carts and books are
  edited meanwhile; only the locked book rows wait. The last step stores the order, deletes the
  rows the cart holds by then (app/repositories/cart_repository.py:82-88) and commits.
- Two guarantees are therefore false of the code as it stands, and both have their exact
  condition. A commit is one serial step if and only if its locked rows were read as committed and
  the cart holds the quantities that were read, or the order can still be cancelled
  (`CommitIsSerialIff`): a double-submitted checkout places two orders that no sequence of
  checkouts places (`DoubleSubmit`). A commit creates copies exactly by what a stale read
  overstates and by an order already cancelled (`CommitMovesSupply`): two cancels of one order in
  flight restock it twice (`DoubleCancel`), two checkouts of one cart create nothing.
- `hydrate_book` assigns the cached stock to a mapped row in a session that later commits. It is
  modelled as that write. Each Redis write of a route may be lost on its own (`up`), and the exact
  conditions under which the cache stays right are stated on the request, the tables before it and
  the lost writes; `ReadAfterLossRestoresSoldCopy` is a GET that puts a sold copy back on the shelf.
- A GET can do the same without any fault, when it takes its stock from the cache before another
  checkout and commits after it (`GetRestoresSoldCopy`). A row is written only if the cached stock
  differs from the loaded one. `FinishHarmlessIff` has the exact condition for a GET's commit to
  change nothing, and `SteadyGetsAreHarmless` one on the run.
- A token expires at its `exp` second (section 4.1.4 of RFC 7519), `jti` values never repeat
  (section 4.1.7), signatures cannot be forged, and SHA-256 keys are told apart by their token.
  The JWT library compares whole seconds and may accept a token until the end of its `exp`
  second; the library is not part of this model, so `grace` is how long past `exp` a token still
  decodes, and the results hold for every value of it.
- The repository's README lists `POST /orders` and `PATCH /orders/{id}/cancel`; the routers
  declare `POST /orders/checkout` and `POST /orders/{id}/cancel`. The model follows the routers.

## Model

| member | source | states |
|---|---|---|
| Domain.TotalsAreExact | app/services/order_service.py:31-63 | for up to 10^8 sane lines the accumulated 28-digit Decimal total never rounds: it is the exact sum of unit price times quantity |
| Domain.RoundedNearest | app/services/order_service.py:31 | beyond 28 digits a Decimal is rounded to the nearest multiple of a power of ten, a tie to the even one |
| Domain.DemandPermutation | app/services/order_service.py:33-56 | the copies of a book a cart asks for do not depend on the order of its lines |
| Reservation.GreedyMeetsTest | app/services/order_service.py:33-56 | checking and decrementing line by line succeeds exactly when all quantities are positive, all books exist and each book's summed demand is within its stock; it leaves start minus summed demand |
| Reservation.RefusalIsFinal | app/services/order_service.py:34-51 | a line refused part-way means no reading of the whole list could be accepted |
| Reservation.RestockFitsIff | app/services/order_service.py:106-113 | restocking never overflows a stock column on the way exactly when the final stocks fit |
| Reservation.OrderIndependence | app/services/order_service.py:33-63 | permuting the lines changes neither acceptance, nor the stocks left, nor the order lines as a multiset, nor the exact total |
| Reservation.ListingsPermute | app/repositories/cart_repository.py:14-28 | any two orders the query may return a cart's rows in give the same lines up to order |
| Persistence.Session.Finish | app/core/database.py:26-36 | after the route the work is committed whole or rolled back whole |
| Persistence.BookRepository.Update | app/repositories/book_repository.py:96-110 | one row is replaced inside the transaction, or a column range or a fault raises and neither the tables nor the flushed states change |
| Persistence.BookRepository.Delete | app/repositories/book_repository.py:112-115 | the row goes with its cart rows, unless an order line refers to it |
| Persistence.CartRepository.ClearItems | app/repositories/cart_repository.py:82-88 | the delete loop removes exactly the rows of one cart |
| OrderServices.OrderService.ReserveLines | app/services/order_service.py:30-63 | the loop accepts only a reservable list, leaves start minus demand, the priced lines and their total; refuses only what is not reservable; no flushed state shows a negative stock |
| OrderServices.OrderService.Checkout | app/services/order_service.py:21-73 | succeeds exactly on the up-front condition when nothing faults, then stores the order and empties the cart; a 404 means a listed book is missing; intermediate stocks stay non-negative |
| OrderServices.OrderService.RestockLines | app/services/order_service.py:105-113 | the restock loop returns every line's copies or fails because a stock would overflow or a fault struck |
| OrderServices.OrderService.CancelOrder | app/services/order_service.py:89-116 | 404 exactly for a missing or foreign order, 400 exactly for one that is past pending or placed, otherwise all copies back and the status cancelled, or a fault or an overflow |
| CartServices.CartService.GetOrCreateCart | app/services/cart_service.py:19-23 | the user's one cart, created when there is none |
| CartServices.CartService.AddItem | app/services/cart_service.py:37-52 | merges into the book's row or adds one; answers 400 exactly for a quantity below one, 404 exactly for an unknown book, and raises on an overflow |
| CartServices.CartService.UpdateItem | app/services/cart_service.py:54-71 | overwrites the quantity of a row of the user's own cart, and only that |
| CartServices.CartService.RemoveItem | app/services/cart_service.py:73-84 | removes a row of the user's own cart, and only that |
| CartServices.CartService.ClearCart | app/services/cart_service.py:86-90 | removes exactly the user's rows |
| BookServices.BookService.CreateBook | app/services/book_service.py:160-176 | adds the row exactly when the checks pass and the columns hold the values |
| BookServices.BookService.UpdateBook | app/services/book_service.py:178-207 | writes only the fields sent; 404 exactly for a missing book, 400 exactly when a check fails; an explicit null for stock or price raises |
| BookServices.BookService.DeleteBook | app/services/book_service.py:209-217 | deletes exactly an existing book without order lines |
| Api.Endpoint.Handle | app/core/database.py:26-36 | all or nothing for every request: wherever a guard, a constraint or a fault stops it the committed tables are untouched, otherwise they are what the request promises; without faults a guard that refuses answers with its 400 or 404 |
| Outcomes.CheckoutSucceedsIff | app/services/order_service.py:23-70 | a checkout of up to 10^8 rows succeeds exactly when the cart has rows, each is within its book's stock, and price times quantity adds up to less than 10^8 in the currency |
| Outcomes.CheckoutStores | app/services/order_service.py:58-70 | it stores one placed order of the user, a line with the present price for each row, and the sum of price times quantity as the total; no other order changes |
| Outcomes.CheckoutTakes | app/services/order_service.py:47-72 | it takes the user's quantity of each book off its stock, leaves all prices, and empties the user's cart and no other |
| Outcomes.CancelSucceedsIff | app/services/order_service.py:91-113 | a cancel succeeds exactly when the order is there, is the user's, is pending or placed, and every 32-bit stock has room for its copies |
| Outcomes.OtherStatusStays | app/services/order_service.py:98-103 | over any run an order of any other status keeps it and none of its copies is returned |
| Outcomes.StoredTotalLineByLine | app/services/order_service.py:62 | over any run a stored total grows, line by line from nothing, by unit price times quantity |
| Outcomes.CartRequestSucceedsIff | app/services/cart_service.py:25-90 | exactly when adding, updating, removing, viewing and clearing succeed |
| Outcomes.CartsAfter | app/services/cart_service.py:19-23 | viewing, adding and clearing open one cart for a user without one; nothing else touches the carts |
| Outcomes.BookRequestSucceedsIff | app/services/book_service.py:160-217 | exactly when creating, updating and deleting a book succeed |
| Outcomes.UpdateStores | app/services/book_service.py:185-207 | an update writes the stock and the price that were sent, keeps those that were not, and changes nothing else |
| Outcomes.CreateAndDeleteStore | app/services/book_service.py:160-217 | a created book has the stock and price sent, a deleted one is gone from the catalogue and from all carts, and nothing else changes |
| Outcomes.PriceIsLastWritten | app/repositories/book_repository.py:96-110 | over any run a book's price is the one the last successful create or update with a price wrote |
| Outcomes.UnitPriceIsLastWritten | app/services/order_service.py:56-61 | a checkout's unit prices are those prices |
| Outcomes.EveryoneMayAsk | app/repositories/cart_repository.py:24-28 | whatever the tables, any cart can be listed and fresh keys exist, so no user is ever unable to make a request |
| Ledger.InvKept | app/models/cart.py:18-39 | every request keeps one cart per user, one row per book and cart, every reference, positive quantities, column ranges and order totals |
| Ledger.GuardsNeverFire | app/services/order_service.py:34-45 | in reachable tables checkout's quantity and missing-book guards never fire |
| Ledger.CheckoutRowByRow | app/services/order_service.py:33-54 | in reachable tables a cart can be reserved exactly when each row alone is in stock |
| Ledger.SupplyConserved | app/services/order_service.py:47-56 | stock plus the copies in live orders changes by an administrator's write of a stock and by nothing else |
| Ledger.EntryBalances | app/services/book_service.py:160-217 | a ledger written only by administration requests stays equal to stock plus live copies, book by book |
| Ledger.ConservationOverRuns | app/services/order_service.py:21-116 | over any run of cart operations, checkouts and cancels every book keeps its supply |
| Ledger.NoOverselling | app/services/order_service.py:47-54 | if administrators write non-negative stocks, stocks stay non-negative in every run and live orders stay within the ledger |
| Ledger.OrdersAreFrozen | app/repositories/order_repository.py:43-64 | nothing after its checkout changes an order's owner, lines, prices or total, and its status moves only to cancelled |
| Ledger.StoredTotalsAreExact | app/models/order.py:26 | in every run a stored total is the exact sum over its lines and fits its column |
| Ledger.RestockedAtMostOnce | app/services/order_service.py:98-115 | in any run at most one cancel of an order succeeds |
| Ledger.CancelGoesThrough | app/services/order_service.py:91-113 | after a checkout and any requests in between, its cancel succeeds exactly when the returned copies fit the stock columns |
| Ledger.CancelUndoesCheckout | app/services/order_service.py:47-56 | a checkout and its later cancel have no net effect on any stock, whatever ran in between |
| Undo.CancelLeavesNoTrace | app/services/order_service.py:105-115 | when the successful checkouts and cancels in between also succeed without the checkout, its cancel always goes through and the books end as if the checkout had never been |
| Ledger.CheckoutIgnoresRowOrder | app/repositories/cart_repository.py:14-28 | the order of the cart rows changes neither the decision nor the tables, but for the order of the order lines |
| Carts.QuantityIs | app/models/cart.py:22-24 | a user has at most one row per book, and it holds the quantity |
| Carts.CartRefinement | app/services/cart_service.py:37-90 | every request acts on the map from user and book to quantity as addition, overwrite, removal or emptying, for that user only, and quantities in a cart are positive |
| Carts.CheckoutDecision | app/services/order_service.py:23-51 | checkout accepts the cart exactly when every book's stock covers its quantity, and calls it empty exactly when the map is |
| Interleaving.CommitIsSerialIff | app/services/order_service.py:23-72 | a commit does what its request would do alone, and successfully, exactly when every locked row was read as committed and the cart, or the order's status, is still as it was read |
| Interleaving.CommitMovesSupply | app/services/order_service.py:91-115 | the exact copies of a book a commit creates: what a stale read overstates, and the lines of an order cancelled in the meantime |
| Interleaving.CommitKeepsInv | app/services/order_service.py:65-72 | a commit keeps every key, reference, range and order total, however stale its reads and its cart |
| Alone.RaisesRightly | app/services/order_service.py:34-51 | a visit that raises, or a total that does not fit, finds a request that run alone on the committed tables is refused too |
| Alone.AloneDoesAll | app/services/order_service.py:21-116 | a request that would succeed can always run with nothing else in flight, and its steps then do exactly what it does |
| Carts.ListingHolds | app/repositories/cart_repository.py:24-28 | the lines a query returns for a cart hold, book by book, the user's quantities |
| Carts.ListingOf | app/repositories/cart_repository.py:14-28 | conversely, a cart with the quantities of some lines can be returned as exactly these lines |
| InterleavedRuns.StepOk | app/services/order_service.py:33-72 | every step of any interleaving keeps the tables' invariant, the exclusive locks and each transaction's account of its work |
| InterleavedRuns.OkInRuns | app/repositories/book_repository.py:30-34 | so does every run, and with fresh locking reads every locked row stays as it was read |
| InterleavedRuns.RollbackLeavesNoTrace | app/core/database.py:32-36 | a transaction that raises or aborts leaves the committed tables and all others as they are and frees its locks |
| InterleavedRuns.Serializability | app/core/database.py:26-36 | for fresh and for stale locking reads, a run whose commits each meet the condition of CommitIsSerialIff leaves the tables that its committed requests, one at a time in commit order, leave |
| InterleavedRuns.SerializabilityApart | app/services/order_service.py:33-72 | with fresh locking reads any interleaving of checkouts of different users, cancels of different orders and edits that do not concern them is serializable |
| InterleavedRuns.SerializabilityStale | app/repositories/cart_repository.py:14-22 | with stale locking reads so it is when also no step changes the stock of a book another request in flight has listed |
| InterleavedRuns.StaleReadIsFreshIff | app/repositories/book_repository.py:30-34 | a stale locking read is the committed stock exactly when the stock at the start of the transaction and at its lock are the same |
| InterleavedRuns.SupplyAccount | app/services/order_service.py:47-56 | for fresh and for stale locking reads and any number of cancels of one order, stock plus live copies is a ledger only administrators write plus exactly the copies the run's commits created |
| InterleavedRuns.OversoldByDrift | app/services/order_service.py:47-54 | live orders exceed that ledger by at most what commits have created |
| InterleavedRuns.ConservationInterleaved | app/services/order_service.py:47-56 | with fresh locking reads, under any interleaving with at most one cancel of an order in flight, double-submitted checkouts included, stock plus live copies stays equal to the ledger |
| InterleavedRuns.NeverNegativeInterleaved | app/services/order_service.py:47-54 | under any interleaving, for fresh and for stale locking reads, double submissions of both kinds included, neither the committed stocks nor any transaction's own writes go negative |
| InterleavedRuns.NoOversellingInterleaved | app/services/order_service.py:47-54 | with fresh locking reads and at most one cancel of an order in flight, live orders never hold more copies than the ledger shows |
| Anomalies.StaleReadsOversell | app/repositories/cart_repository.py:14-22 | if the locking read gives the copy loaded at the start, two concurrent checkouts sell the only copy twice |
| Anomalies.DoubleSubmit | app/services/order_service.py:23-72 | a checkout submitted twice places two orders, which no sequence of the user's checkouts does; no copy is created |
| Anomalies.DoubleSubmitIsFresh | app/services/order_service.py:23 | its second commit has fresh rows and a cart no longer as read, and is not a serial step |
| Anomalies.DoubleCancel | app/services/order_service.py:91-103 | two cancels of one order in flight turn a supply of one into two |
| Inventory.PublishedReplays | app/api/v1/routers/orders.py:42-61 | folding what a request publishes over the stocks before it gives the stocks after it: each route refreshes exactly the books it changed |
| Inventory.ChangesIff | app/services/order_service.py:47-56 | a request changes the stock of a book exactly when it succeeds and is a checkout or cancel with a line of it, an update of its stock to another value, its creation or its deletion |
| Inventory.PublishedTells | app/api/v1/routers/orders.py:42-61 | what a route pushes are the stocks its request left, one push for each line or for the book administered |
| Inventory.CacheAfter | app/api/v1/routers/books.py:51-55 | whatever pushes Redis loses, the cache is then right about the books it heard of and as before about all others |
| Inventory.LostPushesHarmlessIff | app/api/v1/routers/orders.py:50-52 | lost pushes leave the cache right exactly when some push of every cached book whose stock the request changes went through |
| Inventory.FailedCommitHarmlessIff | app/core/database.py:26-36 | routes push before the commit; when the commit then fails, the cache is right exactly when each push that went through was of an unchanged stock or of a deletion |
| Inventory.ReadIsHarmlessIff | app/core/inventory_cache.py:32-39 | a hydrated read followed by the commit leaves the database unchanged exactly when the cached stocks among the read books are the database's |
| Inventory.ReadAfterLossHarmlessIff | app/core/inventory_cache.py:32-35 | after a request with lost pushes a read changes the database exactly when it reads a cached book whose stock the request changed and whose pushes were all lost |
| Inventory.ReadAfterLossReverts | app/core/inventory_cache.py:32-35 | such a read commits the very stock the book had before the request |
| Inventory.ReadAfterLossRestoresSoldCopy | app/core/inventory_cache.py:32-35 | concretely: the only copy is sold during an outage, and the next GET of the book puts it back into the database |
| Inventory.CacheAndEventsAgree | app/api/v1/routers/books.py:40-81 | in runs that lose no push of a cached book whose stock changes, the cache agrees with the database, the tables evolve as without a cache, and the events sent fold to the current stocks |
| Inventory.FaultFreeRunsAgree | app/api/v1/routers/orders.py:42-61 | the same for every run in which no Redis call fails, with no further condition |
| Reads.FinishHarmlessIff | app/core/inventory_cache.py:32-35 | the commit of a GET in flight changes nothing exactly when a book it would write is gone, or each stock it would write, as hydrated, is still the committed one |
| Reads.AloneIsWholeRead | app/api/v1/routers/books.py:40-48 | a GET that nobody interrupts does what a whole read does |
| Reads.HydratedAllIs | app/core/inventory_cache.py:32-39 | hydrating the loaded books one by one leaves exactly the differing cached stocks to write |
| Reads.LastHydrationCounts | app/core/inventory_cache.py:32-35 | a cached book is written exactly when its cached stock, as last read, differs from the loaded one |
| Reads.GetsAgree | app/core/database.py:28-31 | with any number of GETs in flight whose commits meet that condition, the tables evolve as without them and cache and events agree, counting the request that has pushed and not yet committed |
| Reads.SteadyGetsAreHarmless | app/core/inventory_cache.py:32-39 | GETs are harmless in every run in which no request changes a stock that a GET in flight has hydrated and will write |
| LateGet.GetRestoresSoldCopy | app/api/v1/routers/books.py:116-125 | without any fault, a GET overtaken by a checkout puts a sold copy back: a supply of two becomes three |
| Delivery.ClientFollowsStocks | app/core/realtime.py:25-39 | a client that stays connected and fails no send receives exactly the events broadcast since, and folding them over the stocks at that moment gives the current stocks |
| Routes.InventoryCache.HydrateBooks | app/core/inventory_cache.py:37-39 | the loop overwrites exactly the read books that are cached |
| Routes.App.PushLines | app/api/v1/routers/orders.py:98-113 | the loop caches and broadcasts the fresh stock of every line's existing book, in order; a suppressed Redis error loses one cache write and no event |
| Routes.App.Serve | app/api/v1/routers/orders.py:30-63 | a complete request changes tables, cache and event stream together, and none of them when refused; a failing commit takes back the tables but not what was pushed |
| Routes.App.ReadBooks | app/api/v1/routers/books.py:84-125 | a read shows the hydrated rows, up to the first Redis error, and commits them, or fails and changes nothing; with a coherent cache the database does not change |
| RefreshTokens.DeadlineCoversExpiry | app/core/refresh_token_store.py:23-27 | the Redis deadline of a token is not before the token's own expiry, however late the store call comes |
| Sessions.LoginGrants | app/api/v1/routers/auth.py:158-186 | a login is granted exactly when the store goes through; the token names the user who logged in, expires the lifetime after signing, is stored for the lifetime, and is the browser's cookie |
| Sessions.RefreshGrants | app/api/v1/routers/auth.py:220-250 | a granted refresh hands the browser a token of the subject and login of the token presented, with the full lifetime |
| Sessions.RefreshReplies | app/api/v1/routers/auth.py:195-245 | exactly when a refresh is granted, refused with 401 and with 503 |
| Sessions.LogoutReplies | app/api/v1/routers/auth.py:261-297 | a logout succeeds exactly for a valid refresh token when the revoke goes through, answers 401 exactly for an invalid one and 503 exactly when the revoke fails; a success takes the token out of the store and the cookie out of the browser |
| Sessions.LogoutEnds | app/api/v1/routers/auth.py:272-278 | after a logout of a valid token whose revoke goes through, no continuation of the run accepts it |
| Sessions.RefreshEnds | app/api/v1/routers/auth.py:234-250 | the same after a refresh of a valid, live token whose calls go through |
| Sessions.ExpiredForGood | app/core/security.py:69-78 | once its expiry and the grace are over, no continuation of the run accepts a token |
| Sessions.TokensNameTheirUser | app/core/security.py:69-78 | in every run each signed token names the user of the login it descends from, however often rotated |
| Sessions.CookieNamesLastUser | app/api/v1/routers/auth.py:185 | a browser's cookie names the user who last logged in there |
| Sessions.CountsAre | app/api/v1/routers/auth.py:235-245 | the count in the bound on live tokens is the number of rotations in which both revokes failed |
| Sessions.LiveTokensAreBounded | app/api/v1/routers/auth.py:221-250 | the tokens of a login that a refresh would accept number at most one plus those rotations |
| RefreshTokens.InvKept | app/api/v1/routers/auth.py:147-297 | every request, with any Redis failures, keeps provenance, deadlines, the bound per login and the absence of ended tokens |
| RefreshTokens.LiveTokensPerLogin | app/api/v1/routers/auth.py:221-250 | in every run the live tokens descending from a login number at most one plus its rotations in which both revokes failed |
| RefreshTokens.AcceptedIff | app/api/v1/routers/auth.py:195-250 | a refresh is granted exactly when the token is stored and decodes, Redis has not timed it out, and the read, store and revoke go through; Redis times out no token before its expiry |
| RefreshTokens.EffectAt | app/core/refresh_token_store.py:26-30 | a signed token leaves the store in the step that ends it and in no other, and its entry never changes |
| RefreshTokens.AcceptedUntilExpiry | app/core/security.py:69-78 | a stored token that no rotation or logout has ended is accepted at every moment before its expiry |
| RefreshTokens.SingleUse | app/api/v1/routers/auth.py:234-250 | once a refresh of a token is granted or a logout of it succeeds, no continuation of the run accepts it |
| RefreshTokens.OtherLineagesUntouched | app/api/v1/routers/auth.py:206-250 | a request touches the stored tokens of one login only |
| RefreshTokens.AlwaysAligned | app/api/v1/routers/auth.py:247-250 | after every response the cookie of every browser, unless expired, is live in the store under its own subject |
| AuthRoutes.RefreshTokenStore.Store | app/core/refresh_token_store.py:20-24 | sets the key with its deadline, and is a no-op for a lifetime that is not positive |
| AuthRoutes.AuthRouter.LoginUser | app/api/v1/routers/auth.py:147-186 | the endpoint's calls amount to the login step, failures included |
| AuthRoutes.AuthRouter.RefreshAccessToken | app/api/v1/routers/auth.py:189-250 | the endpoint's calls, with the compensating revoke, amount to the rotation step |
| AuthRoutes.AuthRouter.LogoutUser | app/api/v1/routers/auth.py:253-297 | the endpoint's calls amount to the logout step, the early return without clearing the cookie included |
| Hub.AlwaysConsistent | app/core/realtime.py:16-39 | with any number of interleaved broadcasts the connections are those that connected minus those that left or were dropped, and only failed sockets are dropped |
| Hub.FailedAreDropped | app/core/realtime.py:29-39 | once no broadcast is in flight the sockets dropped are exactly those with a failed send |
| Hub.LoneBroadcast | app/core/realtime.py:25-39 | a broadcast can start at any time, and alone it drops exactly the sockets whose send failed |
| Hub.HealthyStayGoneStayGone | app/core/realtime.py:25-39 | no client without a failed send is dropped and no client that is gone comes back |
| Hub.ConnectsAndDisconnects | app/core/realtime.py:16-23 | a client that connects is connected at once, one that disconnects is gone at once and for good |
| Hub.HistoryIs | app/core/realtime.py:16-23 | who has joined and left in the other results are those with a connect and a disconnect in the run |
| Hub.HealthyReceiveAll | app/core/realtime.py:25-39 | with broadcasts one at a time, a client that stays connected and fails no send receives what is broadcast, in order and once |
| Hub.ChangedIsSetDifference | app/core/realtime.py:16-39 | when each socket connects once, connects, disconnects and drops by other broadcasts add up as sets in any order |
| Hub.WebSocketHub.Broadcast | app/core/realtime.py:25-39 | sends once to each member of the copy and ends with start plus connected minus disconnected, minus dropped by other broadcasts, minus failed sends, whatever happens between the sends |

## Left out

- InterleavedRuns.Serializability: cart and book requests run as one step each, and so do the end of a checkout (storing the order, deleting the cart rows) and its commit; administration is not itself interleaved.
- InterleavedRuns.ConservationInterleaved: with fresh locking reads and at most one cancel of an order in flight, since conservation is false otherwise (Anomalies.StaleReadsOversell, Anomalies.DoubleCancel); InterleavedRuns.SupplyAccount needs neither.
- InterleavedRuns.NoOversellingInterleaved: under the same two conditions; InterleavedRuns.OversoldByDrift needs neither.
- GETs of books are outside the interleaved results on checkouts and cancels; Reads.GetsAgree has them in flight beside whole requests that change books, one of these at a time, each of which commits.
- Inventory.CacheAndEventsAgree: whole requests one at a time and successful commits; the exact effect of a failing commit is stated separately.
- Delivery.ClientFollowsStocks: broadcasts one at a time, as whole requests one at a time make them; the hub gives concurrent broadcasts no order.
- RefreshTokens.AlwaysAligned and Sessions.CookieNamesLastUser: each browser sends its own cookie; a token copied to another client would end the first client's session.
- RefreshTokens.LiveTokensPerLogin: requests are atomic with respect to each other and a failing Redis call has no effect.
- Ledger.StoredTotalsAreExact: for orders of up to 10^8 lines, the range in which 28 digits are enough; likewise Outcomes.CheckoutSucceedsIff, Outcomes.CheckoutStores and Outcomes.StoredTotalLineByLine. Beyond it Domain.RoundedNearest says how each step rounds.
- Deadlock detection and isolation levels beyond row locks: a transaction that waits for a lock just does not move.
- The ORM's identity map, lazy loading and skipping of unchanged columns, beyond the parameter `refresh`.
- Login is modelled after the password check; registration, users, roles and the audit log are not modelled.
- Password hashing, JWT encoding and the access token's own use.
- Listing and searching books: paging, sorting and text matching are decided by the database.
- Wishlist, authors and categories: they would add only easy members.
- HTTP wiring, serialization, rate limiting, logging, migrations and seeding.
