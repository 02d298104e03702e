# LuxeShop store backend, modelled in Dafny

The shop's backend is one `POST /api` endpoint. It switches on `action` and
reads or changes an in-memory object `db` holding four lists: `users`,
`products`, `orders` and `cart`. This project models that object as the
class `Server.Store` with four sequence fields. Every action of the switch
is a method of the class answering a `Model.Response`: `Ok(body)` for HTTP
200 and `Err(status, error)` otherwise. `Store.Handle` is the switch itself.

The queries, the cart edits, checkout, the dashboard statistics and the
token checks are pure functions in their own modules. The properties the
shop relies on are proved about those functions as lemmas. They cover:

- login and registration;
- search and sorting of the catalogue;
- merging of cart entries, and cart ownership;
- checkout totals and emptying the caller's cart;
- scoping orders to their owner;
- the admin gate;
- the dashboard tally.

Modules, in dependency order:

- `Model`: the entities (users, products, cart entries, orders and their line items, the dashboard's `Stats`) and the response shapes.
- `Seqs`: the array operations the handlers use.
  - `find`/`findIndex` as `FirstIndex`.
  - `filter`, and the `reduce` sum.
  - A stable descending sort (insertion sort) standing for `Array.prototype.sort` with a numeric comparator.
  - `slice(0, n)`.
- `Text`: `toLowerCase` and `includes`.
- `Auth`: the bearer-token extraction and the 401/403 refusals that every protected case repeats inline.
- `Accounts`: `register`, `login`, `getAllUsers` projection, `getUserProfile`.
- `Catalogue`: `getProducts`, `getProduct`, `getCategories`, `addReview`, `updateProduct`'s field copy, the seeded catalogue.
- `Cart`: `addToCart`, `getCart`, `updateCartItem`, `removeFromCart`, the cart clearing at checkout.
- `Orders`: checkout's snapshot and total, `getOrders`, `getOrder`, the id discipline of stored orders.
- `Dashboard`: `getDashboardStats`. Its tally is a loop (`TallySales`) proved against a recursive specification (`SalesOf`).
- `Server`: the store class and the dispatcher.

Representation choices:

- Money is in integer cents and ratings are in tenths of a star.
- Timestamps are readings of a natural-number clock `Env.now`.
- Token verification is an oracle, `Env.verify`, mapping a token to claims or nothing.
- Password hashing and comparison are the oracles `Env.hashOf` and `Env.matches`.
- An issued token is represented by the claims it signs.

The dispatcher's store invariant `Store.Valid` says five things:

- users are numbered 1, 2, … in registration order;
- no email is registered twice;
- every stored account is a customer;
- no two cart entries share a (user, product) pair;
- order ids are distinct and within 1..|orders|, and every order's total is the sum of its lines.

Every state-changing action keeps it.

Two places where the repository's design documents and the code differ; the model follows the code:

- The EA sequence diagrams draw a `Database` lifeline that the actions query and update (for instance `diagrams (jira_lucidchart_EA)/sequence_AdminProducts(EA).js:109-128`, and likewise the add-to-cart, admin-orders and checkout diagrams). The code keeps everything in the in-memory `db`.
- The same admin-products diagram sends `addProduct` and `deleteProduct` messages. The switch has no such cases; they fall through to `Invalid action`, as `Unknown` does here.

## Model

| member | source | states |
|---|---|---|
| Seqs.FirstIndex | backend/server.js:319-321 | `find`/`findIndex`: the result is the least index whose element satisfies the predicate, or -1 exactly when none does |
| Seqs.FirstIndexAppend | backend/server.js:319-332 | appending an element never moves an existing first match; without one, the appended element is found exactly when it matches |
| Seqs.Filter | backend/server.js:435 | `filter` keeps exactly the elements satisfying the predicate, each taken from the input, and is no longer than it; its order and count are stated by `FilterAppend`, `FilterSingleton` and `FilterLength` |
| Seqs.FilterAppend | backend/server.js:435 | filtering a concatenation is concatenating the filtered parts, so the kept elements stay in input order |
| Seqs.FilterSingleton | backend/server.js:435 | a one-element sequence keeps its element exactly when it passes |
| Seqs.FilterFilter | backend/server.js:257-269 | filtering twice is filtering once by the conjunction of the two predicates |
| Seqs.FilterSame | backend/server.js:257-269 | filters by predicates that agree on every element give the same result |
| Seqs.FilterLength | backend/server.js:557 | `filter(f).length` is the number of positions whose element passes |
| Seqs.SumNonNegative | backend/server.js:451 | a `reduce` sum of non-negative values is non-negative |
| Seqs.FilterAll | backend/server.js:353 | a filter every element passes returns the sequence unchanged |
| Seqs.FilterSplit | backend/server.js:575 | a filter and its complement together hold exactly the input multiset |
| Seqs.Insert | backend/server.js:560-562 | one insertion step of the sort adds exactly one element: same elements plus `x` |
| Seqs.InsertSorted | backend/server.js:560-562 | inserting into a non-increasing sequence keeps it non-increasing |
| Seqs.SortDesc | backend/server.js:560-562 | the sort is a permutation of its input (same length, same multiset) |
| Seqs.SortDescSorts | backend/server.js:560-562 | the sort's result is non-increasing in the key |
| Seqs.SortDescSorted | backend/server.js:560-562 | sorting an already sorted sequence returns it unchanged, so sorting twice is sorting once |
| Seqs.SumAppend | backend/server.js:451 | the `reduce` sum over a concatenation is the sum of the two sums |
| Seqs.SumPermutation | backend/server.js:553 | the `reduce` sum does not depend on the order of the elements |
| Seqs.SumRemove | backend/server.js:553 | taking one element out lowers the sum by exactly its value |
| Seqs.Take | backend/server.js:562 | `slice(0, n)` keeps the first min(n, length) elements unchanged |
| Seqs.Top | backend/server.js:575-577 | sort then `slice(0, n)`: min(n, length) elements, drawn from the input |
| Seqs.TopBest | backend/server.js:575-577 | what `Top` keeps is non-increasing in the key, and no element left out has a larger key than any element kept |
| Text.LowerChar | backend/server.js:264 | the result is never an upper-case ASCII letter; A-Z move by 32, other characters are unchanged |
| Text.ToLower | backend/server.js:264-267 | `toLowerCase` keeps the length and lower-cases each character in place |
| Text.ToLowerIdempotent | backend/server.js:264-267 | lower-casing twice equals lower-casing once |
| Text.ContainsIffOccurs | backend/server.js:266-267 | `includes` holds exactly when the needle occurs at some position (both directions) |
| Auth.BearerToken | backend/server.js:304-309 | `header && header.split(' ')[1]`: no header gives no token, and a token is non-empty and holds no space |
| Auth.BearerTokenOfHeader | backend/server.js:305 | a header `"<scheme> <token>"` yields exactly the token |
| Auth.NoSpaceNoToken | backend/server.js:305-309 | a header without a space carries no token |
| Auth.Authenticate | backend/server.js:304-317 | no token exactly when the header yields none; invalid exactly when the verifier rejects the token; otherwise the verifier's claims for the token |
| Auth.AuthenticateHeader | backend/server.js:304-317 | a header `"<scheme> <token>"` is decided by the verifier on the token alone |
| Auth.Refusal | backend/server.js:307-317 | a missing token is refused with 401, an invalid one with 403, and only those |
| Auth.AdminRefusal | backend/server.js:537-550 | the admin gate lets through exactly a verified token with role `admin`; otherwise 401 for a missing token, 403 for an invalid token or a non-admin role |
| Auth.NoHeaderIsUnauthenticated | backend/server.js:537-539 | with no header every admin action answers 401 `Authentication required`, whatever the verifier says |
| Accounts.RoleOf | backend/server.js:242 | `user.role \|\| 'user'`: never empty; a stored role is kept, and an empty one becomes `user` |
| Accounts.SessionOf | backend/server.js:241-251 | the session's token carries the account's id, email and `RoleOf` the account; its password-free user carries the same id and email, the account's name and that role |
| Accounts.NewUser | backend/server.js:193-200 | the new account has role `user`, the given email and name, the password digest and the clock reading as creation time; appended to numbered accounts it keeps them numbered and its id is new |
| Accounts.RegisterKeepsValid | backend/server.js:193-201 | appending a new account numbered length+1 with role `user` keeps accounts numbered, emails distinct and every account a customer |
| Accounts.Login | backend/server.js:215-251 | the hard-coded admin pair is checked first and yields the admin session; otherwise success exactly when the first account with the email matches the password, and every failure is 400 `Invalid credentials` |
| Accounts.RegisterThenLogin | backend/server.js:186-251 | after registering, signing in with the same password opens a session for the new account with id length+1 and role `user` |
| Accounts.AdminPairShadowsAccount | backend/server.js:217-229 | the admin pair always signs in as id 0, even when an account has the same email |
| Accounts.OnlyPairIsAdmin | backend/server.js:231-251 | with customer-only accounts, every other successful sign-in has role `user` |
| Accounts.Views | backend/server.js:611-617 | one password-free projection per account, in order, with id, email, name, role and creation time copied |
| Accounts.ProfileOf | backend/server.js:711-738 | an admin token gets the fixed admin profile; otherwise 404 exactly when no account has the token's id, and else that account's projection |
| Accounts.ProfileOfRegistered | backend/server.js:724-738 | in a numbered store a customer's session token finds the account it was issued for |
| Catalogue.Matching | backend/server.js:257-269 | the result holds exactly the products passing the category filter and the case-blind search filter, and is the catalogue filtered once by both, so in catalogue order with every passing product at its own position |
| Catalogue.SortProducts | backend/server.js:271-287 | a permutation: `price-low` non-decreasing price, `price-high` non-increasing price, `rating` and `popular` non-increasing rating and review count; any other sort leaves the order alone |
| Catalogue.QueryProducts | backend/server.js:254-289 | `getProducts` answers the matching products (`Matching`, in catalogue order) put through `SortProducts` with the requested sort: exactly the matching products, as a permutation of them, unchanged in order when the sort is unknown |
| Catalogue.QueryAllIsCatalogue | backend/server.js:258 | with no category (or `All` or empty), no search and no sort, the whole catalogue is answered in order |
| Catalogue.SearchIgnoresCase | backend/server.js:264-267 | two search texts with the same lower-case form select the same products |
| Catalogue.FindProduct | backend/server.js:292-295 | `getProduct`: absent exactly when no product has the id, otherwise the first product with it |
| Catalogue.Distinct | backend/server.js:299 | `new Set`: the same elements, each once, in the order of their first occurrences |
| Catalogue.DistinctKeepsOrder | backend/server.js:299 | a sequence without repeats passes through the set unchanged (first-seen order) |
| Catalogue.Categories | backend/server.js:298-300 | `All` first, then every category of the catalogue exactly once and nothing else, ordered by the catalogue position of each category's first product |
| Catalogue.CategoryIndexIsIndexOf | backend/server.js:299 | the first product of a category and the first occurrence of its name in `map(p => p.category)` are at the same position |
| Catalogue.Reviewed | backend/server.js:529 | only the reviewed product changes, its review count up by one |
| Catalogue.Patched | backend/server.js:693 | the product keeps its id; each of name, price, category, image, description, stock, rating and review count is the one sent, or the old one when none is sent |
| Catalogue.PatchIdempotent | backend/server.js:693 | applying the same field copy twice equals applying it once, and an empty patch changes nothing |
| Catalogue.PatchCompose | backend/server.js:693 | two successive field copies equal one copy of the merged patch, the later value winning field by field |
| Cart.QuantityOrOne | backend/server.js:324 | `quantity \|\| 1`: a given non-zero quantity is kept; absent or zero becomes 1 |
| Cart.AddItem | backend/server.js:319-333 | an existing entry for the pair only has its quantity raised (length unchanged, others untouched); otherwise one entry with id length+1 is appended; unique pairs are kept |
| Cart.AddItemAccumulates | backend/server.js:319-333 | the caller's quantity of the product grows by exactly the amount added |
| Cart.AddTwiceMerges | backend/server.js:319-333 | adding 2 and then 3 of a new product gives one new entry holding 5 |
| Cart.WithQuantity | backend/server.js:388 | only the found entry changes, taking the quantity as given; unique pairs are kept |
| Cart.RemoveAt | backend/server.js:415 | `splice(k, 1)`: the entry at k goes, the others keep their order; unique pairs are kept |
| Cart.ClearUser | backend/server.js:467 | afterwards the user has no entries; every kept entry was in the cart and every other user's entry is kept; unique pairs are kept |
| Cart.ClearUserKeepsOthers | backend/server.js:467 | clearing one user's cart leaves every other user's entries exactly as they were, in order |
| Cart.FilterKeepsUniquePairs | backend/server.js:467 | any filter of a cart with unique pairs keeps them unique |
| Cart.UserEntries | backend/server.js:353 | the entries kept are the user's own, taken from the cart, and every entry of the user is kept |
| Cart.UserEntriesAppend | backend/server.js:353 | an entry appended to the cart is appended to its owner's entries and to nobody else's, so the user's entries keep cart order |
| Cart.CartView | backend/server.js:353-360 | one line per caller's entry, line i holding the caller's i-th entry in cart order joined with the first catalogue product of its id, or with none exactly when no product has that id |
| Cart.CartIdReused | backend/server.js:327 | ids are length+1: after a removal, a later addition reuses an id still held, so two entries carry id 2 |
| Orders.Snapshot | backend/server.js:440-449 | one line per entry in cart order, copying the entry's product id and quantity and the found product's name, price and image; it fails exactly when some entry's product is missing |
| Orders.Total | backend/server.js:451 | the total of lines with non-negative prices and quantities is non-negative |
| Orders.TotalAppend | backend/server.js:451 | the total of two lists of lines is the sum of their totals |
| Orders.CheckoutExample | backend/server.js:435-467 | prices 10.00 and 20.00 with quantities 2 and 1 give the two lines and a total of 40.00, and the caller's cart is empty afterwards |
| Orders.OrdersOf | backend/server.js:487 | `getOrders` answers exactly the stored orders whose user is the caller, as many as there are positions holding one |
| Orders.OrdersOfAppend | backend/server.js:487 | a newly placed order comes last among its owner's orders and leaves everybody else's unchanged, so the answer is in stored order |
| Orders.OtherUsersOrderHidden | backend/server.js:506-509 | with distinct ids, asking for another user's order finds nothing |
| Orders.AppendKeepsOrders | backend/server.js:453-464 | appending an order numbered length+1 whose total is its lines' sum keeps ids distinct and in range and totals right |
| Orders.PermutationKeepsIds | backend/server.js:561 | reordering the orders keeps ids distinct and in range |
| Orders.PermutationKeepsTotals | backend/server.js:561 | reordering the orders keeps every total equal to its lines' sum |
| Orders.SortKeepsOrders | backend/server.js:560-562 | sorting the stored orders keeps ids distinct and in range and totals right |
| Dashboard.Revenue | backend/server.js:553 | the revenue of orders with non-negative totals is non-negative |
| Dashboard.RevenueAppend | backend/server.js:553 | placing an order raises the revenue by exactly its total |
| Dashboard.RevenuePermutation | backend/server.js:553 | the revenue does not depend on the order of the orders |
| Dashboard.LowStockCount | backend/server.js:557 | the number of positions whose product has stock below 20; so at most the number of products, and zero exactly when none is low |
| Dashboard.Record | backend/server.js:568-571 | the tally grows by one entry exactly when the item's product had none, and afterwards the product has an entry |
| Dashboard.SalesOf | backend/server.js:565-573 | no more entries than line items |
| Dashboard.SalesOfTallies | backend/server.js:565-573 | the tally has one entry per product sold and no other; each holds that product's first line item and its units over all lines |
| Dashboard.RecordTallies | backend/server.js:568-571 | recording one more line item keeps the tally right |
| Dashboard.RecordSale | backend/server.js:568-571 | one step of the inner `forEach` computes `Record` |
| Dashboard.TallySales | backend/server.js:565-573 | the two nested loops build exactly the tally `SalesOf` of all line items, order by order |
| Dashboard.ObjectValues | backend/server.js:575 | `Object.values` lists every tally entry once |
| Dashboard.ObjectValuesOrder | backend/server.js:575 | entries whose product id is an array index come first, in ascending id order |
| Dashboard.Statistics | backend/server.js:552-590 | the counts are the numbers of orders, users and products; the low-stock count is at most the products; at most five recent orders, drawn from the stored ones, and five exactly when there are that many; at most five best sellers |
| Dashboard.StatisticsAssembled | backend/server.js:553-577 | the statistics equal the revenue over the stored orders, the counts, the first five sorted orders and the best sellers of the sorted orders' tally |
| Dashboard.ComputeStatistics | backend/server.js:552-577 | the step-by-step computation yields exactly `Statistics` |
| Dashboard.StatisticsStable | backend/server.js:560-561 | reading the statistics again from the reordered orders answers the same |
| Dashboard.TopProductsSound | backend/server.js:565-577 | at most five best sellers, non-increasing in units sold, each reporting exactly its product's units over all orders |
| Dashboard.TopEntryRight | backend/server.js:575-577 | every entry `Top` keeps from a correct tally reports its product's units |
| Server.Store.constructor | backend/server.js:19-157 | the store starts with the twelve seeded products and no users, orders or cart entries, and is valid |
| Server.Store.Register | backend/server.js:186-213 | a taken email answers 400 and leaves users unchanged; otherwise exactly one customer account numbered length+1 is appended and its session answered |
| Server.Store.Login | backend/server.js:215-251 | answers `Accounts.Login` over the stored accounts |
| Server.Store.GetProducts | backend/server.js:254-289 | answers `QueryProducts` over the catalogue |
| Server.Store.GetProduct | backend/server.js:291-296 | 404 exactly when no product has the id, else that product |
| Server.Store.GetCategories | backend/server.js:298-300 | answers `Categories` of the catalogue |
| Server.Store.AddToCart | backend/server.js:303-335 | refused (401/403) without a verified token and nothing changes; otherwise the cart becomes `AddItem` with `quantity \|\| 1`, nothing else changes, and the store stays valid |
| Server.Store.GetCart | backend/server.js:337-362 | refused without a verified token; otherwise the caller's `CartView` |
| Server.Store.UpdateCartItem | backend/server.js:364-389 | refused without a verified token; 404 unless the caller owns an entry with that id; else only that first entry takes the quantity |
| Server.Store.RemoveFromCart | backend/server.js:391-416 | refused without a verified token; 404 unless the caller owns an entry with that id; else only that first entry is removed |
| Server.Store.CreateOrder | backend/server.js:419-469 | refused without a verified token; an empty cart answers 400 and adds no order; a missing product answers 500 and changes nothing; otherwise one `Processing` order numbered length+1 with the snapshot lines and their total is appended and the caller's cart emptied |
| Server.Store.GetOrders | backend/server.js:471-488 | refused without a verified token; otherwise the caller's orders |
| Server.Store.GetOrder | backend/server.js:490-511 | refused without a verified token; 404 unless the caller owns an order with that id, else that order |
| Server.Store.AddReview | backend/server.js:522-530 | 404 for an unknown product and nothing changes; otherwise only its review count rises by one |
| Server.Store.GetDashboardStats | backend/server.js:533-590 | behind the admin gate (nothing changes when refused), answers `Statistics` of the store as it was, and leaves the orders sorted newest first |
| Server.Store.SortOrders | backend/server.js:560-561 | the in-place sort of the stored orders: they become `SortDesc` by creation time, nothing else changes, and the store stays valid |
| Server.Store.GetAllUsers | backend/server.js:592-619 | behind the admin gate, every account without its password |
| Server.Store.GetAllOrders | backend/server.js:621-640 | behind the admin gate, every order as stored |
| Server.Store.UpdateOrderStatus | backend/server.js:642-667 | behind the admin gate; 404 for an unknown id; else only the first order with that id takes the status |
| Server.Store.UpdateProduct | backend/server.js:669-694 | behind the admin gate; 404 for an unknown id; else only the first product with that id takes the fields sent |
| Server.Store.GetUserProfile | backend/server.js:696-738 | refused without a verified token; otherwise `ProfileOf` the token's claims |
| Server.Answer | backend/server.js:180-747 | the answer of the switch, defined per family by the functions below, one case per action with that handler's answer; an unknown action answers 400 `Invalid action` |
| Server.OpenAnswer | backend/server.js:180-747 | defines, per open action, the handler's answer (`register`: 400 `User already exists` or the session of `NewUser`; `login`: `Accounts.Login`; `getProducts`: `QueryProducts`; `getProduct`: the product or 404; `getCategories`; the wishlist messages; `addReview`: `Review added` or 404); states that an unknown action answers 400 and that the product list, the categories and the wishlist actions never fail |
| Server.CallerAnswer | backend/server.js:303-511 | the answer of a cart, order or profile action; refused (401 or 403) without a verified token |
| Server.CartAnswer | backend/server.js:303-416 | defines the cart answers (`Added to cart`, the caller's `CartView`, `Cart updated`, `Item removed from cart`, 404 `Cart item not found`); states that they are refused without a verified token, and that `updateCartItem` and `removeFromCart` succeed exactly when the caller owns an entry with that id |
| Server.OrderAnswer | backend/server.js:419-511 | defines the order answers (`createOrder`: 400 for an empty cart, 500 for a missing product, else the new numbered `Processing` order; `getOrders`: `OrdersOf` the caller; `getOrder`: the order or 404; `getUserProfile`: `ProfileOf`); states that they are refused without a verified token and that an order `getOrder` answers is a stored order of the caller |
| Server.AdminAnswer | backend/server.js:533-694 | the answer of an admin action; the admin gate's refusal when the caller is not an administrator |
| Server.ReportAnswer | backend/server.js:533-640 | refused without the admin role, and never fails otherwise: the statistics, the user views or all orders |
| Server.UpdateAnswer | backend/server.js:642-694 | refused without the admin role; admitted, succeeds exactly when an order (product) with that id exists, answering it with the status (patch) applied, else 404 |
| Server.Store.Handle | backend/server.js:180-747 | the answer is `Answer` of the request, the caller's authentication and the store before the request; an unknown action answers 400 `Invalid action`; read-only actions change nothing; caller actions without a verified token and admin actions without the admin role are refused before the store is touched; for each admitted state-changing action (`register`, `addReview`, the cart edits, `createOrder`, `getDashboardStats`, `updateOrderStatus`, `updateProduct`) the new store is the one that action's function gives; the store stays valid |
| Server.Store.HandleCaller | backend/server.js:303-511 | answers `CallerAnswer` over the store before the request; refusals without a verified token; the read-only ones change nothing; for a verified caller the cart edits and `createOrder` leave the store their functions give |
| Server.Store.HandleAdmin | backend/server.js:533-694 | answers `AdminAnswer` over the store before the request; refusals without the admin role; the read-only ones change nothing; admitted, `getDashboardStats` sorts the orders, and the updates leave the store their functions give |
| Server.Store.HandleOpen | backend/server.js:186-300 | answers `OpenAnswer` over the store before the request; the actions anyone may call keep the store valid and never touch orders or cart; read-only ones change nothing; `register` appends `NewUser` exactly when the email is free; `addReview` applies `Reviewed` to the found product |
| Server.Store.HandleCart | backend/server.js:303-416 | answers `CartAnswer` over the store before the request; the cart actions are refused without a verified token; `getCart` changes nothing; for a verified caller `addToCart` gives `AddItem` with `quantity \|\| 1`, and `updateCartItem`/`removeFromCart` change the caller's entry with that id, or nothing when there is none |
| Server.Store.HandleOrders | backend/server.js:419-511 | answers `OrderAnswer` over the store before the request; refused without a verified token; all but `createOrder` change nothing; a verified `createOrder` appends the numbered `Processing` order and clears the caller's cart, or changes nothing when the cart is empty or a product is missing |
| Server.Store.HandleReports | backend/server.js:533-640 | answers `ReportAnswer` over the store before the request, so the statistics are those of the orders as they were; refused without the admin role; only the statistics change the store, sorting the orders newest first |
| Server.Store.HandleUpdates | backend/server.js:642-694 | answers `UpdateAnswer` over the store before the request; refused without the admin role; admitted, the first order with the id takes the status, or the first product with the id takes the patch, and nothing else changes |

## Left out

- Token signing and verification, password hashing and comparison: foreign library calls, given as the oracles `Env.verify`, `Env.hashOf` and `Env.matches`.
- Express, CORS, `app.listen`, the `/health` route and the unused `authenticateToken` middleware: I/O plumbing outside the switch.
- Floating-point money: prices are integer cents and ratings tenths of a star, so totals are exact rather than rounded doubles.
- `new Date()`: timestamps are the natural-number reading `Env.now`. The dashboard's date subtraction is a comparison of those readings.
- JavaScript numbers: ids, quantities and prices are unbounded integers, without the 2^53 precision limit.
- Malformed requests: each action's payload is a typed constructor of `Server.Request`, so a missing field or one of another JSON type cannot be expressed. What the server does with such a payload (string concatenation into a quantity, a lookup by `===` that fails and answers 404, `undefined` stored as a quantity) is not modelled. The only 500 modelled is `createOrder`'s missing product.
- Text.LowerChar: lowercases ASCII letters only; `toLowerCase` on other scripts is not modelled.
- Server.Store.UpdateProduct: `Object.assign` also copies fields that are not product fields, and could overwrite `id` with an equal value. Only the product's own fields are modelled, and the id is kept.
- Seqs.SortDesc: stable (insertion sort); the model states and proves sortedness and permutation but not stability. The ordering among equal keys is the one this insertion sort gives.
- Catalogue.SortProducts, Catalogue.QueryProducts: stability is not stated, although equal keys occur (the seeded catalogue has products of equal rating), so the order of such products in the answer is not specified beyond `SortDesc`.
- Dashboard.Statistics: stability is not stated for its two sorts, although orders can share a creation time and products can sell equal units; which of them make `recentOrders` and `topProducts` is not specified beyond `SortDesc`.
- Server.Request: `Unknown(action)` stands only for action names outside the switch's cases. A name the switch handles is given by its own constructor; `Unknown("login")` is not a request the server can receive, and the model does not exclude it.
- The wishlist actions answer a fixed message and touch nothing; they appear only as cases of `Server.Store.HandleOpen`.
- The token check is repeated inline by each protected case in the server. Here it is computed once per request by `Auth.Authenticate` in `Server.Store.Handle`, and its outcome is passed to the action methods.
- The frontend (React pages, the API wrapper, `localStorage`) is not part of this model.
- Concurrency between requests: each action is modelled as one atomic step. `register` awaits the password hash between its email check and its `push`, so two interleaved registrations of one email could both succeed in the server; the model, and `Server.Store.Valid`'s distinct-email clause, assume they do not interleave.
