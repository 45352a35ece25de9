# Orders and products API: a verified model

This project models the decision logic of a small e-commerce web API. The API has two
controllers over a relational store.

- **Products** are a catalog that supports create, read, update and delete, plus a
  search. The search applies optional filters in the store, then sorts the retrieved
  rows in memory on a key from a fixed set.
- **Orders** are created from a cart. Each line is priced at the product's sale price
  while the product is on sale, else at its list price. The order total is accumulated
  line by line. An order is reconciled with the payment provider's checkout session:
  `"paid"` completes the order and `"unpaid"` fails a pending one.

The database is a `DataContext` class (`domain.dfy`). It holds two tables,
`Products: seq<Product>` and `Orders: seq<Order>`. Rows are kept in retrieval order, so
"ties keep retrieval order" can be stated. The class also holds the identity counters
the database uses to assign keys. Its invariant `Valid()` says keys are distinct and
below the next identity value. The controllers are classes that hold that context and
change it through `modifies context`.

The order actions and the search are proved against pure functions:

- checkout reconciliation against `Reconciliation.Reconcile`;
- order creation against `Pricing.PlaceOrder` and `Pricing.PriceLines`;
- the read-only search against `ProductSearch.Search`.

What the source promises is proved about those functions as lemmas. The product
mutations (create, update, delete) state the new table directly in their ensures.

Values that come from outside the code are parameters:

- the clock is `now: Timestamp`;
- the payment provider's answer is a `SessionLookup`;
- framework validation is `modelStateValid: bool`;
- the store's "rows affected > 0" is `saveSucceeded: bool`.

Money (C# `decimal`) is an exact `real`.

Files, one module each, except `common.dfy`, which holds two:

- `common.dfy`: the modules `Common` and `Text`. `Common` has Option, Result and
  first-match lookup. `Text` has whitespace, ASCII case folding, substring search and
  ordinal string order.
- `domain.dfy`: the entities, the outcomes and their HTTP status codes, and the data
  context.
- `search.dfy`: the filters, the stable sort and the search.
- `products.dfy`: the products controller.
- `reconciliation.dfy`: checkout reconciliation.
- `pricing.dfy`: order pricing and creation as functions.
- `orders.dfy`: the orders controller.

## Model

| member | source | states |
|---|---|---|
| Common.FirstIndex | API/Controllers/OrdersController.cs:52-54 | The first matching row: the result satisfies the predicate and no earlier row does; None means no row matches |
| Domain.StatusCode | API/Controllers/OrdersController.cs:22-125 | Each outcome's code, both ways (the products controller's answers at its lines 21-98 use the same codes): 200 Ok, 201 Created, 204 NoContent; a refusal is exactly a code of 400 or more, 422 for an invalid model, 404 for an absent key, 500 for the thrown sale-price fault and 400 for every other refusal |
| Domain.FindOrder | API/Controllers/OrdersController.cs:25-27 | Definition, no contract of its own: the index of the first order with the key, via `FirstIndex`; characterised through `GetOrder` |
| Domain.FindOrderBySession | API/Controllers/OrdersController.cs:52-54 | Definition, no contract of its own: the index of the first order whose session id is the given one, via `FirstIndex`; characterised through `GetOrderBySessionId` and `StoreReconcileIdempotent` |
| Domain.FindProduct | API/Controllers/ProductsController.cs:33 | Definition, no contract of its own: the first row holding the key, or None; characterised by `FindProductSpec` |
| Text.IsNullOrWhiteSpace | API/Controllers/ProductsController.cs:113 | Definition, no contract of its own: a null term, or one made only of Unicode white-space characters (the set `char.IsWhiteSpace` accepts); characterised through `UnfilteredQueryKeepsAll` |
| Text.ToLower | API/Controllers/ProductsController.cs:115-116 | Definition, no contract of its own: lower-cases ASCII letters and leaves every other character, keeping the length; see "## Left out" for culture-sensitive folding |
| Text.Contains | API/Controllers/ProductsController.cs:116 | Definition, no contract of its own: the term occurs at some position of the name (the empty term occurs everywhere) |
| Text.EqualsIgnoreCase | API/Controllers/ProductsController.cs:130 | Definition, no contract of its own: the two strings are equal after ASCII lower-casing; used by `IsDescending` |
| ProductSearch.DefaultQuery | API/Controllers/ProductsController.cs:103-110 | Definition, no contract of its own: the action's parameter defaults (no filters, sortBy "name", sortOrder "asc"); characterised by `DefaultQueryListsAllByName` |
| ProductSearch.NameMatches | API/Controllers/ProductsController.cs:113-117 | Definition, no contract of its own: a null or blank name filters nothing, otherwise the lower-cased name must contain the lower-cased term; characterised through `Where` and `UnfilteredQueryKeepsAll` |
| ProductSearch.Matches | API/Controllers/ProductsController.cs:113-123 | Definition, no contract of its own: the conjunction of the supplied filters (name, inclusive price bounds, sale flag, and stock > 0 only when `inStock` is true); characterised through `Where`, `Search` and `PriceWindowDescending` |
| ProductSearch.Where | API/Controllers/ProductsController.cs:114-123 | Every retrieved row satisfies each supplied filter, and each product keeps exactly its multiplicity in the table when it matches and is dropped otherwise |
| ProductSearch.WhereAppend | API/Controllers/ProductsController.cs:113-125 | Filtering keeps retrieval order: the rows retrieved from a concatenation are those from its first part followed by those from its second |
| ProductSearch.UnfilteredQueryKeepsAll | API/Controllers/ProductsController.cs:114-123 | A blank or null name, absent price and sale filters and `inStock` not true impose no constraint: the whole table is retrieved in order |
| ProductSearch.SortKeyOf | API/Controllers/ProductsController.cs:128-145 | `sortBy` lower-cased selects price, created or stock; every other value falls back to name |
| ProductSearch.IsDescending | API/Controllers/ProductsController.cs:130-142 | Definition, no contract of its own: `sortOrder` equals "desc" ignoring case; characterised through `Search`'s ordering clause and `DefaultQueryListsAllByName` |
| ProductSearch.KeyLe | API/Controllers/ProductsController.cs:131-144 | Definition, no contract of its own: compares the selected key (ordinal name order, price, created date, stock); a total preorder by `KeyLeReflexive`, `KeyLeTotal` and `KeyLeTransitive` |
| ProductSearch.KeyLeReflexive | API/Controllers/ProductsController.cs:131-144 | Every product's key is at most itself |
| ProductSearch.KeyLeTotal | API/Controllers/ProductsController.cs:131-144 | Any two keys are comparable in at least one direction |
| ProductSearch.KeyLeTransitive | API/Controllers/ProductsController.cs:131-144 | The key comparison is transitive |
| ProductSearch.Sort | API/Controllers/ProductsController.cs:128-145 | The output is ordered by the key in the chosen direction, is a permutation of the input, and every group of equal keys keeps its input order (stability) |
| ProductSearch.StableSortIsUnique | API/Controllers/ProductsController.cs:128-145 | Any ordered sequence whose tie groups appear in the input's order is exactly `Sort`'s output |
| ProductSearch.Search | API/Controllers/ProductsController.cs:101-148 | Results come from the table and satisfy the filters; they are a permutation of the filtered rows, ordered on the selected key, descending iff `sortOrder` is "desc" ignoring case, and ties keep retrieval order |
| ProductSearch.DefaultQueryListsAllByName | API/Controllers/ProductsController.cs:102-110 | With every parameter at its default (no filters, sortBy "name", sortOrder "asc") the search returns the whole table sorted by name ascending |
| ProductSearch.PriceWindowDescending | API/Controllers/ProductsController.cs:120-133 | A min/max price query sorted by price desc returns only products priced within the inclusive window, highest price first |
| Products.FindProductSpec | API/Controllers/ProductsController.cs:33-34 | A key lookup succeeds exactly when some product has that key, and then lands on the first row with that key |
| Products.RemoveAt | API/Controllers/ProductsController.cs:95 | Definition, no contract of its own: the table without the found row, other rows in order; characterised by `RemoveAtDropsExactlyKey` |
| Products.RemoveAtDropsExactlyKey | API/Controllers/ProductsController.cs:95-96 | With distinct keys, removing the found row keeps keys distinct and removes exactly the product with that key; every other product remains |
| Products.ProductsController.GetProducts | API/Controllers/ProductsController.cs:22-27 | Answers the whole table in retrieval order |
| Products.ProductsController.GetProduct | API/Controllers/ProductsController.cs:31-35 | Ok with a stored product carrying the key iff one exists, NotFound otherwise; nothing changes |
| Products.ProductsController.CreateProduct | API/Controllers/ProductsController.cs:40-56 | Invalid model: 422 and no change; otherwise the body is stored with a fresh key and both audit dates set to now (or refused with nothing stored when the save fails) |
| Products.ProductsController.UpdateProduct | API/Controllers/ProductsController.cs:61-85 | URL/body id mismatch, invalid model, absent key or failed save leave the table unchanged; otherwise only the found row changes: its eight mutable fields come from the body, LastUpdatedDate is now, Id and CreatedDate are kept |
| Products.ProductsController.DeleteProduct | API/Controllers/ProductsController.cs:90-98 | Absent key: NotFound and no change; otherwise exactly the product with that key is removed and 204 is answered |
| Products.ProductsController.SearchProducts | API/Controllers/ProductsController.cs:103-147 | Answers Ok with the rows that match the filters, each with its multiplicity, sorted and stable as for `Search` |
| Reconciliation.Reconcile | API/Controllers/OrdersController.cs:61-74 | Only Status, CompletedDate and StripePaymentIntentId may change; the status table in both directions ("paid" completes any order, "unpaid" fails only a Pending one, anything else keeps the status); completing records now and the session's payment intent; failing changes the status and nothing else; an unchanged status means an unchanged order |
| Reconciliation.ReconcileIdempotent | API/Controllers/OrdersController.cs:61-72 | Reconciling again with the same session, at any later time, changes nothing |
| Reconciliation.RepeatedSessionIsIdempotent | API/Controllers/OrdersController.cs:61-72 | Any non-empty run of calls with one session equals the first call alone |
| Reconciliation.CompletedIsFinal | API/Controllers/OrdersController.cs:61-72 | A Completed order is left entirely unchanged by any sequence of provider answers |
| Reconciliation.StatusOnlyAdvances | API/Controllers/OrdersController.cs:61-72 | Over any sequence of calls the status never returns to Pending and never leaves Completed; Failed can only move to Completed |
| Reconciliation.StoreReconcileIdempotent | API/Controllers/OrdersController.cs:52-72 | After reconciling in the table, the lookup by session id finds the same row and a second reconciliation leaves it as it is |
| Pricing.UnitPrice | API/Controllers/OrdersController.cs:107 | The sale price while on sale, else the list price; no price exactly when on sale without a sale price |
| Pricing.LineFor | API/Controllers/OrdersController.cs:109-115 | A line carries the requested product id and quantity, the product's name, and its effective unit price |
| Pricing.PriceLines | API/Controllers/OrdersController.cs:99-119 | A success has exactly one line per requested item; a failure is ProductNotFound or SalePriceMissing naming a product id the cart asks for; which items decide success, and the content of each line, are stated by `PriceLinesSucceeds` and `PriceLinesFailsAtFirstBadLine` |
| Pricing.Total | API/Controllers/OrdersController.cs:98-121 | Definition, no contract of its own: the sum of unit price times quantity over the lines; characterised by `TotalNonNegative`, `TwoAtTen` and the loop `PriceCart` |
| Pricing.TotalNonNegative | API/Controllers/OrdersController.cs:98-118 | With non-negative prices and quantities the accumulated total is non-negative |
| Pricing.PlaceOrder | API/Controllers/OrdersController.cs:80-121 | Definition, no contract of its own: validation first, then the empty-cart check, then pricing, then the Pending order with the computed total; characterised by `PlaceOrderOutcome` and used as the specification of `CreateOrder` |
| Pricing.PriceLinesSucceeds | API/Controllers/OrdersController.cs:99-119 | Pricing succeeds iff every requested product exists and can be priced; then one line per request item, in request order |
| Pricing.PriceLinesFailsAtFirstBadLine | API/Controllers/OrdersController.cs:99-107 | The first item whose product is unknown (or lacks its sale price) decides the error, which names that product id |
| Pricing.SalePricedCatalogNeverFaults | API/Controllers/OrdersController.cs:107 | If every product on sale has a sale price, the only way pricing fails is an unknown product id |
| Pricing.PlaceOrderOutcome | API/Controllers/OrdersController.cs:85-121 | An empty or null cart is refused; a placed order is Pending, uncompleted, carries the request's email and session id, one line per item priced as above, and a total equal to the sum of price times quantity |
| Pricing.TwoAtTen | API/Controllers/OrdersController.cs:107-121 | Two of a product listed at 10.00 not on sale give one line at 10.00 and a total of 20.00 |
| Orders.Answer | API/Controllers/OrdersController.cs:80-125 | Definition, no contract of its own: a placed order is answered Created, any refusal with its error (whose code `StatusCode` gives); used by `CreateOrder`'s contract |
| Orders.OrdersController.GetOrder | API/Controllers/OrdersController.cs:22-35 | Ok with the stored order carrying the key iff one exists, NotFound otherwise |
| Orders.OrdersController.GetOrderBySessionId | API/Controllers/OrdersController.cs:38-75 | A provider error refuses with its message and changes nothing; no order for the session: NotFound, no change; else exactly the first matching row is replaced by its reconciliation and returned |
| Orders.OrdersController.CreateOrder | API/Controllers/OrdersController.cs:78-126 | Answers what `PlaceOrder` decides; on success the order is appended with the next key, on any refusal the Orders table is unchanged; products are never changed |
| Orders.PriceCart | API/Controllers/OrdersController.cs:98-119 | The loop computes exactly `PriceLines` of the cart and, on success, a total equal to the sum of price times quantity over the lines |

## Left out

- Entity Framework, `async`/`await` and SQL translation are not modelled. The tables are sequences in retrieval order. A zero "rows affected" save is the `saveSucceeded` flag, and it leaves the table unchanged. Order creation does not check its save (line 123), so it has no such flag.
- The payment provider's session call (lines 40-50 of the orders controller) is replaced by its answer, a `SessionLookup`. Exception message text is carried as an opaque string.
- `DateTime.Now` / `DateTime.UtcNow` are the `now` parameter. The model does not distinguish local time from UTC.
- `ModelState.IsValid` and the `[Required]`, `[EmailAddress]` and `[Range]` attributes are the `modelStateValid` flag. Both controllers carry `[ApiController]` and the host does not suppress its model-state filter, so at run time an invalid model is answered 400 by the framework before the action body runs. The model follows the action's own text instead: the `UnprocessableEntity` branches (422) are modelled, and the framework's 400 is not.
- Identity assignment uses the context's counters. `CreateProduct` always stores the body under the next counter value. In the source a non-zero `Id` in the body is passed on to the insert: the store inserts that explicit key, and a duplicate makes the save throw. Client-chosen product keys and that failure are not modelled. The keys of order items (their own id and order id) are not modelled.
- Entity object identity is not modelled. Overwriting an entity's fields is a record update written back to its row.
- The race between concurrent reconciliations of the same order is not modelled, because it is concurrency.
- Response bodies and message formatting are not modelled. Refusals carry an `ApiError` that names the reason and, where the source names one, the product id.
- Logging, routing, CORS and host wiring (API/Program.cs) are not modelled.
- The React confirmation page (client/src/components/Checkout/OrderSuccess.jsx) and the table-rename migration (Persistence/Migrations/20250922025957_AddProductEntity.cs) are not modelled. Neither has logic beyond display or schema.
- Text.ToLower: folds ASCII letters only. This matches SQLite's `lower()` in the name filter. The culture-sensitive `ToLower()` that C# applies to the search term and to `sortBy` is not modelled.
- Text.EqualsIgnoreCase: compares `sortOrder` with "desc" by ASCII folding. Non-ASCII characters that the ordinal-ignore-case comparison would treat as equal are not modelled.
- ProductSearch.KeyLe: names compare in ordinal code-point order. The default comparer behind `OrderBy(p => p.Name)` is culture-sensitive: it orders by linguistic collation and treats some distinct strings as equal, which makes them ties. Neither the collation order nor those extra ties are modelled. Code-point order also differs from ordinal UTF-16 order for characters above U+FFFF.
- Pricing.Total: `decimal` overflow and its 28-digit rounding are not modelled, because totals are exact reals. Quantities are unbounded integers.
- Domain.StatusCode: the 422 for an invalid model is the code in the action's text. At run time the framework answers such a request 400 before the action runs.
- Products.ProductsController.UpdateProduct: the id-mismatch refusal comes before the invalid-model refusal, as in the action's text. At run time the framework's 400 for an invalid model comes first.
- The `Domain` entity classes are not part of this model. Their fields are taken from how the controllers use them.

Two intended rules that the controllers do not enforce; the model follows the controllers:

- Pricing.UnitPrice: a product on sale is meant to carry a sale price. The controllers do not check it on create or update. For such a product, `SalePrice!.Value` throws while the order is being built. The model surfaces this as a `SalePriceMissing` refusal (status 500) with nothing stored. `SalePricedCatalogNeverFaults` shows it cannot happen when that rule holds.
- Reconciliation.Reconcile: an order is meant to reach a final status (Completed or Failed) once. The code lets a Failed order become Completed when a later session reports `"paid"`. `StatusOnlyAdvances` states that transition.
