# Storefront checkout, cart and catalogue — a Dafny model

This project models three parts of a small storefront: a Supabase backend and a React client.

1. **The `checkout` edge function** (`checkout.dfy`, module `Checkout`). It turns the caller's cart rows into an order in fixed steps:
   - guard checks: the bearer header, the token, POST, and a complete address;
   - load of the caller's cart, joined with the catalogue;
   - line-by-line validation that freezes the catalogue price and accumulates the total, with no tax added;
   - insertion of the order header, then of its items, deleting the header when the items insert fails;
   - one stock write per item, from the stock read at load time and floored at zero;
   - clearing of the caller's cart, whose failure is ignored.

   The database is the class `Store`. Its fields are the products and orders maps, the cart-row and order-item sequences, and the next order id. Every storage failure is an input (`Faults`).

   `CheckoutSpec` states one attempt as a function of the tables before it. `Store.Checkout` performs the attempt with the handler's loops and is proved equal to `CheckoutSpec`. The lemmas then state:
   - what each outcome writes;
   - the money invariant: an order's total is Σ quantity × price_at_purchase over its items;
   - the "no write before validation" rule;
   - the compensation for a failed items insert;
   - the stock arithmetic.
2. **The client cart** (`cart_context.dfy`, module `CartContext`). `Reduce` is the reducer over `{items, isOpen}` with its eight actions. The derived totals are the number of units, the subtotal, the 8% tax and the total. Lemmas give the effect of each action, the invariants "one line per product id" and "quantities at least one", and the totals' independence from line order and their change on add or remove.
3. **The catalogue page's pipeline** (`product_listing.dfy`, module `ProductListing`). This covers:
   - the category list;
   - the search/category/price filter and the four sort orders, where a stable insertion sort stands for `Array.prototype.sort`;
   - the "filters active" flag and its reset.

   Lower-casing is a caller-supplied normaliser `lower`. `localeCompare(a, b) <= 0` is a caller-supplied relation `nameLe`.

Shared pieces:
- `types.dfy` holds the database records.
- `wrappers.dfy` holds `Option` and `Result`.
- `seqs.dfy` models `Array.prototype.filter` and the facts the other modules use about it.
- `checkout_findings.dfy` (module `CheckoutFindings`) holds the duplicate-row finding below: the handler's behaviour on such a cart, and a corrected stock loop and validation.

Money is integer cents throughout. The client's tax and total are exact reals.

## Model

| member | source | states |
|---|---|---|
| Checkout.StatusCode | supabase/functions/checkout/index.ts:16-187 | 200 exactly for the preflight and success, 401 exactly for a missing or invalid token, 405 for a wrong method, 400 for the address, empty-cart and line errors, 500 exactly for a storage or body failure |
| Checkout.BearerToken | supabase/functions/checkout/index.ts:15-29 | a token exists exactly when the header exists and starts with `Bearer `, and the header is that prefix followed by the token |
| Checkout.Guard | supabase/functions/checkout/index.ts:15-57 | the request passes exactly when the header is Bearer, the token verifies, the method is POST, the body parses and all eight address fields are present; it then yields the verified user and the address; every refusal is one of the five guard errors, and `Unauthorized` exactly when the Bearer header is missing |
| Checkout.Validate | supabase/functions/checkout/index.ts:83-107 | succeeds exactly when every line has a product with stock ≥ quantity, and then prices each line with its product id, quantity and catalogue price; a failure is the error of the first bad line (`ProductNotFound`, or `InsufficientStock` with the title and available stock) |
| Checkout.ValidateFailureSticks | supabase/functions/checkout/index.ts:83-97 | an error returned inside the loop is the result for the whole cart |
| Checkout.FirstBadLineDecides | supabase/functions/checkout/index.ts:83-97 | the first line without product or with too little stock decides the error |
| Checkout.ValidateLines | supabase/functions/checkout/index.ts:80-107 | the loop returns the validation result, and on success its accumulated `totalAmount` is Σ quantity × catalogue price over the priced lines |
| Checkout.ItemsTotalAttach | supabase/functions/checkout/index.ts:137-140 | the items built for an order sum to the order's total and contribute nothing to any other order |
| Checkout.InsertKeepsMoneyInvariant | supabase/functions/checkout/index.ts:117-144 | inserting a header with the accumulated total and its items keeps every order's total equal to Σ quantity × price_at_purchase over its items |
| Checkout.OrphanHeaderBreaksMoneyInvariant | supabase/functions/checkout/index.ts:146-150 | a header left without items, as when the rollback delete fails, breaks the money invariant whenever its total is non-zero |
| Checkout.FirstLineFor | supabase/functions/checkout/index.ts:155 | `find` returns nothing exactly when no loaded line has the product, and otherwise the first line that has it |
| Checkout.FirstLineOfDistinct | supabase/functions/checkout/index.ts:155 | with one line per product, `find` returns the line of that product |
| Checkout.StockAfterFrame | supabase/functions/checkout/index.ts:154-163 | the stock loop keeps the product keys, changes only the stock field, writes only non-negative stock, and leaves products that were not ordered unchanged |
| Checkout.StockStepAt | supabase/functions/checkout/index.ts:154-162 | for any validated cart, one iteration for a line sets that line's product to its stock at load minus the quantity, which is not negative, unless the write fails, and leaves every other product as it was |
| Checkout.StockUntouched | supabase/functions/checkout/index.ts:154-163 | a product on none of the first m lines still has its stock at load after m iterations |
| Checkout.StockAfterLast | supabase/functions/checkout/index.ts:154-162 | for any validated cart, the iteration for line m leaves that line's product at its stock at load minus the quantity, which is not negative, and leaves it as loaded when the writes for that product fail (the model's stock-write faults are per product; see "## Left out") |
| Checkout.StockAfterLine | supabase/functions/checkout/index.ts:154-163 | with one row per product, after m iterations, each product of the first m lines has its stock at load minus its quantity (not negative) unless its write failed; later iterations do not touch it |
| Checkout.StockAfterExact | supabase/functions/checkout/index.ts:154-163 | after the loop, each ordered product's stock is its stock at load minus the quantity, which is never negative; products not ordered are unchanged |
| Checkout.ValidatedAttempt | supabase/functions/checkout/index.ts:59-180 | once the guards pass, the cart is read, non-empty and validated, the attempt is the commit of the priced lines |
| Checkout.NotValidatedWritesNothing | supabase/functions/checkout/index.ts:15-97 | an attempt that does not get past validation writes no store and does not succeed |
| Checkout.SucceedsExactlyWhen | supabase/functions/checkout/index.ts:117-151 | an attempt succeeds exactly when it gets past validation and both the order insert and the items insert go through; stock write or cart-clear failures do not matter |
| Checkout.LoadCartJoined | supabase/functions/checkout/index.ts:60-63 | one loaded line per cart row of the caller, in the order the rows were read, each joined with the product stored under its product id |
| Checkout.CommitKeepsConsistency | supabase/functions/checkout/index.ts:117-169 | the writes after validation keep products keyed by id, order ids fresh, and every order item pointing at an existing order, whichever write fails |
| Checkout.CheckoutKeepsConsistency | supabase/functions/checkout/index.ts:8-188 | every attempt, whatever its outcome, keeps the tables consistent in that sense |
| Checkout.RefusedRequestWritesNothing | supabase/functions/checkout/index.ts:15-57 | a missing or non-Bearer header gives 401 `Unauthorized`, a token that fails to verify gives 401 `InvalidToken`, a non-POST gives 405, and an incomplete address gives 400; none of them touches a store |
| Checkout.EmptyCartWritesNothing | supabase/functions/checkout/index.ts:70-75 | a caller with no cart rows gets `EmptyCart`, and no store changes |
| Checkout.BadLineWritesNothing | supabase/functions/checkout/index.ts:83-97 | the first line whose product is missing or short of stock decides the 400 error, which carries the title and available stock, and no store changes |
| Checkout.CommitWritesPricedOrder | supabase/functions/checkout/index.ts:99-144 | the commit writes one pending order under a fresh id and one item per cart row of the caller, in the order the rows were read, priced from the catalogue as loaded; earlier items are kept, and the total equals Σ quantity × price_at_purchase over the new items |
| Checkout.SuccessWritesPricedOrder | supabase/functions/checkout/index.ts:80-140 | the same facts, for any successful attempt |
| Checkout.FailedItemsInsertCompensates | supabase/functions/checkout/index.ts:142-151 | a failed items insert answers 500, leaves products, cart and items unchanged, and leaves the orders as before, unless the delete fails, when the orders are the earlier ones, unchanged, plus exactly the new pending header with the caller, the order total and the address |
| Checkout.OnlySuccessWrites | supabase/functions/checkout/index.ts:15-151 | every non-success answer leaves products, cart, orders and items unchanged (failed rollbacks excepted) |
| Checkout.CheckoutKeepsMoneyInvariant | supabase/functions/checkout/index.ts:99-151 | every attempt keeps each order's total equal to the sum over its items (failed rollbacks excepted) |
| Checkout.SuccessAdjustsStock | supabase/functions/checkout/index.ts:154-163 | after success, each product on a cart line has its stock at load minus the quantity (not negative) unless its write failed; every other product is unchanged |
| Checkout.StockStaysNonNegative | supabase/functions/checkout/index.ts:157 | no attempt makes a non-negative stock negative |
| Checkout.SuccessClearsCart | supabase/functions/checkout/index.ts:165-180 | after success, no cart row of the caller remains and every row of other users is kept; a failed clear still answers success and leaves the cart as it was |
| Checkout.CheckoutSpec | supabase/functions/checkout/index.ts:8-188 | no contract; specified by `Store.Checkout` and the lemmas `RefusedRequestWritesNothing`, `ValidatedAttempt`, `SucceedsExactlyWhen`, `CheckoutKeepsConsistency`, `CheckoutKeepsMoneyInvariant`, `SuccessAdjustsStock`, `SuccessClearsCart` |
| Checkout.Attempt | supabase/functions/checkout/index.ts:59-107 | no contract; specified by `ValidatedAttempt`, `EmptyCartWritesNothing`, `BadLineWritesNothing` and `NotValidatedWritesNothing` |
| Checkout.Commit | supabase/functions/checkout/index.ts:117-180 | no contract; specified by `Store.Place`, `CommitPlacesOrder`, `CommitWritesPricedOrder`, `CommitKeepsConsistency`, `FailedItemsInsertCompensates` and `StockAfterExact` |
| Checkout.CommitPlacesOrder | supabase/functions/checkout/index.ts:117-144 | when both inserts go through, the answer carries the fresh order id and the accumulated total, and the order's items are appended to the items table |
| Checkout.LoadCart | supabase/functions/checkout/index.ts:60-63 | no contract; specified by `LoadCartJoined` |
| Checkout.OrderTotal | supabase/functions/checkout/index.ts:80-100 | no contract; specified by `ValidateLines` (the loop's accumulator) and `ItemsTotalAttach` |
| Checkout.Attach | supabase/functions/checkout/index.ts:137-140 | no contract; specified by `ItemsTotalAttach` and `CommitWritesPricedOrder` |
| Checkout.Restock | supabase/functions/checkout/index.ts:155-162 | no contract; specified by `StockStepAt` and `StockAfterFrame` |
| Checkout.StockAfter | supabase/functions/checkout/index.ts:154-163 | no contract; specified by `Store.UpdateStock`, `StockAfterFrame`, `StockAfterLine` and `StockAfterExact` |
| Checkout.ClearUser | supabase/functions/checkout/index.ts:166-169 | no contract; specified by `SuccessClearsCart` |
| Checkout.Store.UpdateStock | supabase/functions/checkout/index.ts:153-163 | the loop leaves the products equal to the stock loop's specification over the old products |
| Checkout.Store.Place | supabase/functions/checkout/index.ts:117-180 | the header insert, items insert with rollback, stock loop and cart clear give the response and tables of `Commit` |
| Checkout.Store.Checkout | supabase/functions/checkout/index.ts:8-188 | the handler's response and the tables afterwards are exactly `CheckoutSpec` of the tables before it, and table consistency is preserved |
| CartContext.Reduce | src/context/CartContext.tsx:58-124 | no contract; specified by `AddToCartEffect`, `RemoveFromCartEffect`, `UpdateQuantityEffect`, `ClearAndLoadEffect`, `VisibilityEffect`, `ReduceKeepsQuantitiesPositive` and `ReduceKeepsIdsUnique` |
| CartContext.TotalItems | src/context/CartContext.tsx:156 | no contract; specified by `TotalsIgnoreOrder`, `AddToCartTotals` and `RemoveFromCartTotals` |
| CartContext.Subtotal | src/context/CartContext.tsx:157 | no contract; specified by `TotalsIgnoreOrder`, `AddToCartTotals` and `RemoveFromCartTotals` |
| CartContext.Tax | src/context/CartContext.tsx:158 | no contract; specified by `TaxAndTotal` and `TotalsIgnoreOrder` |
| CartContext.Total | src/context/CartContext.tsx:159 | no contract; specified by `TaxAndTotal` and `TotalsIgnoreOrder` |
| CartContext.AddToCartEffect | src/context/CartContext.tsx:60-80 | adding a present id raises that line's quantity by 1 and keeps the length and products; adding a new id appends one line of quantity 1; `isOpen` is unchanged |
| CartContext.AddToCartExisting | src/context/CartContext.tsx:60-72 | with one line per id, adding a present id changes exactly that line, by one unit |
| CartContext.WithoutIdKeepsUnique | src/context/CartContext.tsx:82-86 | removing an id keeps "one line per id" |
| CartContext.RemoveFromCartEffect | src/context/CartContext.tsx:82-86 | removal keeps exactly the lines with another id; removing an absent id is a no-op; with one line per id it cuts out exactly that line and keeps the rest in order |
| CartContext.DropUniqueLine | src/context/CartContext.tsx:82-86 | with one line per id, the filter equals cutting out the line of that id |
| CartContext.UpdateQuantityEffect | src/context/CartContext.tsx:88-104 | a quantity ≤ 0 acts exactly as removal; a positive one sets the quantity on that id's line and leaves every other line unchanged |
| CartContext.ClearAndLoadEffect | src/context/CartContext.tsx:106-119 | clearing empties the items, loading replaces them wholesale, and neither touches `isOpen` |
| CartContext.VisibilityEffect | src/context/CartContext.tsx:109-116 | toggle, open and close change only `isOpen`, and toggling twice is the identity |
| CartContext.ReduceKeepsQuantitiesPositive | src/context/CartContext.tsx:58-124 | every action except `LOAD_CART` keeps all quantities ≥ 1 |
| CartContext.ReduceKeepsIdsUnique | src/context/CartContext.tsx:58-124 | every action except `LOAD_CART` keeps at most one line per product id |
| CartContext.SumPermutation | src/context/CartContext.tsx:156-157 | a `reduce` sum over the lines does not depend on their order |
| CartContext.TotalsIgnoreOrder | src/context/CartContext.tsx:156-159 | totalItems, subtotal, tax and total are the same for any ordering of the same lines |
| CartContext.TaxAndTotal | src/context/CartContext.tsx:158-159 | tax is 8% of the subtotal and the total is 108% of it |
| CartContext.AddExistingTotals | src/context/CartContext.tsx:156-157 | with one line per id, adding a present product adds one unit and that line's price |
| CartContext.AddToCartTotals | src/context/CartContext.tsx:156-157 | with one line per id, any add raises totalItems by 1 and the subtotal by the line's price, or by the new product's price |
| CartContext.RemoveFromCartTotals | src/context/CartContext.tsx:156-157 | with one line per id, removing a present id subtracts exactly that line's units and price × quantity |
| ProductListing.Distinct | src/pages/ProductListing.tsx:20-21 | the result has the same elements as the input, each once |
| ProductListing.Categories | src/pages/ProductListing.tsx:19-22 | `"all"` comes first, followed by every product category exactly once and nothing else |
| ProductListing.Searched | src/pages/ProductListing.tsx:28-36 | an empty query keeps everything; otherwise exactly the products whose normalised title, description (`null` read as `''`) or category contains the normalised query; never more copies than the input |
| ProductListing.Categorised | src/pages/ProductListing.tsx:38-40 | with `"all"` keeps everything, otherwise exactly the products of the selected category |
| ProductListing.Narrowed | src/pages/ProductListing.tsx:26-42 | the three filters keep exactly the catalogue products that pass all of them, as a sub-multiset of the catalogue |
| ProductListing.Contains | src/pages/ProductListing.tsx:32-34 | no contract; `includes` as "the needle is a prefix of some suffix"; specified through `Searched` |
| ProductListing.MatchesQuery | src/pages/ProductListing.tsx:30-35 | no contract; specified by `Searched` |
| ProductListing.Precedes | src/pages/ProductListing.tsx:44-57 | no contract; specified by `PrecedesIsTotalPreorder`, `InsertFeatured` and `FilteredProductsSorted` |
| ProductListing.HasActiveFilters | src/pages/ProductListing.tsx:69-70 | no contract; specified by `ClearFilters`, `ActiveFiltersIgnoreSort` and `NoActiveFiltersShowsAll` |
| ProductListing.Insert | src/pages/ProductListing.tsx:44-57 | one insertion step adds exactly the inserted product |
| ProductListing.Sort | src/pages/ProductListing.tsx:44-57 | the sort is a permutation of its input |
| ProductListing.FilteredProducts | src/pages/ProductListing.tsx:25-60 | the result is a sub-multiset of the catalogue and holds exactly the products that pass the text, category and price filters |
| ProductListing.FilteredProductsCounts | src/pages/ProductListing.tsx:26-42 | the result holds each selected product exactly as often as the catalogue does |
| ProductListing.PrecedesIsTotalPreorder | src/pages/ProductListing.tsx:44-57 | the featured and price comparators are consistent (total and transitive), and so is the name comparator when `localeCompare` is |
| ProductListing.InsertSorted | src/pages/ProductListing.tsx:44-57 | inserting into a sorted sequence keeps it sorted |
| ProductListing.SortSorted | src/pages/ProductListing.tsx:44-57 | with a consistent comparator the output is sorted by it |
| ProductListing.FilteredProductsSorted | src/pages/ProductListing.tsx:44-57 | `price-asc` gives non-decreasing prices, `price-desc` non-increasing, `featured` puts every featured product before every other, and `name` orders titles by `localeCompare` when that is a total order |
| ProductListing.InsertFeatured | src/pages/ProductListing.tsx:54-56 | under the featured comparator, a featured product is inserted after the featured block and a plain one at the end |
| ProductListing.FeaturedSortPartitions | src/pages/ProductListing.tsx:54-56 | the featured sort puts the featured products first, then the rest, each group in its original order |
| ProductListing.FilteredProductsFeaturedStable | src/pages/ProductListing.tsx:54-56 | for `featured`, the page shows the filtered featured products then the other filtered products, each in catalogue order |
| ProductListing.ClearFilters | src/pages/ProductListing.tsx:62-67 | after the reset no filter is active and the sort is `featured` |
| ProductListing.ActiveFiltersIgnoreSort | src/pages/ProductListing.tsx:69-70 | changing the sort choice never changes whether filters are active |
| ProductListing.NoActiveFiltersShowsAll | src/pages/ProductListing.tsx:69-70 | with no active filter, the page shows exactly the catalogue products priced within $0–$1000, each as often as listed, whatever the other products' prices |
| CheckoutFindings.DuplicateRowsOversell | supabase/functions/checkout/index.ts:83-162 | with 5 in stock and two cart rows of the same product for 3 and 4 units, the handler answers success with an order of 7 units for 700 cents, and the stock ends at 1 |
| CheckoutFindings.DuplicateRowsRefused | supabase/functions/checkout/index.ts:92-97 | validation by total demand per product refuses that cart |
| CheckoutFindings.RunningStockDeducts | supabase/functions/checkout/index.ts:154-162 | a stock loop that deducts from the current stock takes from each product exactly the units ordered of it, over however many rows, and a failed write leaves it unchanged |
| CheckoutFindings.RunningStockNeverOversells | supabase/functions/checkout/index.ts:154-162 | after validation by total demand, that loop leaves no non-negative stock negative |

## Left out

- Token verification (`getClaims`) is the parameter `verify`. Client creation, environment variables, CORS headers, `Deno.serve` and console logging are I/O or a foreign library and are not modelled.
- Request bodies: a JSON `null` body makes the destructuring of `address` throw, which gives a 500; the model has no such body. Any other JSON value without an `address` field is `Json(None)`, which gets the 400 for a missing address. A missing or falsy address field is written as the empty string.
- Database identity: order ids are natural numbers handed out by the store, standing for database uuids. Row ids of order items and timestamps are not modelled.
- Row order: `cart_items` and `order_items` are sequences. The cart query sets no order, so the database's row order is unspecified. A sequence's order stands for the order the query happens to return, not a property of the table. That order decides which error is reported when several lines are bad, and the order in which items are inserted.
- Concurrency: two checkouts racing between the cart load and the stock writes are not modelled. The model does capture that each write uses the stock read at load time.
- Checkout.SuccessAdjustsStock: the exact "stock minus quantity" is stated only when the caller's cart has at most one row per product. With two rows of one product, each row is validated against the whole stock, every write starts from the stock read at load time, and the last write wins; `CheckoutFindings.DuplicateRowsOversell` shows the result. For that case `StockAfterFrame`, `StockStepAt`, `StockUntouched`, `StockAfterLast` and `StockStaysNonNegative` still hold.
- Checkout.StockAfterExact: same restriction to one row per product.
- Checkout.StockAfterLine: same restriction. With two rows of one product, the later row's write overwrites the earlier one (stock 2 after the first write, 1 after the second, in `CheckoutFindings.TwoRowsRestock`), so an earlier row's value is not kept.
- Checkout.StockAfterLast: stock-write failures are a set of product ids (`Faults.stockWriteFails`). With two rows of one product, the model's two writes for it fail together or succeed together, while the handler's two update calls could differ. This lemma relies on that for such a cart: its "as loaded when the write fails" clause holds because both writes fail. In the handler, the first write could succeed (5 − 3 = 2) and the second fail, which leaves 2 and not the loaded 5.
- Checkout.CheckoutKeepsMoneyInvariant: it excludes a failed items insert followed by a failed rollback delete. The handler ignores the delete's error. `OrphanHeaderBreaksMoneyInvariant` shows the invariant then breaks.
- Checkout.OnlySuccessWrites: same exclusion; an orphaned header is the one write a failed attempt can leave.
- Money is integer cents. JavaScript floating-point prices, rounding and currency formatting are not modelled. The client's tax and total are exact reals.
- The cart's `localStorage` load and save, the React provider and its action helpers are not modelled: they are I/O and plumbing. The reducer's `default` branch cannot be reached with the typed actions. Display-only product fields (image, original price, rating, reviews, featured) are not part of the cart's product.
- CartContext.AddToCartTotals: the change in totals is stated for carts with at most one line per id, which every action but `LOAD_CART` preserves.
- CartContext.RemoveFromCartTotals: same restriction.
- ProductListing: `toLowerCase` is an arbitrary normaliser, with no Unicode case mapping. `localeCompare` is an arbitrary relation on titles. The price range is kept in cents, so the default $0–$1000 range is 0–100000.
- ProductListing.FilteredProductsSorted: the `name` order is stated only when `localeCompare` behaves as a total, transitive order.
- ProductListing.Categories: the order of the categories (first occurrence, as a `Set` iterates) is fixed by the definition of `Distinct` but not stated as a separate property.
- React state, memoisation, rendering, the filter panel toggle and product fetching are not modelled.
- These files are not part of this model: the admin edge function, the checkout page (its form validation is a library schema and it never calls the server), the other pages and components, and the data hook.

## Findings

| source | as written | input that shows it | evidently intended | confidence | as-written member | corrected member |
|---|---|---|---|---|---|---|
| supabase/functions/checkout/index.ts:92-162 | each cart row is checked against the product's whole stock, and each stock write is the stock read at load time minus that row's quantity, so the last write wins | 5 in stock; two rows of the same product for 3 and 4 units: success, 7 units sold, stock written as 1 | validate each product's total demand, and deduct every row from the current stock | not executed | CheckoutFindings.DuplicateRowsOversell | CheckoutFindings.RunningStockDeducts |

`Checkout` keeps the handler's loop as written, because it models the deployed code. The corrected loop `RunningStockAfter` and the corrected validation `DemandFits` live beside it in `CheckoutFindings`. `RunningStockNeverOversells` and `DuplicateRowsRefused` prove the intended behaviour of both.
