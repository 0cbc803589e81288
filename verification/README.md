# Order fulfilment backend: order routes and schemas in Dafny

This project models the order side of a retail backend. The order routes create orders, search and filter them, and count them for a dashboard. Above all, they update an order's status. When a payment reference comes with the update, it is the payment-confirmation transaction. That transaction refuses an order that already carries a payment reference, which is the idempotency guard. It records `{Razorpay, Paid, paymentId}` on the order. Then it walks the order's line items and runs a conditional decrement "stock ≥ quantity, then stock −= quantity" on each named product. If one product is missing or short, the whole transaction is discarded.

Modules:

- `ProductSchema` (product_schema.dfy): the product document, its required paths, its defaults, and the unique `productId` index.
- `OrderSchema` (order_schema.dfy): the eleven-value `status` enumeration with default `Pending`, plus the user, address, line-item, payment and order records.
- `Store` (store.dfy): the two collections as one value (`Snapshot`), lookup by `_id`, and the invariants of the unique indexes.
- `StockUpdate` (stock_update.dfy): the item walk, and its order-independent reading. `Demand(items, p)` is the total quantity the items ask of product `p`. `Sufficient(items, products)` says every named product exists and covers its demand.
- `StatusUpdate` (status_update.dfy): `UpdateStatusSpec`, the status / payment-confirmation transition as a function over a snapshot, with lemmas stating its properties.
- `OrderCreation` (order_creation.dfy): the create rules and order creation.
- `OrderQueries` (order_queries.dfy): `find` with a filter document, search, the status filter and the dashboard counts. It also holds the dashboard count over stored status fields, which can be missing as the code is written.
- `OrderDatabase` (order_database.dfy): class `Database`, whose fields are the two collections. Its `UpdateStatus` method writes the order in place and then runs the item loop (`DecrementItems`). That loop decrements one counter per item and restores the snapshot on abort. Each method's postcondition equates its response and new state with the specification function.

Modelling choices:

- The transaction is sequential. The state at the start is kept as a snapshot, and an abort writes it back.
- Orders are a sequence in store order, each carrying its `_id`. Products are a map keyed by `productId`.
- `stock` is an unbounded integer. The schema sets no lower bound, so the model does not assume one; the lemmas prove that no decrement takes a counter below zero.
- Line-item `quantity` is a natural number. The schema never checks its sign (models/order.js:54), so this is an assumption of the model.
- An optional request value counts as given when it is present and non-empty, like JavaScript truthiness of a string.
- Order creation spreads the whole request body into the new document. A body that names a `status` or a `payment` therefore sets them, as the code does. The status must still pass the enum validator.

## Model

| member | source | states |
|---|---|---|
| ProductSchema.NewProduct | models/product.js:3-35 | A product is built exactly when productId, title, category and subCategory are non-empty and price and originalPrice are given. Absent flags default to false, absent discountPercentage and rating to 0, absent stock to 0; a given stock is kept. |
| ProductSchema.NewProductRoundTrip | models/product.js:3-35 | A product written out field by field is rebuilt unchanged exactly when its required strings are non-empty. |
| ProductSchema.InsertProduct | models/product.js:4 | Unique index on productId: insertion fails exactly when the key is present. Otherwise it adds the product under its key and keeps every other product. |
| ProductSchema.InsertKeepsKeying | models/product.js:4 | Insertion keeps every product stored under its own productId. |
| OrderSchema.ParseStatus | models/order.js:7-21 | The enum validator accepts a text exactly when it is the stored text of one of the eleven statuses, and that status is the one accepted. |
| OrderSchema.StatusNameRoundTrip | models/order.js:7-21 | Parsing the stored text of a status gives that status back. |
| OrderSchema.StatusNameInjective | models/order.js:9-21 | Distinct statuses have distinct stored texts. |
| OrderSchema.AllStatusesListsEachOnce | models/order.js:9-21 | The enumeration lists every status exactly once. |
| Store.FindOrder | routes/orders.js:136 | findById returns the position of the first order with that `_id`, or nothing when no order has it. |
| Store.FindAfterReplace | routes/orders.js:146 | Saving an order back under the same `_id` leaves every lookup unchanged. |
| StockUpdate.ConditionalDecrement | routes/orders.js:176-185 | The decrement succeeds exactly when the product exists with stock ≥ quantity. It lowers that counter by the quantity, never below zero, and changes nothing else. |
| StockUpdate.ApplyItems | routes/orders.js:175-190 | The item walk keeps the set of products on success. On failure it names the productId of one of the items. |
| StockUpdate.SufficientUnfold | routes/orders.js:175-190 | The items are satisfiable exactly when the first decrement succeeds and the remaining items are satisfiable from what it leaves. |
| StockUpdate.ApplyItemsSucceedsIff | routes/orders.js:175-190 | The walk succeeds exactly when every named product exists and holds at least the total quantity its items ask for. |
| StockUpdate.ApplyItemsEffect | routes/orders.js:175-190 | On success each product's stock falls by exactly the summed quantity of the items naming it. Every other product field is unchanged, and so is every product not named. |
| StockUpdate.DemandPermutation | routes/orders.js:175-190 | The total quantity the items ask of a product does not depend on their order. |
| StockUpdate.ApplyItemsOrderIndependent | routes/orders.js:175-190 | Two orderings of the same items both succeed or both fail from the same stock, and on success leave the same counters. |
| StockUpdate.ApplyItemsFailure | routes/orders.js:175-189 | On failure the named product is that of the first item at which the items so far stop being satisfiable. |
| StockUpdate.ApplyItemsKeepsStockNonNegative | routes/orders.js:179-182 | After a successful walk no named product is below zero, and a store without negative stock keeps none. |
| StatusUpdate.RequestedStatus | routes/orders.js:144-146 | The status-only path writes the requested status when its text names one. A missing or unknown text is rejected (see Findings). |
| StatusUpdate.ConfirmationStatus | routes/orders.js:165 | Without a given status the payment path writes Confirmed. Otherwise it writes the status the text names, and it rejects a text that names none. |
| StatusUpdate.UpdateStatusSpec | routes/orders.js:128-202 | NotFound exactly when no order has the `_id`. AlreadyProcessed exactly when a paymentId is given and the found order already carries one. InvalidStatus exactly when the found order's status text fails the enum validator on the path taken. Every error leaves orders and products as they were. Success replaces only the found order, and changes nothing in it but its status and payment. The status-only path follows the corrected behaviour of the routes/orders.js:144-146 finding, which rejects a request with no status. |
| StatusUpdate.StatusOnlyChangesOnlyStatus | routes/orders.js:144-152 | Without paymentId, products are untouched. The update succeeds exactly when the order exists and the status is valid, and then only the order's status changes. This is the corrected path of the routes/orders.js:144-146 finding: the code accepts a body with no status, and this model rejects it. |
| StatusUpdate.DuplicatePaymentRejected | routes/orders.js:156-162 | With a paymentId, an order that already carries a payment reference gives AlreadyProcessed, and nothing changes. |
| StatusUpdate.ConfirmationEffect | routes/orders.js:165-195 | A successful confirmation sets the given status (or Confirmed) and exactly {Razorpay, Paid, paymentId}, and keeps every other field of the order. Each product's stock falls by exactly its demand, named products stay ≥ 0, and nothing else about any product changes. |
| StatusUpdate.ConfirmationAllOrNothing | routes/orders.js:175-199 | Once the guards pass, the call succeeds exactly when the items are satisfiable, and fails with InsufficientStock exactly when they are not. It then names the first failing item's product, and the orders and all stock counters keep their values from before the call. |
| StatusUpdate.ConfirmTwiceDecrementsOnce | routes/orders.js:156-190 | After a successful confirmation, another confirmation of the same order is AlreadyProcessed and changes nothing, so each stock is decremented once. |
| StatusUpdate.PaymentIsWriteOnce | routes/orders.js:156-170 | An order carrying a payment reference keeps its payment record through any call. |
| StatusUpdate.UpdatePreservesValidity | routes/orders.js:128-202 | The transition keeps `_id` and orderId unique, products keyed by productId, and stock non-negative. |
| StatusUpdate.TwoConfirmationsNeverOversell | routes/orders.js:175-190 | When two confirmations succeed one after the other, each product either order names had stock covering both orders' quantities. |
| StatusUpdate.StatusOnlyAsWritten | routes/orders.js:144-146 | As written: an absent status is saved as a removed field. A present one must name a status, or the save is rejected. |
| StatusUpdate.MissingStatusUnsetsField | routes/orders.js:144-146 | As written, a request with neither status nor paymentId succeeds and leaves the order without a status. The corrected path rejects it. |
| StatusUpdate.RequestedStatusAgreesWhenGiven | routes/orders.js:144-146 | The corrected status-only path agrees with the code on every request that carries a status. |
| OrderQueries.CountFieldsWithStatus | routes/orders.js:272-274 | As written, counting by status over stored status fields: a removed field matches no status, and the count never exceeds the collection size. |
| StatusUpdate.UnsetStatusBreaksDashboardTotal | routes/orders.js:272-276 | As written, one order saved through a `{}` status update counts towards totalOrders but under none of the eleven statuses. The per-status counts then sum to 0 while totalOrders is 1. |
| StatusUpdate.AtomicityExample | routes/orders.js:175-199 | Items [(A,2),(B,1)] against stock A=5, B=0 fail on B. A keeps 5, and the order is unchanged. |
| OrderCreation.IsNumericExamples | routes/orders.js:35 | IsNumeric encodes the numeric rule's pattern: optional sign, optional digits ending in a point, then at least one digit. It accepts "1499", "-2.50" and ".5". It refuses "", "+", "12.", "1e3" and "1.2.3". |
| OrderCreation.ValidationErrors | routes/orders.js:13-18 | All three create rules run, and the error list names exactly the failing ones: no user, no item or an empty item list, a missing or non-numeric total. |
| OrderCreation.InitialStatus | models/order.js:7-22 | A new order gets the body's status when its text names one, Pending when the body has none, and is rejected otherwise. |
| OrderCreation.CreateOrderSpec | routes/orders.js:30-53 | A bad body is refused before anything is written, and the refusal carries exactly the failing rules. A body that passes the rules is refused for its status exactly when the status text fails the enum validator, and for a duplicate key exactly when the `_id` or orderId is already present. Otherwise the order is created. Every failure leaves the store unchanged, and a created order is appended to the collection. |
| OrderCreation.CreatedOrderFields | routes/orders.js:39-44 | A created order carries the given keys and the body's user, shipping address, items, total and payment. It has at least one item and a numeric total. Its status is the one the body names, or Pending when the body names none. Without a body payment it has no payment reference. |
| OrderCreation.CreateThenFind | routes/orders.js:39-44 | Fetching a created order by its `_id` yields exactly the order just created. |
| OrderCreation.CreatePreservesValidity | models/order.js:5 | Creation keeps `_id` and orderId unique. |
| OrderQueries.Find | routes/orders.js:98-103 | find never returns more orders than are stored; FindMembers and FindAppend state what it returns and in which order. |
| OrderQueries.FindMembers | routes/orders.js:98-103 | find returns exactly the stored orders that match the filter. |
| OrderQueries.FindAppend | routes/orders.js:98-103 | find keeps store order: on a concatenation it yields the concatenation of the results. |
| OrderQueries.SearchAsWritten | routes/orders.js:90-109 | As written: rejected exactly when neither email nor mobile is given. Otherwise it returns the orders whose email equals `email or null` or whose phone equals `mobile or null`. |
| OrderQueries.SearchByEmailReturnsPhonelessOrders | routes/orders.js:98-102 | As written, a search by one buyer's email returns another buyer's order that has no phone. The corrected search does not. |
| OrderQueries.Search | routes/orders.js:90-109 | Rejected exactly when neither key is given. Otherwise it returns exactly the orders whose email is the given email or whose phone is the given mobile; an omitted key matches nothing (see Findings). |
| OrderQueries.FilterByStatus | routes/orders.js:114-124 | A text that names no status matches nothing. One that does selects exactly the orders with that status. |
| OrderQueries.CountWithStatus | routes/orders.js:272-274 | countDocuments by status never exceeds the collection size, and is 0 for a text that names no status. |
| OrderQueries.DashboardCounts | routes/orders.js:254-285 | totalOrders is the number of orders. statusCounts has exactly the eleven status texts as keys, each holding the number of orders with that status. |
| OrderQueries.StatusCountsSumToTotal | routes/orders.js:256-281 | The eleven per-status counts add up to totalOrders. |
| OrderDatabase.Database.AddProduct | models/product.js:4 | Adds a product exactly when its productId is new. The orders are untouched. |
| OrderDatabase.Database.CreateOrder | routes/orders.js:30-53 | The response and the new store are those CreateOrderSpec gives for the old store. |
| OrderDatabase.Database.UpdateStatus | routes/orders.js:128-202 | The response and the new store are those UpdateStatusSpec gives for the old store. The order is written before the item loop, and an abort restores both collections. The status-only path is the corrected one of the routes/orders.js:144-146 finding. |
| OrderDatabase.Database.DecrementItems | routes/orders.js:175-190 | On success each stock equals its old value minus the demand of its items, matching ApplyItems. On failure it names the same product as ApplyItems, and the counters are as before. |

## Left out

- Concurrency and isolation of database sessions (routes/orders.js:129-130, 192, 198). The transaction is modelled sequentially as snapshot and restore. Commit conflicts, retries and timeouts are not modelled; `TwoConfirmationsNeverOversell` covers two confirmations run one after the other.
- `generateOrderId` (routes/orders.js:23-25) reads the clock and a random number. The order key and the store-assigned `_id` are parameters of `CreateOrderSpec`.
- Sorting by `createdAt` (routes/orders.js:61, 103, 118) depends on timestamps. Results are in store order, and the timestamp fields are not modelled.
- The list-all and get-by-id routes (routes/orders.js:59-85) are plain reads, beyond the lookup `FindOrder` models.
- The full-update and delete routes (routes/orders.js:210-249) are thin wrappers over update-by-id and delete-by-id. Full update bypasses the payment guard and runs no enum validation.
- Malformed `_id` values, which make the lookup throw a cast error, are not modelled: `_id` is a natural number.
- A query parameter given twice (arriving as an array), and non-string JSON values for `status`, `paymentId`, `email` or `mobile`, are not modelled.
- The create rule "user not empty" is modelled as "a user object is present"; a user given as a string is not modelled.
- A line item without a `productId` is not modelled; items always name a product.
- Floating point: the product's `price`, `originalPrice`, `discountPercentage` and `rating` are exact reals. `totalAmount` is kept as the numeric text the validator checked, not converted to a number.
- The order's line-item snapshot (models/order.js:46-53) also holds `price`, `originalPrice`, `discountPercentage`, `sizes`, `colors` and `images`. `LineItem` keeps only the product key, the descriptive texts and `quantity`. No modelled route reads the dropped fields, and the stock walk uses only `productId` and `quantity`.
- Product `createdAt`/`updatedAt` defaults read the clock and are not modelled.
- The HTTP status codes and the error-logging handler are not modelled; responses are datatype constructors.
- routes/assetManagement.js, routes/fileUpload.js and index.js are network and file I/O and application wiring. They are not part of this model.

## Findings

| source | as written | input that shows it | evidently intended | confidence | as-written member | corrected member |
|---|---|---|---|---|---|---|
| routes/orders.js:144-146 | With no `paymentId`, the handler assigns `order.status = status` even when the body has no `status`. The value is then undefined, which the enum validator lets through and the save turns into removing the field. The order then has none of the eleven statuses, so the dashboard counts no longer add up to `totalOrders`. | `PUT /<id>/status` with body `{}` | A status update without a status is rejected, and every order keeps one of the eleven statuses. | not executed; medium | StatusUpdate.StatusOnlyAsWritten, StatusUpdate.MissingStatusUnsetsField, StatusUpdate.UnsetStatusBreaksDashboardTotal | StatusUpdate.RequestedStatus, StatusUpdate.UpdateStatusSpec, StatusUpdate.StatusOnlyChangesOnlyStatus, OrderDatabase.Database.UpdateStatus, OrderQueries.StatusCountsSumToTotal |
| routes/orders.js:98-102 | The search matches `user.email == (email or null)` OR `user.phone == (mobile or null)`. A null comparison matches a missing field, so a search by email alone also returns every order whose user has no phone, and the same holds for mobile and email. | `GET /user/search?email=a@example.com` with a stored order `{user: {email: "b@example.com"}}` | An omitted key takes no part in the match. | not executed; medium | OrderQueries.SearchAsWritten, OrderQueries.SearchByEmailReturnsPhonelessOrders | OrderQueries.Search |
