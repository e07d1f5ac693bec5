# Storefront core in Dafny

This project models the stateful and parsing logic of a small storefront.

- **Cookie cart.** A cookie holds an ordered list of `(productId, variantId, qty)` lines. Every read decodes and normalises the lines and cuts them to 200. Every change writes the whole list back, keeping only lines with a positive quantity. Viewing the cart prices each line against the catalog and prunes lines whose product is gone.
- **Order status action.** An admin sets an order's status. The pair (old status, new status) gives a stock direction of −1, 0 or +1. The quantities of the order's lines are folded through the variant stock with a guard against negative values. The step then commits stock and status together, or fails and changes nothing.
- **Payment initiation.** This route checks that the order's stored total is a positive integer equal to the sum of its lines. It then finds or creates the single payment row of the order.
- **Payment webhook.** This route checks a shared-secret signature and validates the payload. It maps the event to a payment status and an order status, rewrites the payment row, then sets the order's status.
- **Admin pages.** The product form is parsed: a digits-only price with a range check, newline-separated images, comma-separated variants with a `Default` fallback, and a nullable description. The order list reads its query parameters, computes the page window, the page count and the Prev/Next targets, builds the links' query strings and chooses the total shown for each order.

Each stateful operation is modelled twice:

- a pure function over the state (`SetStatus`, `Initiate`, `Webhook`, `AddedLines`, …), about which the lemmas are proved;
- a method over a mutable store (`Store.Db`, `Cart.CartStore`, `AdminOrders.SearchParams`) that does what the source does step by step. Its `ensures` ties the new state to that function.

Files:

- `common.dfy`: `Option`, first-match search and filter, with their laws.
- `strings.dfy`: the JavaScript string operations the code uses (`trim`, `split`, `parseInt`, the digit filter, `String(n)`).
- `store.dfy`: order, order-line and payment rows, and the `Db` store.
- `cart.dfy`, `order_actions.dfy`, `payment_initiate.dfy`, `payment_webhook.dfy`, `admin_products.dfy`, `admin_orders.dfy`: one module per source file.

Where the code does less than its own comments or its names suggest, the model follows the code:

- `stockDeltaDirection` gives 0 for CANCELED→PAID, CANCELED→FULFILLED, REFUNDED→PAID and REFUNDED→FULFILLED. Re-confirming a canceled order therefore takes no stock, although the comment at `src/app/admin/orders/_actions.ts:16` says that entering the payment-confirmed states decreases stock; the guard below it only tests for PENDING. `OrderActions.DirectionAndCommitment` states exactly which pairs change commitment without moving stock.
- A variant the order references but the store does not have starts from 0 in the guarded loop. Its row update then throws inside the transaction, so the model reports `VariantNotFound` and changes nothing.
- The webhook writes the payment row and the order row in two separate statements, outside any transaction. When the payment's order row is missing, the payment is updated and the order update fails (`OrderUpdateFailed`, HTTP 500).
- Stock is taken only by the admin action on PENDING→PAID or PENDING→FULFILLED. A webhook `payment.paid` moves the order to PAID without taking stock, and a later admin PAID→CANCELED returns the quantities all the same (`PaymentWebhook.PaidByWebhookThenCanceled`).
- The order list does not clamp the page. A negative page is passed on (`|| 1` only replaces NaN and 0) and gives a negative `skip`, which the database refuses. `AdminOrders.ListOrders` returns None for it.

## Model

| member | source | states |
|---|---|---|
| Cart.NormQty | src/lib/cart.ts:38 | The quantity is at least 1. A number of at least 1 is kept; NaN or anything below 1 gives 1. |
| Cart.Normalize | src/lib/cart.ts:35-39 | A decoded line is well formed: quantity at least 1, and an empty variant id becomes null. The product id is kept, and so is a non-empty variant id. |
| Cart.ReadLines | src/lib/cart.ts:28-44 | A missing, unparseable or non-array cookie reads as the empty cart, and so does an array with a `null` element at any position, since the whole array is normalised before the cut and reading a field of `null` throws inside the `try`. Any other array reads as its first min(200, n) elements, each normalised in place. |
| Cart.PersistedExactly | src/lib/cart.ts:46-47 | `writeLines` keeps exactly the lines with qty > 0, in their original order. It keeps everything iff every quantity is positive, and it distributes over concatenation. |
| Cart.WriteRead | src/lib/cart.ts:28-55 | Writing well-formed lines and reading them back gives them back, cut to the first 200. |
| Cart.AddLineEffect | src/lib/cart.ts:105-111 | With unique keys, the one matching line gains `n` and no other line changes or moves. Without a match, exactly one new line is prepended. Keys stay unique. |
| Cart.UpdateLineEffect | src/lib/cart.ts:115-122 | With unique keys and a present key, only that line's quantity is set. Length, order and every other line are unchanged, and keys stay unique. |
| Cart.RemoveLineEffect | src/lib/cart.ts:126-131 | No line with the key remains and every other line is kept in relative order. Nothing changes when the key is absent, and removal keeps keys unique. |
| Cart.SelectedVariant | src/lib/cart.ts:82-83 | A selected variant belongs to the product and has the requested id. None means a null or empty id, or an id no variant of the product has. |
| Cart.PriceLine | src/lib/cart.ts:71-93 | A missing product gives the placeholder: empty slug, qty 0 and zero prices. Otherwise `unitPrice = max(0, price + extra)` and `subtotal = unitPrice * max(1, qty)`, where `extra` is 0 without a selected variant. Both amounts are non-negative. |
| Cart.KeepIff | src/lib/cart.ts:96 | A read line survives the clean-up iff its product exists and has a non-empty slug. |
| Cart.NeedsRewriteIff | src/lib/cart.ts:95-100 | `getCart` writes iff some read line has a missing product or an empty slug. |
| Cart.KeptItemsPriced | src/lib/cart.ts:96-99 | Every item returned after a clean-up is kept, comes from a read line, and is that line priced. |
| Cart.CleanedLinesStable | src/lib/cart.ts:96-99 | The lines written by the clean-up read back as themselves. They price to exactly the returned items, and none of those is dropped again. |
| Cart.GetCartIdempotent | src/lib/cart.ts:60-102 | After `getCart`'s own write, a second call with the same catalog returns the same items and does not write. |
| Cart.AddThenView | src/lib/cart.ts:105-111 | Adding a line of a real product to an empty cart and viewing the cart gives one item with that line. For a non-negative price, its subtotal is `(price + extra) * n`. |
| Cart.MutationsKeepKeysUnique | src/lib/cart.ts:105-131 | On a cookie with unique keys, `addLine` (for a null or non-empty variant id; callers never pass ""), `updateQty` and `removeLine` each leave a cookie with unique keys. |
| Cart.CartStore.WriteLines | src/lib/cart.ts:46-55 | The cookie becomes the written form of the lines. |
| Cart.CartStore.GetCart | src/lib/cart.ts:60-102 | Returns `CartContents` of the read lines. The cookie is rewritten with the kept lines exactly when some line was dropped, and is left alone otherwise. |
| Cart.CartStore.AddLine | src/lib/cart.ts:105-112 | The cookie becomes the written `AddedLines` of the read lines with the normalised quantity. For a null or non-empty variant id (callers never pass ""), unique keys stay unique. |
| Cart.CartStore.UpdateQty | src/lib/cart.ts:115-123 | With the key present, the cookie becomes the written `UpdatedLines`. Without it, the cookie is untouched. Unique keys stay unique. |
| Cart.CartStore.RemoveLine | src/lib/cart.ts:126-131 | The cookie becomes the written `RemovedLines`, and unique keys stay unique. |
| Cart.CartStore.ClearCart | src/lib/cart.ts:134-136 | The cookie reads back as the empty cart. |
| Store.ParseStatus | src/app/admin/orders/_actions.ts:30 | A string is accepted iff it names one of the five statuses, and it parses to the status of that name. |
| Store.ParseStatusName | src/app/admin/orders/_actions.ts:30 | Every status is accepted under its own name. |
| OrderActions.StockDeltaDirection | src/app/admin/orders/_actions.ts:15-26 | The direction is −1 iff PENDING goes to PAID or FULFILLED. It is +1 iff PAID or FULFILLED goes to CANCELED or REFUNDED. Every other pair gives 0. |
| OrderActions.DirectionAndCommitment | src/app/admin/orders/_actions.ts:15-26 | −1 always takes inventory and +1 always releases it. A 0 pair changes commitment exactly for the transitions to PENDING and from CANCELED/REFUNDED to PAID/FULFILLED. |
| OrderActions.FoldSuccess | src/app/admin/orders/_actions.ts:64-82 | On success, each referenced variant ends at its start value (0 if it was not read) plus `dir` times the total quantity the lines ask of it. Lines without a variant are ignored and other entries are unchanged. |
| OrderActions.FoldTouchedNonNegative | src/app/admin/orders/_actions.ts:67-75 | On success, every variant the loop touched ends non-negative. |
| OrderActions.FoldOkIff | src/app/admin/orders/_actions.ts:67-75 | The guarded loop succeeds iff no running value `curr + dir*qty` goes below zero. |
| OrderActions.FoldShortFirst | src/app/admin/orders/_actions.ts:67-75 | A stopped loop names the first line whose running value goes below zero: that line's variant, the variant's value before the line, and the line's quantity. |
| OrderActions.SetStatusContract | src/app/admin/orders/_actions.ts:28-45 | An empty id fails with `IdRequired`; otherwise an unknown status fails with `InvalidStatus`; otherwise a missing order fails with `OrderNotFound`. Re-setting the current status is `Unchanged`. Every outcome but `Updated` leaves the order and stock tables untouched. |
| OrderActions.SetStatusUpdated | src/app/admin/orders/_actions.ts:47-91 | A successful step sets only that order's status and moves every variant's stock by `dir * SumQty`. So with direction 0, no stock changes. A moving step requires every referenced variant to exist, and each ends non-negative. |
| OrderActions.SetStatusShortIff | src/app/admin/orders/_actions.ts:47-75 | A valid change to a different status fails with `InsufficientStock` iff stock moves and some running value goes negative. The error names the first such line's variant, the value before that line and the quantity needed, and nothing is written. |
| OrderActions.ShortageScenario | src/app/admin/orders/_actions.ts:67-75 | With one unit in stock and three ordered, PENDING→PAID fails with `InsufficientStock("v", 1, 3)` and leaves both tables as they were. |
| OrderActions.SetStatusSucceedsIff | src/app/admin/orders/_actions.ts:47-91 | A valid change to a different status succeeds iff the direction is 0, or no running value goes negative and every referenced variant exists. |
| OrderActions.CancelSucceeds | src/app/admin/orders/_actions.ts:50-91 | Canceling a paid order always succeeds when its quantities are non-negative and its referenced variants all exist with non-negative stock. |
| OrderActions.ConfirmThenCancel | src/app/admin/orders/_actions.ts:47-91 | Confirming a pending order and then canceling it restores every stock value and leaves the order CANCELED. |
| OrderActions.SetOrderStatus | src/app/admin/orders/_actions.ts:28-94 | The loop over the lines with its early failure, and the commit, leave exactly the outcome and the tables of `SetStatus`. Payments are untouched. |
| PaymentInitiate.ItemsTotalAppend | src/app/api/payments/initiate/route.ts:21-25 | The lines' total is additive over concatenation. |
| PaymentInitiate.ItemsTotalIgnoresNonIntegral | src/app/api/payments/initiate/route.ts:21-25 | Lines with a non-integer price or quantity contribute nothing: the total equals that of the integral lines alone. |
| PaymentInitiate.InitiateContract | src/app/api/payments/initiate/route.ts:4-50 | A missing or empty id is rejected (400) exactly when it is missing or empty. A present id naming no order gives `OrderNotFound` (404), a stored total that is not positive gives `InvalidTotalAmount` (400), and a positive total that differs from the lines' sum gives `AmountMismatch` carrying both values (400). 404 is answered only for an unknown order and 200 only on success. None of the refusals writes anything. On success, an existing payment of the order is reused unchanged and its stored amount is reported. Otherwise exactly one row is appended, with the order's total, provider "mock" and status INIT. |
| PaymentInitiate.InitiateIdempotent | src/app/api/payments/initiate/route.ts:38-43 | A second successful call gives the same response and the same payment table, whatever id would be offered. |
| PaymentInitiate.InitiateKeepsPaymentsUnique | src/app/api/payments/initiate/route.ts:38-43 | With a fresh id, payment ids and order ids stay unique. |
| PaymentInitiate.MismatchScenario | src/app/api/payments/initiate/route.ts:31-36 | An order with total 10000 but lines summing to 9000 is refused with both values, and no row is written. |
| PaymentInitiate.InitiatePayment | src/app/api/payments/initiate/route.ts:4-50 | The route's response and payment table are exactly those of `Initiate`. Orders and stock are untouched. |
| PaymentWebhook.AsBody | src/app/api/webhooks/payments/route.ts:25-32 | The body read is always an object or an array. It is the decoded body itself when that is one. |
| PaymentWebhook.VerifySignatureIff | src/app/api/webhooks/payments/route.ts:7-10 | The signature is accepted iff the header and the secret are both present, non-empty and equal. |
| PaymentWebhook.UnsetSecretRejects | src/app/api/webhooks/payments/route.ts:7-10 | With no secret, or an empty one, every request is refused. |
| PaymentWebhook.EventMapping | src/app/api/webhooks/payments/route.ts:52-67 | Exactly the three events `payment.paid`, `payment.failed` and `payment.canceled` are mapped. |
| PaymentWebhook.EventTable | src/app/api/webhooks/payments/route.ts:52-64 | paid → (PAID, PAID), failed → (FAILED, CANCELED), canceled → (CANCELED, CANCELED). |
| PaymentWebhook.UpdatedPayment | src/app/api/webhooks/payments/route.ts:69-79 | The id, order id, amount and provider are kept and the status is set. `providerPaymentId` changes only when a string is supplied. `failureCode` and `failureMessage` become null unless supplied as strings. |
| PaymentWebhook.RejectionsChangeNothing | src/app/api/webhooks/payments/route.ts:34-67 | 401 is returned iff the signature fails. 400 is returned iff the signature passes and the payload is invalid. For a valid request, 404 `PaymentNotFound` is returned iff no payment has the named id, and the skip (200) is returned iff the payment exists and the event is not one of the three mapped ones. A 401, a 400, a 404 or a skip leaves both tables unchanged. |
| PaymentWebhook.MappedEventEffect | src/app/api/webhooks/payments/route.ts:69-85 | A mapped event rewrites exactly the named payment row and sets the status of exactly that payment's order, with `orderUpdated` true. When that order row is missing, the payment change stays and the order write fails. |
| PaymentWebhook.WebhookKeepsPaymentsUnique | src/app/api/webhooks/payments/route.ts:69-79 | Unique payment ids and order ids stay unique. |
| PaymentWebhook.WebhookIdempotent | src/app/api/webhooks/payments/route.ts:34-86 | Delivering the same webhook twice gives the same response and tables as delivering it once. |
| PaymentWebhook.HandleWebhook | src/app/api/webhooks/payments/route.ts:34-86 | The route's response and tables are exactly those of `Webhook`. Stock is untouched. |
| PaymentWebhook.PaidByWebhookThenCanceled | src/app/api/webhooks/payments/route.ts:53-83 | A `payment.paid` event moves a pending order to PAID without touching stock, and a later admin cancel of that order succeeds and adds every line's quantity back to stock (direction +1 in `src/app/admin/orders/_actions.ts:21-25`), although none was taken. |
| Strings.TrimEmpty | src/app/admin/products/page.tsx:17 | A string trims to "" iff it is all white space. |
| Strings.TrimTrimmed | src/app/admin/products/page.tsx:31 | Trimming a string with no white space at either end changes nothing. |
| Strings.SplitJoin | src/app/admin/products/page.tsx:30 | Joining the pieces of `split(c)` with `c` gives the input back. |
| Strings.JoinSplit | src/app/admin/products/page.tsx:30 | Splitting the join of pieces that do not contain `c` gives the pieces back. |
| Strings.DigitsOnly | src/app/admin/products/page.tsx:14 | The digit filter keeps only decimal digits, never lengthens, and keeps every digit of the input. |
| Strings.DigitsOfDigits | src/app/admin/products/page.tsx:14 | A string of digits passes the filter unchanged. |
| Strings.DigitsIgnoreNoise | src/app/admin/products/page.tsx:14 | Non-digit characters inserted at any position contribute nothing: the digits on either side are kept, in order. |
| Strings.ParseIntToString | src/app/admin/orders/page.tsx:18-19 | `parseInt(String(n), 10) == n` for every integer. |
| AdminProducts.EntriesShape | src/app/admin/products/page.tsx:28-40 | Every entry of a separated list is non-empty, has no white space at either end and does not contain the separator. |
| AdminProducts.EntriesJoin | src/app/admin/products/page.tsx:28-40 | Non-empty trimmed entries without the separator, joined with it, read back as themselves. |
| AdminProducts.Numbered | src/app/admin/products/page.tsx:33 | Entry `k` becomes the image with url entry `k` and sort `k`. |
| AdminProducts.ImagesRoundTrip | src/app/admin/products/page.tsx:28-33 | URLs typed one per line come back as the images in that order, with `sort` their position. |
| AdminProducts.VariantRows | src/app/admin/products/page.tsx:40-49 | No names give exactly one `Default` variant. Otherwise there is one variant per name, in order, with stock 0 and extra 0. |
| AdminProducts.VariantsRoundTrip | src/app/admin/products/page.tsx:35-40 | Names typed comma-separated come back as the variants in that order, with stock 0 and extra 0. |
| AdminProducts.BlankEntries | src/app/admin/products/page.tsx:28-40 | A field of only white space and separators has no entries. |
| AdminProducts.BlankVariantsDefault | src/app/admin/products/page.tsx:35-49 | A variants field of only commas and white space gives exactly the one `Default` variant. |
| AdminProducts.Description | src/app/admin/products/page.tsx:24-47 | The description is null iff the field is all white space. Otherwise it is the trimmed field. |
| AdminProducts.CreateProductContract | src/app/admin/products/page.tsx:7-51 | The form is refused for missing fields iff the name or slug is blank or the price has no digits. It is refused for its price iff the fields are present and the digits' value exceeds 2147483647. A created product has the trimmed name and slug and the digits' decimal value (0..2147483647), with its description, images and variants read from their fields. |
| AdminProducts.PriceIgnoresNonDigits | src/app/admin/products/page.tsx:14-15 | Non-digit characters inserted anywhere in the price field (thousands separators, a sign, a currency mark) do not change the created product or the refusal. |
| AdminProducts.PriceWithSeparator | src/app/admin/products/page.tsx:14-15 | The price "1,000" creates the same product as "1000". |
| AdminProducts.DeleteProduct | src/app/admin/products/page.tsx:57-61 | An absent or empty id is refused. Any other id is the product to delete. |
| AdminOrders.NumberOr | src/app/admin/orders/page.tsx:18-19 | `parseInt(t, 10)` with the default `d` in place of NaN and 0: any other number is kept. |
| AdminOrders.PageOfContract | src/app/admin/orders/page.tsx:18 | The page is never 0. It is 1 for an absent, repeated, non-numeric or zero value, and otherwise the number given, negative numbers included. |
| AdminOrders.PerOfContract | src/app/admin/orders/page.tsx:19-20 | The page size lies in 5..50. It is 10 for an absent, repeated, non-numeric or zero value, the number itself within range, and the nearer bound outside it. |
| AdminOrders.ReadQueryFilter | src/app/admin/orders/page.tsx:21-26 | A filter applies iff the status parameter is a single string naming one of the five statuses, and it is that status. |
| AdminOrders.Matching | src/app/admin/orders/page.tsx:23-26 | Every order listed is a row with the filtered status, every row with that status is listed, and without a filter every row is listed unchanged. |
| AdminOrders.ListOrdersContract | src/app/admin/orders/page.tsx:28-40 | For a page of at least 1, the count is that of the selected orders. At most `per` orders are shown, those from position `(page-1)*per` on. A page below 1 gives a negative skip and fails. |
| AdminOrders.PageCount | src/app/admin/orders/page.tsx:43 | Pages are at least 1; `pages*per` covers the total, and `(pages-1)*per` stays below it when there are orders. |
| AdminOrders.EveryOrderOnItsPage | src/app/admin/orders/page.tsx:38-43 | Selected order `i` is shown on page `i/per + 1`, at position `i % per`, and that page is within the page count. |
| AdminOrders.NavigationBounds | src/app/admin/orders/page.tsx:180-186 | From a page in 1..pages, Prev and Next stay in 1..pages. Prev stays put exactly on page 1 and Next exactly on the last page; otherwise they move by one. |
| AdminOrders.QueryPairs | src/app/admin/orders/page.tsx:44-50 | The pairs are the kept entries, in entry order, each value as text. |
| AdminOrders.QueryPairsSound | src/app/admin/orders/page.tsx:46-48 | Every pair comes from an entry that is neither undefined nor "". |
| AdminOrders.QueryPairsComplete | src/app/admin/orders/page.tsx:46-48 | Every entry that is neither undefined nor "" appears, with its value as text. |
| AdminOrders.QueryPairsAll | src/app/admin/orders/page.tsx:47 | Nothing is dropped iff every value is defined and non-empty. |
| AdminOrders.SetPair | src/app/admin/orders/page.tsx:47 | Setting a key not yet present appends the pair. |
| AdminOrders.SearchParams.Set | src/app/admin/orders/page.tsx:47 | The list becomes `SetPair` of the old list. |
| AdminOrders.Qs | src/app/admin/orders/page.tsx:44-50 | The loop over the entries builds `?` followed by the serialised pairs of the kept entries. |
| AdminOrders.NavPairs | src/app/admin/orders/page.tsx:180-186 | A Prev or Next link carries the status only when it is non-empty, then the target page and the page size. |
| AdminOrders.PageOfString | src/app/admin/orders/page.tsx:18 | A non-zero page written into a link reads back as itself. |
| AdminOrders.PerOfString | src/app/admin/orders/page.tsx:19-20 | A page size in 5..50 written into a link reads back as itself. |
| AdminOrders.ReadBack | src/app/admin/orders/page.tsx:18-21 | The pairs of a link read back as its status text, page and page size. |
| AdminOrders.NavigationRoundTrip | src/app/admin/orders/page.tsx:180-186 | Following a Prev or Next link reads back the target page, the same page size and the same status text and filter. |
| AdminOrders.DisplayedTotal | src/app/admin/orders/page.tsx:116-117 | The stored total is shown when present. Otherwise the shown total is the sum of unit price times quantity over the lines. |
| AdminOrders.DisplayedTotalConsistent | src/app/admin/orders/page.tsx:116-117 | For an order whose total agrees with its lines (as payment initiation demands), the shown amount does not depend on whether the stored total is there. |

## Left out

- Persistence: the database is the in-memory `Store.Db` and `Cart.CartStore`. Each database transaction is one state update, and the parallel variant writes of the order action are one map update.
- Concurrency between requests, including lost updates on the same order or cart.
- JSON encoding and decoding. The cookie is modelled as "missing / unparseable / not an array / array of raw lines or `null` elements", and the webhook body as a decoded JSON value, or None when it is not JSON.
- PaymentInitiate.Initiate: the request body is taken as already decoded to an optional string `orderId`. In the source, a body that is the JSON `null` makes the destructuring throw, and a truthy non-string `orderId` (such as `5`) reaches the database lookup, which rejects it; both answer 500, and the model has no input for either.
- Non-string ids in the cookie: `String(productId)` and `String(variantId)` of non-string JSON values are not modelled. Raw ids are already strings, and the raw quantity is what `parseInt(String(qty || 1), 10)` gives (None for NaN).
- JavaScript number semantics. Prices, quantities and totals are unbounded integers. `parseInt` on very long digit strings loses precision in JavaScript but not here, For the price only values beyond 2147483647 are affected, which the price check refuses either way; a page number or a cart quantity beyond 2^53 is read exactly here, where JavaScript would round it. `Number.isFinite` is covered by that check, since an infinite value is also out of range. A non-integral number in the payment route is the `NonInteger` case of `PaymentInitiate.Num`. The store's integer columns never produce it.
- Non-integral prices or quantities read from the store: `PaymentInitiate.ReadItems` always reads integral values, because the store's columns are integers. `ItemsTotalIgnoresNonIntegral` covers the non-integral case over arbitrary lines.
- Percent-encoding in `URLSearchParams.toString()`. `AdminOrders.Serialize` joins the raw keys and values, and `ParamsOf` reads them back raw.
- Framework effects: cookie options and expiry, `revalidatePath`, redirects, HTTP response bodies (only the status tags are kept), the approve/fail URLs built from an environment variable, and the base URL.
- The database-generated payment id is the `newId` parameter. The webhook secret is a parameter.
- Form values that are files rather than strings.
- Slug uniqueness on product creation, and the store's error when the product to delete does not exist (`AdminProducts.DeleteProduct` models only the id check).
- The order list's database ordering by creation time: rows are given already in display order.
- Inherited object properties in the webhook body (JavaScript prototype lookups).
- The forwarding routes that call the webhook, the cart form actions, the client-side page-size and status selectors, login, and all page markup.
