# Supermarket point of sale: a Dafny model of its core

The system is a small supermarket till. An ASP.NET Core API stores products and
sales in MongoDB, and a React client runs the checkout page, the catalog page and
the route guards. This project models the rules that decide what the system
does, as pure Dafny functions over immutable data, and proves properties about
them:

- **Checkout** (`SaleService.CreateSaleAsync`) runs in four phases over a product
  store. The store is a `map<ProductId, Product>`.
  1. Resolve every line against the active product with that exact barcode.
  2. Compute the totals. Money is exact integer cents, and tax is rounded half to
     even to the cent, as `Math.Round(decimal, 2)` does.
  3. Deduct the stock line by line. A decrement that matches no document fails
     the checkout, and nothing is rolled back.
  4. Record the sale with a receipt number built from an injected clock reading
     and an injected random draw.
- **Sale queries**: the most recent sales, today's revenue, and lookup by
  receipt number or id. Sales are a sequence in insertion order.
- **Catalog administration** (`ProductsController` Create, Update and Delete)
  works as transitions on the product map, with BadRequest, Conflict, NotFound,
  Created and NoContent outcomes.
- **The till's cart** (`PosPage.jsx`): increment, decrement, removal, merging a
  scanned product, the discount preview, and the checkout request built from the
  cart. The cart is linked to the server: a request built from a cart with
  current prices is charged exactly the cart's subtotal.
- **Access control** (`ProtectedRoute.jsx` and the route table of `App.jsx`):
  the redirect decision, and which page a signed-in user ends up on.
- **The catalog form** (`ProductsPage.jsx`):
  - the ordered first-error validator;
  - the save payload;
  - the defaults of the edit dialog;
  - the low-stock badge.

The modules follow the program's structure:

| module | file | covers |
|---|---|---|
| `Results` | `results.dfy` | `Option` and `Result` |
| `Text` | `text.dfy` | white space, trimming, upper-casing and digit formatting as .NET and JavaScript do them |
| `Money` | `money.dfy` | cents, tax rates, round half to even |
| `Clock` | `clock.dfy` | calendar date-times and the start of a day |
| `Receipt` | `receipt.dfy` | `Random.Next`, receipt number format and parse |
| `Catalog` | `catalog.dfy` | product store, lookups, admin endpoints |
| `SaleCheckout` | `checkout.dfy` | `CreateSaleAsync` |
| `SaleQueries` | `queries.dfy` | recent sales, today's revenue, lookups |
| `Cart` | `cart.dfy` | the point-of-sale page's cart |
| `Routing` | `routing.dfy` | `ProtectedRoute` and the route table |
| `ProductForm` | `productform.dfy` | the catalog page's form |

`DateTime.UtcNow` and `Random.Shared` are parameters:

- `now` is a `Clock.Instant`;
- `draw` is a `nat` that `Receipt.RandomNext` maps into the requested range.

The other inputs also become parameters:

- MongoDB's generated ids become the `newId` and `saleId` parameters.
- The client's HTTP calls become a `lookup` function or an action value that
  names the endpoint called.

## Model

| member | source | states |
|---|---|---|
| Text.TrimSpec | backend/Pos.Api/Controllers/ProductsController.cs:76-78 | Trimming returns a contiguous piece of the input. Only white space is removed before and after it, and the result neither starts nor ends with white space. |
| Text.TrimEmptyIffBlank | frontend/src/pages/ProductsPage.jsx:83-84 | A string trims to "" exactly when it is blank (empty or all white space), so `!s.trim()` and `IsNullOrWhiteSpace` agree. |
| Text.TrimKeepsBlankness | backend/Pos.Api/Controllers/ProductsController.cs:63-64 | Trimming neither makes a non-blank string blank nor a blank one non-blank, so the stored trimmed text passes the same required-field check. |
| Text.TrimIdempotent | backend/Pos.Api/Controllers/ProductsController.cs:76-78 | Trimming already trimmed text changes nothing. |
| Text.TrimOfTrimmed | backend/Pos.Api/Controllers/ProductsController.cs:76-78 | A string that is empty or has no white space at either end is its own trim. |
| Text.ToUpper | backend/Pos.Api/Services/SaleService.cs:93 | Upper-casing keeps the length, leaves no lower-case letter, and leaves every character that is not a lower-case letter where it was. |
| Text.ToUpperKeepsCaseClass | backend/Pos.Api/Services/SaleService.cs:93 | Upper-cased text equals the original ignoring case, and upper-casing twice is upper-casing once. |
| Money.RoundHalfEven | backend/Pos.Api/Services/SaleService.cs:71 | The result is `n / d` rounded to the nearest integer, and an exact half goes to the even neighbour. |
| Money.HalfEvenRoundingUnique | backend/Pos.Api/Services/SaleService.cs:71 | At most one integer meets the half-to-even rounding property, so that property defines the rounding completely. |
| Money.RoundHalfEvenNonNegative | backend/Pos.Api/Services/SaleService.cs:71 | Rounding a non-negative amount never gives a negative one. |
| Money.ClampRate | backend/Pos.Api/Services/SaleService.cs:70 | The effective tax rate is never negative: a negative rate becomes 0 and any other rate is kept. |
| Money.TaxAmount | backend/Pos.Api/Services/SaleService.cs:69-71 | The tax in cents is `taxable × rate` rounded half to even to whole cents, and it is non-negative when both inputs are. |
| Money.TaxOfThirty | backend/Pos.Api/Dtos/SaleCreateDto.cs:14 | With the default rate of 0.05, tax on 30.00 is 1.50. |
| Money.TaxMidpointGoesToEven | backend/Pos.Api/Services/SaleService.cs:71 | Tax of 0.125 on 2.50 rounds to 0.12, not 0.13: banker's rounding, not half away from zero. |
| Clock.StartOfDay | backend/Pos.Api/Services/SaleService.cs:117 | `DateTime.Date` is a valid time at second 0 of the same day, less than one day before the given time. |
| Clock.DayNumberInjective | backend/Pos.Api/Services/SaleService.cs:117-118 | Two valid times fall on the same day number exactly when their year, month and day agree. |
| Clock.TodayWindowIsSameDate | backend/Pos.Api/Services/SaleService.cs:117-121 | A time lies in `[today's midnight, midnight + 1 day)` exactly when its calendar date is today's date. |
| Receipt.RandomNext | backend/Pos.Api/Services/SaleService.cs:21 | A draw from `Next(min, max)` lies in `[min, max)`, so the upper bound is never produced. |
| Receipt.RandomNextCoversRange | backend/Pos.Api/Services/SaleService.cs:21 | Every value in `[min, max)` is produced by some draw. |
| Receipt.ReceiptParts | backend/Pos.Api/Services/SaleService.cs:22 | A receipt number is 22 characters: "R-", then yyyyMMdd, "-", HHmmss, "-" and the four-digit suffix, each field zero-padded. |
| Receipt.ParseReceipt | backend/Pos.Api/Services/SaleService.cs:22 | Parsing succeeds exactly on strings of the receipt format whose suffix is in [1000, 9998]. |
| Receipt.ReceiptRoundTrip | backend/Pos.Api/Services/SaleService.cs:22 | Parsing a formatted receipt number gives back the time and suffix it was made from. |
| Receipt.NewReceiptNo | backend/Pos.Api/Services/SaleService.cs:18-23 | A new receipt number has the receipt format, encodes the clock reading, and has a suffix in [1000, 9998]. |
| Receipt.ReceiptNoInjective | backend/Pos.Api/Services/SaleService.cs:18-23 | Receipt numbers made at different seconds, or with different suffixes, differ. |
| Catalog.FindByBarcode | backend/Pos.Api/Services/ProductService.cs:21-22 | Finds a product whose barcode is exactly the one asked for (the first such, by id), and finds nothing only when no product has that barcode. |
| Catalog.FindActiveByBarcode | backend/Pos.Api/Services/SaleService.cs:41-43 | Same as `FindByBarcode`, restricted to active products. |
| Catalog.UniqueBarcodeLookup | backend/Pos.Api/Services/ProductService.cs:21-22 | When barcodes are unique, looking up a product's barcode finds that product. |
| Catalog.NewProduct | backend/Pos.Api/Controllers/ProductsController.cs:74-85 | A created product stores the trimmed barcode, name and category and the given numbers and flag, and its creation and modification times are both `now`. |
| Catalog.CreateProblem | backend/Pos.Api/Controllers/ProductsController.cs:63-67 | Blank barcode or name is reported first, then a negative price, then a negative stock. There is no problem exactly when none of these holds. |
| Catalog.Create | backend/Pos.Api/Controllers/ProductsController.cs:60-89 | Invalid input gives BadRequest. A product whose barcode equals the untrimmed input gives Conflict. Created comes exactly when the input is valid and no product holds that barcode; then exactly one product is added under the new id, every other product is unchanged, and the store is unchanged on every failure. |
| Catalog.Message | backend/Pos.Api/Controllers/ProductsController.cs:60-119 | A body text is given exactly for the error answers 400, 409 and 500; 201, 204 and 404 carry no error text. |
| Catalog.Overwrite | backend/Pos.Api/Controllers/ProductsController.cs:106-113 | Update replaces the seven editable fields with the trimmed or given values, keeps the creation time, and sets the modification time. |
| Catalog.Update | backend/Pos.Api/Controllers/ProductsController.cs:92-119 | Outcomes:<br>- an absent id gives NotFound;<br>- Conflict comes only when the new barcode differs ignoring case from the old one and some product has exactly the new barcode;<br>- success changes only the target product;<br>- a replacement equal to the stored product gives "Update failed";<br>- every failure leaves the store unchanged. |
| Catalog.Delete | backend/Pos.Api/Controllers/ProductsController.cs:122-132 | An absent id gives NotFound with the store unchanged. Otherwise exactly that id is removed and every other product is kept. |
| Catalog.UpdateAcceptsNegativeValues | backend/Pos.Api/Controllers/ProductsController.cs:106-113 | Update performs no negativity check: a negative price and stock are stored. |
| Catalog.DeletePreservesUniqueness | backend/Pos.Api/Controllers/ProductsController.cs:125-131 | Deleting keeps the catalog's barcodes unique if they were. |
| Catalog.CreateAllowsDuplicateBarcode | backend/Pos.Api/Controllers/ProductsController.cs:70-79 | As written, creating " 123" next to "123" succeeds and leaves two products with barcode "123". |
| Catalog.UpdateAllowsDuplicateBarcode | backend/Pos.Api/Controllers/ProductsController.cs:99-104 | As written, updating "abc" to "ABC" next to a product "ABC" succeeds and leaves two products with barcode "ABC". |
| Catalog.CreateChecked | backend/Pos.Api/Controllers/ProductsController.cs:70-85 | Corrected create, which checks the trimmed barcode. BadRequest comes for the same inputs as in Create. Conflict comes exactly when some product holds the trimmed barcode, and Created exactly when none does. It keeps barcodes unique. |
| Catalog.UpdateChecked | backend/Pos.Api/Controllers/ProductsController.cs:99-113 | Corrected update, which checks the trimmed barcode against every other product. NotFound and Conflict come exactly in those cases. NoContent writes the overwritten product only when it differs from the stored one; an unchanged product gives "Update failed". It keeps barcodes unique. |
| Catalog.CreateCheckedAgreesOnTrimmedInput | backend/Pos.Api/Controllers/ProductsController.cs:70-79 | On an already trimmed barcode the corrected create and the create as written agree. |
| SaleCheckout.ResolveLine | backend/Pos.Api/Services/SaleService.cs:35-61 | Each error and its exact condition, in order:<br>- a blank barcode;<br>- a quantity of 0 or less;<br>- no active product with that exact barcode;<br>- stock below the quantity, reported with the name and stock of the product the lookup found.<br>A not-found error names the requested barcode. The line resolves exactly when none of these applies. Then the item snapshots the id, barcode, name and price of the first active product with that barcode, with line total = price × quantity. |
| SaleCheckout.ErrorMessage | backend/Pos.Api/Services/SaleService.cs:28-85 | Every checkout error has a non-empty message, and the not-found message ends with the barcode that was looked up. |
| SaleCheckout.ResolveLines | backend/Pos.Api/Services/SaleService.cs:33-62 | Resolving every line gives one item per line in request order, each the resolution of its line, and any failure is a line error. |
| SaleCheckout.ResolveLinesFirstError | backend/Pos.Api/Services/SaleService.cs:33-62 | All lines resolve exactly when each line does. On failure the error is that of the first failing line, and all lines before it resolve. |
| SaleCheckout.ClampDiscount | backend/Pos.Api/Services/SaleService.cs:66-67 | The effective discount is at most the subtotal and at least 0 for a non-negative subtotal. An in-range discount is kept, an excessive one becomes the subtotal, and a negative one becomes 0. |
| SaleCheckout.ComputeTotals | backend/Pos.Api/Services/SaleService.cs:65-73 | The totals:<br>- the subtotal is the sum of the line totals;<br>- the discount is clamped to [0, subtotal];<br>- the rate is clamped to at least 0;<br>- tax is the half-to-even rounding of taxable × rate;<br>- grand total = subtotal − discount + tax, and it is never negative.<br>The recorded discount and rate are the clamped ones. |
| SaleCheckout.Decrement | backend/Pos.Api/Services/SaleService.cs:78-80 | One stock update lowers the stock by the quantity, sets the modification time, and leaves every other field as it was. |
| SaleCheckout.Deduct | backend/Pos.Api/Services/SaleService.cs:76-86 | The deduction loop keeps the set of product ids, and a reported failure names one of the lines. |
| SaleCheckout.DeductFailsAtFirstMissing | backend/Pos.Api/Services/SaleService.cs:82-85 | The loop fails exactly when some line's product is missing, and it fails at the first such line. |
| SaleCheckout.DeductStock | backend/Pos.Api/Services/SaleService.cs:76-86 | After a complete deduction each product's stock is lower by the sum of the quantities of all its lines, duplicates included. |
| SaleCheckout.DeductTouchesOnlyStock | backend/Pos.Api/Services/SaleService.cs:76-86 | Deduction changes nothing of a product except its stock and modification time, and it leaves a product no line names untouched. |
| SaleCheckout.DeductFailureKeepsPrefix | backend/Pos.Api/Services/SaleService.cs:82-85 | When line k fails, the store holds exactly the decrements of the lines before k: they are not rolled back. |
| SaleCheckout.CashierName | backend/Pos.Api/Services/SaleService.cs:92 | The recorded cashier is "Cashier" for a blank name and the trimmed name otherwise, so it is never blank and is already trimmed. |
| SaleCheckout.PaymentMethod | backend/Pos.Api/Services/SaleService.cs:93 | The recorded method is "CASH" for a blank one. Otherwise it is the trimmed method upper-cased: equal to it ignoring case, with no lower-case letter and never blank. |
| SaleCheckout.CheckoutAgainst | backend/Pos.Api/Services/SaleService.cs:25-105 | The full checkout, with lines resolved against one store and decrements applied to a possibly changed one:<br>- an empty cart fails with nothing changed;<br>- a line error fails with nothing changed;<br>- when every line resolves, the checkout succeeds exactly when every decrement finds its product, and otherwise fails with a stock-update error;<br>- a decrement failure leaves the earlier decrements and records no sale;<br>- success appends exactly one sale, whose items, totals, names, receipt number, id and time are as stated for each phase. |
| SaleCheckout.CheckoutSuccess | backend/Pos.Api/Services/SaleService.cs:76-104 | After a successful checkout each product's stock is lower by its quantity in the sale. Nothing else of it changes, products not in the sale are untouched, and the grand total is non-negative. |
| SaleCheckout.CheckoutRecordsResolvedLines | backend/Pos.Api/Services/SaleService.cs:51-65 | A recorded sale's items are the resolution of the requested lines, and its subtotal is the sum of their line totals. |
| SaleCheckout.CheckoutStockFailure | backend/Pos.Api/Services/SaleService.cs:82-85 | A stock-update failure records no sale. It happens at the first line whose product has disappeared, and the store keeps exactly the decrements before it. |
| SaleCheckout.Checkout | backend/Pos.Api/Services/SaleService.cs:25-105 | A single checkout on one store:<br>- it never hits the stock-update failure;<br>- it succeeds exactly when the cart is non-empty and every line resolves;<br>- success appends one sale;<br>- failure changes nothing. |
| SaleCheckout.CheckoutExample | backend/Pos.Api/Dtos/SaleCreateDto.cs:11-14 | With the request defaults, three units at 10.00 give subtotal 30.00, tax 1.50 and total 31.50, recorded by "Cashier" paying "CASH", and the stock goes from 20 to 17. |
| SaleCheckout.DefaultNames | backend/Pos.Api/Services/SaleService.cs:92-93 | The default cashier and payment method are recorded as they are. |
| SaleCheckout.DuplicateLinesDriveStockNegative | backend/Pos.Api/Services/SaleService.cs:48-49 | Stock is checked per line, so two lines of 3 against a stock of 5 both pass and leave the stock at −1. |
| SaleCheckout.FailedCheckoutKeepsEarlierDecrements | backend/Pos.Api/Services/SaleService.cs:82-85 | If bread vanishes between lookup and deduction, the checkout fails with no sale, and the milk already deducted stays deducted. |
| SaleQueries.SortNewestFirst | backend/Pos.Api/Services/SaleService.cs:110 | Sorting by creation time, newest first, is a permutation of the sales. |
| SaleQueries.EffectiveLimit | backend/Pos.Api/Services/SaleService.cs:111 | A limit of 0 means no limit, and any other limit allows as many sales as its absolute value. |
| SaleQueries.TakeCount | backend/Pos.Api/Services/SaleService.cs:111 | The number of sales returned is the smaller of the number stored and the limit, or all of them without a limit. |
| SaleQueries.RecentSales | backend/Pos.Api/Services/SaleService.cs:107-113 | Recent sales come newest first and are drawn from the stored sales. There are as many as the limit allows, or all of them for limit 0. |
| SaleQueries.RecentSalesAreTheNewest | backend/Pos.Api/Services/SaleService.cs:109-112 | A sale left out of the recent list is no newer than any sale in it. |
| SaleQueries.RecentSalesStartWithNewest | backend/Pos.Api/Services/SaleService.cs:110-111 | When there are sales, the recent list is non-empty and its first sale is at least as new as every stored sale. |
| SaleQueries.TodayRevenue | backend/Pos.Api/Services/SaleService.cs:115-125 | Today's revenue is non-negative when every grand total is. |
| SaleQueries.RevenueAppend | backend/Pos.Api/Services/SaleService.cs:119-124 | Adding a sale adds its grand total to today's revenue exactly when it was made on today's date. |
| SaleQueries.CheckoutAddsToRevenue | backend/Pos.Api/Services/SaleService.cs:103-104 | A checkout at `now` raises today's revenue by exactly the new sale's grand total on success, and by nothing on failure. |
| SaleQueries.FirstMatch | backend/Pos.Api/Services/SaleService.cs:132-135 | The lookup finds the earliest sale that matches, and finds nothing only when none matches. |
| SaleQueries.FirstMatchAppended | backend/Pos.Api/Services/SaleService.cs:132-135 | A sale appended behind sales that do not match is the one found. |
| SaleQueries.CheckoutReceiptIsFound | backend/Pos.Api/Services/SaleService.cs:132-135 | After a checkout whose receipt number is new, looking that number up returns the sale just recorded. |
| Cart.Bump | frontend/src/pages/PosPage.jsx:53-57 | Mapping over the cart moves the quantity of each line with the id by `delta` and changes nothing else. |
| Cart.Filter | frontend/src/pages/PosPage.jsx:59-69 | Filtering keeps exactly the accepted lines: every kept line was in the cart, and every accepted line of the cart is kept. |
| Cart.FilterConcat | frontend/src/pages/PosPage.jsx:59-69 | Filtering two joined carts is joining the two filtered carts, so kept lines stay in order. |
| Cart.FilterKeepsDistinct | frontend/src/pages/PosPage.jsx:59-69 | Filtering keeps barcodes distinct. |
| Cart.IncQty | frontend/src/pages/PosPage.jsx:53-57 | The lines with the id get one more unit, every other line is unchanged, and the cart stays well formed (distinct barcodes, quantities ≥ 1). |
| Cart.DecQty | frontend/src/pages/PosPage.jsx:59-65 | After one fewer is taken, no line below 1 remains. Lines of other ids survive unchanged, and a line of the id with 2 or more survives with one fewer. |
| Cart.DecQtyKeepsWellFormed | frontend/src/pages/PosPage.jsx:59-65 | Decrementing keeps the cart well formed. |
| Cart.DecQtyKeepsOrder | frontend/src/pages/PosPage.jsx:59-65 | Taking one off works line by line. A line of the id loses a unit and goes when none is left, and the surviving lines keep their order. |
| Cart.DecUndoesInc | frontend/src/pages/PosPage.jsx:53-65 | On a cart with positive quantities, − after + restores the cart. |
| Cart.RemoveItem | frontend/src/pages/PosPage.jsx:67-69 | Removing leaves no line with the id and keeps every other line. |
| Cart.RemoveItemKeepsWellFormed | frontend/src/pages/PosPage.jsx:67-69 | Removing keeps the cart well formed. |
| Cart.RemoveItemKeepsOrder | frontend/src/pages/PosPage.jsx:67-69 | Removal works line by line, so the remaining lines keep their order. |
| Cart.NewLine | frontend/src/pages/PosPage.jsx:89-99 | A new line carries the product's barcode, name and price with quantity 1. Its key falls back to the barcode, so it is empty only when the barcode is. |
| Cart.AddProduct | frontend/src/pages/PosPage.jsx:82-100 | A scanned product already in the cart adds one to its line and changes nothing else. Otherwise it is appended with quantity 1. Either way the cart stays well formed and holds the barcode. |
| Cart.AddByBarcode | frontend/src/pages/PosPage.jsx:71-109 | A scan depends on the box:<br>- a blank box changes nothing and does not count as a failed scan;<br>- a failed lookup leaves the cart and the box, showing an error;<br>- a found product is merged and the box cleared;<br>- the cart stays well formed. |
| Cart.PreviewDiscountMatchesServer | frontend/src/pages/PosPage.jsx:48 | The page's discount preview is the server's discount clamp. |
| Cart.BuildPayload | frontend/src/pages/PosPage.jsx:111-127 | An empty cart sends no request. Otherwise the request lists (barcode, qty) per line in cart order, with a cashier name that defaults to "Cashier" when empty, and passes the other fields through. |
| Cart.PayloadPassesLineChecks | frontend/src/pages/PosPage.jsx:118-127 | A request built from a well-formed cart with non-blank barcodes never fails the server's blank-barcode or quantity checks. |
| Cart.SubtotalMatchesServer | frontend/src/pages/PosPage.jsx:43-46 | Items with the cart's prices and quantities have line totals summing to the page's subtotal. |
| Cart.ResolvedItemsFollowCart | frontend/src/pages/PosPage.jsx:118-127 | When the store's prices match the cart's, the resolved items carry the cart's prices and quantities and sum to its subtotal. |
| Cart.CheckoutChargesCartSubtotal | frontend/src/pages/PosPage.jsx:43-46 | A successful checkout of the page's request, with current prices, records the subtotal the page showed. |
| Routing.ProtectedRoute | frontend/src/components/ProtectedRoute.jsx:4-24 | The redirect decision:<br>- no token goes to /login whatever the roles;<br>- a token with no or an empty role list renders;<br>- rendering happens exactly for a token plus a listed role or no restriction;<br>- a refused Cashier goes to /pos and any other refused role to /. |
| Routing.Match | frontend/src/App.jsx:33-84 | The route table, page by page and in both directions:<br>- / is the dashboard;<br>- /login, /pos, /products and /receipts are matched exactly by that one segment, ignoring case;<br>- /receipts/:receiptNo is matched by two segments whose first is "receipts", and binds the receipt number;<br>- every other path, of any length, matches nothing. |
| Routing.Navigate | frontend/src/App.jsx:31-85 | An unmatched path goes to /login, and /login is shown unguarded. Any other matched page is shown exactly when its `ProtectedRoute` renders. Otherwise the visit follows that guard's redirect. A shown page is always the matched one, and every redirect targets /login, / or /pos. |
| Routing.NoTokenEndsAtLogin | frontend/src/components/ProtectedRoute.jsx:8-10 | Without a token every path ends on the login page after at most one redirect. |
| Routing.UnmatchedGoesToLogin | frontend/src/App.jsx:84 | An unmatched path redirects to /login and ends there. |
| Routing.RouteRolesExact | frontend/src/App.jsx:38-80 | / and /products admit exactly Admin and Manager. /pos, /receipts and /receipts/:receiptNo admit exactly Admin, Manager and Cashier. |
| Routing.KnownStaffSettleInOneHop | frontend/src/components/ProtectedRoute.jsx:13-20 | An Admin, Manager or Cashier with a token reaches a rendered page from any path within one redirect. That page is the login page or one whose roles include theirs. |
| Routing.UnknownRoleNeverSettles | frontend/src/components/ProtectedRoute.jsx:19-20 | A token holder with any other role is sent from / back to /, and no number of redirects settles. |
| ProductForm.OpenEdit | frontend/src/pages/ProductsPage.jsx:58-71 | Field by field, a present value is kept and a missing one takes the add dialog's default: "" for barcode and name, "General" for category, 0 for price and stock, 10 for reorder level. The active flag is set only for a stored `true`. |
| ProductForm.ValidateForm | frontend/src/pages/ProductsPage.jsx:82-89 | Each message is returned exactly when its check is the first to fail, in the order barcode, name, price, stock, reorder level. "" is returned exactly when all checks pass. |
| ProductForm.SavePayload | frontend/src/pages/ProductsPage.jsx:102-110 | Barcode and name are sent trimmed. An empty category is sent as "General", any other trimmed, and the numbers and flag unchanged. |
| ProductForm.HandleSave | frontend/src/pages/ProductsPage.jsx:91-116 | A validation message stops the save with that message. Otherwise the payload goes to create in add mode and to update of the selected id in edit mode. |
| ProductForm.EmptyFormIsRefused | frontend/src/pages/ProductsPage.jsx:5-13 | The add dialog as it opens cannot be saved: "Barcode is required". |
| ProductForm.SavedFormPassesServerValidation | frontend/src/pages/ProductsPage.jsx:82-89 | Whatever the page lets through passes the create endpoint's field checks. |
| ProductForm.PageCreatesAreChecked | frontend/src/pages/ProductsPage.jsx:102-110 | The page sends trimmed barcodes, so on its requests the create as written behaves as the corrected create. |
| ProductForm.CreatedProductMatchesPayload | frontend/src/pages/ProductsPage.jsx:102-110 | A product created from the page stores exactly the barcode, name and category the page sent. |
| ProductForm.BlankCategorySentEmpty | frontend/src/pages/ProductsPage.jsx:105 | A category of only white space is not defaulted: it is sent as "". |
| ProductForm.UntouchedEditResendsProduct | frontend/src/pages/ProductsPage.jsx:61-69 | Opening a stored product and saving it unchanged sends back its own fields, so the update rewrites only its modification time. |
| ProductForm.CheckoutKeepsLowStock | frontend/src/pages/ProductsPage.jsx:198 | A product flagged low on stock is still flagged after any successful checkout. |

## Left out

- JavaScript floating point is not modelled. The page's tax preview (`Math.round(x * 100) / 100`) and money formatting are left out.
- Sub-cent amounts are not modelled. C# `decimal` admits prices and discounts with more than two decimal places, but the model restricts money to whole cents. Only the tax is rounded, to cents.
- `Number(...)` of text typed into inputs and the `|| 0` fallbacks of the page are left out. Form and payload numbers are taken to be numbers already.
- A checkout reads `DateTime.UtcNow` separately for each decrement, for the receipt number and for `CreatedAt`. The model uses one `now` for all of them, and drops ticks below a second.
- Upper-casing and case-insensitive comparison cover ASCII letters only.
- The white-space set is .NET's `char.IsWhiteSpace`, and the client's `trim()` uses the same set in the model. JavaScript's `trim()` actually differs on U+FEFF and U+0085.
- Catalog.Update: `UpdatedAt` is stored to the second. An unchanged re-save within the same second as the previous save therefore modifies nothing and gives "Update failed" in the model; the server's sub-second clock makes that unlikely.
- Null strings and null item lists are left out; the model's strings and sequences are always present.
- Decimal overflow and 32-bit wrap-around of `Stock`, `Qty` and `ReorderLevel` are left out; integers are unbounded.
- MongoDB's natural order is modelled as increasing product id for "first match" lookups.
- When several sales share a creation time, MongoDB's order among them is unspecified. The model keeps their insertion order.
- A negative MongoDB `Limit(n)` is modelled as `|n|` results.
- `ProductService.SearchAsync` is left out: it depends on MongoDB regular-expression semantics.
- `ProductService.GetByIdAsync` is left out: it is a plain lookup by key.
- `SaleQueries.GetById` and `SaleQueries.GetByReceiptNo` have no contract of their own. They are `SaleQueries.FirstMatch` with a fixed filter, and `SaleQueries.FirstMatch` carries the contract.
- Authentication is left out: `AuthService`, `AuthController`, JWT and BCrypt, and the login page. A session is an input to `Routing`.
- `SalesController` and the client's `api.js` are left out. They map exceptions to HTTP 400 and fetch errors to messages. `SaleCheckout.ErrorMessage` gives the body texts.
- UI state is left out: toasts, the last receipt, loading flags, and resetting the cart and discount after a checkout.
- Concurrency is left out. The only interleaving modelled is a product that changes between resolving and deducting, through `SaleCheckout.CheckoutAgainst`.
- React Router's trailing-slash and percent-decoding rules are left out. A location is given as its path segments.
- `ProductCreateDto` is not part of this model. The create endpoint is assumed to take the fields of `ProductUpdateDto`.
- `SaleQueries.TodayRevenue`: its contract states only that revenue is non-negative. `SaleQueries.RevenueAppend` states the sum exactly, one sale at a time.
- `Text.ToUpper`: it upper-cases ASCII letters only, where .NET's `ToUpper` also maps other scripts.

## Findings

| source | as written | input that shows it | evidently intended | confidence | as-written member | corrected member |
|---|---|---|---|---|---|---|
| backend/Pos.Api/Controllers/ProductsController.cs:70-79 | The uniqueness check compares stored barcodes with the untrimmed input, but the trimmed input is stored. | Catalog holds "123"; create with barcode " 123". | Check the barcode that will be stored, so no two products share a barcode. | not executed | Catalog.CreateAllowsDuplicateBarcode | Catalog.CreateChecked |
| backend/Pos.Api/Controllers/ProductsController.cs:99-104 | The uniqueness check is skipped when the new barcode equals the old one ignoring case, although barcodes are compared exactly elsewhere. | Catalog holds "abc" (id 0) and "ABC" (id 1); update id 0 to "ABC". | Check the stored barcode against every other product. | not executed | Catalog.UpdateAllowsDuplicateBarcode | Catalog.UpdateChecked |

The client's own payload is always trimmed (`ProductForm.PageCreatesAreChecked`), so the first finding only affects callers that bypass the page.
