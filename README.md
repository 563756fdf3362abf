# ABC Retail storefront and order functions, modelled in Dafny

ABC Retail is a small shop in two parts. The first is an ASP.NET MVC storefront. It keeps
users and shopping carts in a relational database (`AuthDbContext`, with the tables Users and
Cart) and reaches the catalogue, customers and orders through an HTTP client of an Azure
Functions backend. The second is that backend. It keeps customers, products and orders in
Azure tables, and order creation passes through a storage queue. `CreateOrder` enqueues
Base64(UTF-8(JSON(order))), and a queue-triggered function inserts the decoded order into the
Orders table.

This project models both sides:

* **Functions backend.**
  * The customer, product and order endpoints, as classes over a generic keyed table
    (`TableStore.TableClient`, addressed by PartitionKey and RowKey).
  * The order queue (`QueueStore`) and the queue worker (`QueueProcessor`).
  * The entity and transfer-object mapping (`Map`).
  * The queue message format: RFC 4648 section 4 Base64 in full, with JSON and UTF-8 as an
    abstract codec with a lawfulness predicate.
* **Storefront.**
  * The Users and Cart tables as a class with the database's column limits and unique
    username index (`AuthDb.AuthDbContext`).
  * The remote API as a snapshot of its reads plus a log of write requests
    (`FunctionsApi.FunctionsApiClient`).
  * The cart, order, product and login controllers, and the `Cart`, `User` and cart view
    models.

Each controller action that changes state is a method whose `ensures` gives its whole new
state. The decisions and the resulting tables are pure functions, and the properties the
shop relies on are lemmas about those functions. Examples:

* one line per product in a cart;
* badge counts that grow by exactly the quantity added;
* checkout building one "Submitted" order per listed product;
* the search filter and its ordering;
* a registered user being able to sign in;
* the queue message round trip.

Conventions:

* A null string is `""`. The code only ever tests null and empty together.
* A request body is `Http.Parsed`: the JSON literal `null`, an object, or text that makes
  the deserialiser throw.
* Prices are `real` and dates are `int` ticks.
* `Guid.NewGuid()`, `DateTime.UtcNow`, the BCrypt salt, the form's `ModelState.IsValid` and
  the signed-in user's name and id claim are parameters.

## Model

| member | source | states |
|---|---|---|
| Base64.CharOf | ABCRetailers.Functions/Functions/OrdersFunctions.cs:52 | every six-bit value has an alphabet character other than the pad, and ValueOf maps it back |
| Base64.ValueOf | ABCRetailers.Functions/Functions/QueueProcessorFunctions.cs:28 | only the 64 alphabet characters have a value; the pad has none |
| Base64.ValueOfInvertsCharOf | ABCRetailers.Functions/Functions/QueueProcessorFunctions.cs:28 | every alphabet character is the encoding of its own value |
| Base64.Encode | ABCRetailers.Functions/Functions/OrdersFunctions.cs:52 | the encoding of n bytes has 4·⌈n/3⌉ characters |
| Base64.EncodeIsWellFormed | ABCRetailers.Functions/Functions/OrdersFunctions.cs:52 | an encoding holds only alphabet characters and pads, and pads only in its last two positions |
| Base64.DecodeQuad | ABCRetailers.Functions/Functions/QueueProcessorFunctions.cs:28 | a group of four characters yields 1 to 3 bytes, and exactly 3 unless it is the last group |
| Base64.DecodeGroupsLength | ABCRetailers.Functions/Functions/QueueProcessorFunctions.cs:28 | a well-formed text of groups has a length divisible by four and yields three bytes per group, less at most two for the pads |
| Base64.StripSkipped | ABCRetailers.Functions/Functions/QueueProcessorFunctions.cs:28 | the text FromBase64String reads: no space, tab, CR or LF remains, and nothing is added |
| Base64.Decode | ABCRetailers.Functions/Functions/QueueProcessorFunctions.cs:28 | space, tab, CR and LF are ignored wherever they occur; what remains decodes in groups of four, with the group length bounds of DecodeGroupsLength |
| Base64.DecodeIgnoresSkipped | ABCRetailers.Functions/Functions/QueueProcessorFunctions.cs:28 | inserting a space, tab, CR or LF anywhere does not change the result of decoding |
| Base64.DecodeTrailingNewline | ABCRetailers.Functions/Functions/QueueProcessorFunctions.cs:28 | "QQ==" followed by a line feed decodes to the single byte 0x41 |
| Base64.DecodeRejectsForeign | ABCRetailers.Functions/Functions/QueueProcessorFunctions.cs:28 | text holding a character outside the alphabet, the pad and the skipped characters is refused wherever that character sits |
| Base64.DecodeEncode | ABCRetailers.Functions/Functions/QueueProcessorFunctions.cs:28 | FromBase64String inverts ToBase64String on every byte sequence |
| OrderMessage.Encode | ABCRetailers.Functions/Functions/OrdersFunctions.cs:52 | a queued message is pure Base64 text |
| OrderMessage.Decode | ABCRetailers.Functions/Functions/QueueProcessorFunctions.cs:28 | a message holding a character that is not Base64 is Malformed, and anything else the worker reads came from a successful Base64 decoding |
| OrderMessage.DecodeEncode | ABCRetailers.Functions/Functions/QueueProcessorFunctions.cs:28 | with a lawful JSON codec, the worker decodes the message CreateOrder queued back into the same order |
| OrderMessage.EncodeInjective | ABCRetailers.Functions/Functions/OrdersFunctions.cs:52 | distinct orders never share a queue message |
| Map.KeyOrFresh | ABCRetailers.Functions/Helpers/Map.cs:30 | the row key is the transfer object's id when it has one, else the fresh key; never empty |
| Map.CustomerToDto | ABCRetailers.Functions/Helpers/Map.cs:10-22 | a null entity maps to the empty transfer object |
| Map.CustomerToEntity | ABCRetailers.Functions/Helpers/Map.cs:24-37 | partition "Customer", key from KeyOrFresh, null gives the empty entity; ToDto after ToEntity returns the input, with the chosen key as id |
| Map.CustomerEntityRoundTrip | ABCRetailers.Functions/Helpers/Map.cs:10-37 | a keyed customer row survives ToDto then ToEntity unchanged |
| Map.ProductToDto | ABCRetailers.Functions/Helpers/Map.cs:40-52 | a null entity maps to the empty transfer object |
| Map.ProductToEntity | ABCRetailers.Functions/Helpers/Map.cs:54-67 | partition "Product", key from KeyOrFresh; ToDto after ToEntity returns the input, with the chosen key as id |
| Map.ProductEntityRoundTrip | ABCRetailers.Functions/Helpers/Map.cs:40-67 | a keyed product row survives ToDto then ToEntity unchanged |
| Map.OrderToDto | ABCRetailers.Functions/Helpers/Map.cs:70-86 | a null entity maps to the empty transfer object |
| Map.OrderToEntity | ABCRetailers.Functions/Helpers/Map.cs:88-106 | partition "Order", key from KeyOrFresh, a default date becomes now and an empty status "Submitted"; the round trip keeps every other field |
| Map.OrderEntityRoundTrip | ABCRetailers.Functions/Helpers/Map.cs:70-106 | an order row with key, date and status survives ToDto then ToEntity unchanged |
| TableStore.TableClient.constructor | ABCRetailers.Functions/Functions/CustomersFunctions.cs:25-26 | a new table is empty and every row sits under its own key |
| TableStore.TableClient.AddEntity | ABCRetailers.Functions/Functions/CustomersFunctions.cs:46-47 | inserts exactly when the key is free; an existing key is a conflict and changes nothing |
| TableStore.TableClient.GetEntity | ABCRetailers.Functions/Functions/CustomersFunctions.cs:74-87 | the row under the key, or none when there is none |
| TableStore.TableClient.UpdateEntityReplace | ABCRetailers.Functions/Functions/CustomersFunctions.cs:104-105 | with ETag.All the stored row is overwritten whole, with no concurrency check; a missing row fails and changes nothing |
| TableStore.TableClient.DeleteEntity | ABCRetailers.Functions/Functions/CustomersFunctions.cs:117-118 | removes the key; a missing key is not an error |
| TableStore.TableClient.Query | ABCRetailers.Functions/Functions/CustomersFunctions.cs:59-60 | every stored row exactly once, each under its own key |
| QueueStore.QueueClient.constructor | ABCRetailers.Functions/Functions/OrdersFunctions.cs:31-32 | a new queue is empty |
| QueueStore.QueueClient.SendMessage | ABCRetailers.Functions/Functions/OrdersFunctions.cs:53 | the message joins the back of the queue |
| QueueStore.QueueClient.ReceiveMessage | ABCRetailers.Functions/Functions/QueueProcessorFunctions.cs:25-26 | the front message is taken, first in first out; an empty queue yields none |
| CustomersFunctions.CustomersFunctions.constructor | ABCRetailers.Functions/Functions/CustomersFunctions.cs:22-27 | the endpoints work on a valid Customers table |
| CustomersFunctions.CustomersFunctions.CreateCustomer | ABCRetailers.Functions/Functions/CustomersFunctions.cs:29-53 | null body gives 400, unreadable body 500; otherwise the row ("Customer", fresh key) is added (201), and a taken key gives 500 with nothing changed |
| CustomersFunctions.CustomersFunctions.GetCustomers | ABCRetailers.Functions/Functions/CustomersFunctions.cs:55-66 | 200 with every stored customer exactly once |
| CustomersFunctions.CustomersFunctions.GetCustomerById | ABCRetailers.Functions/Functions/CustomersFunctions.cs:68-88 | 200 with the row ("Customer", id), or 404 |
| CustomersFunctions.CustomersFunctions.UpdateCustomer | ABCRetailers.Functions/Functions/CustomersFunctions.cs:90-110 | null body or empty RowKey gives 400; otherwise unconditional replace (200), or 500 when the row is missing |
| CustomersFunctions.CustomersFunctions.DeleteCustomer | ABCRetailers.Functions/Functions/CustomersFunctions.cs:112-123 | 200, and ("Customer", id) is gone whether or not it existed |
| ProductsFunctions.ProductsFunctions.constructor | ABCRetailers.Functions/Functions/ProductsFunction.cs:23-28 | the endpoints work on a valid Products table |
| ProductsFunctions.ProductsFunctions.CreateProduct | ABCRetailers.Functions/Functions/ProductsFunction.cs:30-51 | null body gives 400 and adds nothing; otherwise the product gets the fresh RowKey whatever it carried, and its own PartitionKey is kept |
| ProductsFunctions.ProductsFunctions.GetProducts | ABCRetailers.Functions/Functions/ProductsFunction.cs:53-64 | 200 with exactly Map.ToDto of every stored product, one per row |
| ProductsFunctions.ProductsFunctions.UpdateProduct | ABCRetailers.Functions/Functions/ProductsFunction.cs:66-85 | null body or empty RowKey gives 400; otherwise unconditional replace |
| ProductsFunctions.ProductsFunctions.DeleteProduct | ABCRetailers.Functions/Functions/ProductsFunction.cs:87-106 | a missing or empty id gives 400 and deletes nothing; otherwise ("Product", id) is removed |
| OrdersFunctions.Stamp | ABCRetailers.Functions/Functions/OrdersFunctions.cs:48-49 | the order is keyed ("Order", fresh key), and every other field is kept |
| OrdersFunctions.OrdersFunctions.constructor | ABCRetailers.Functions/Functions/OrdersFunctions.cs:25-33 | the endpoints work on a valid Orders table, the queue and the codec |
| OrdersFunctions.OrdersFunctions.CreateOrder | ABCRetailers.Functions/Functions/OrdersFunctions.cs:35-59 | null body gives 400 with nothing queued; otherwise exactly the encoding of the stamped order is queued (201), and the table is never written |
| OrdersFunctions.OrdersFunctions.GetOrders | ABCRetailers.Functions/Functions/OrdersFunctions.cs:61-72 | 200 with every stored order exactly once |
| OrdersFunctions.OrdersFunctions.GetOrderById | ABCRetailers.Functions/Functions/OrdersFunctions.cs:96-116 | 200 with the row ("Order", id), or 404 |
| OrdersFunctions.OrdersFunctions.UpdateOrderStatus | ABCRetailers.Functions/Functions/OrdersFunctions.cs:74-94 | null body or empty RowKey gives 400; otherwise the whole row is replaced, or 500 when it is missing |
| QueueProcessor.QueueProcessorFunctions.constructor | ABCRetailers.Functions/Functions/QueueProcessorFunctions.cs:18-23 | the worker writes the same kind of Orders table |
| QueueProcessor.QueueProcessorFunctions.ProcessOrderQueue | ABCRetailers.Functions/Functions/QueueProcessorFunctions.cs:25-35 | an unreadable message fails, a null order is dropped, any other order is inserted exactly as decoded, and an existing key fails with nothing changed |
| OrderPipeline.SubmitAndDrain | ABCRetailers.Functions/Functions/QueueProcessorFunctions.cs:28-32 | an order accepted by CreateOrder and drained by the worker reaches the table field for field, under its fresh key, and the queue is empty again |
| OrderPipeline.DeliverTwice | ABCRetailers.Functions/Functions/QueueProcessorFunctions.cs:32 | a message delivered twice is inserted once; the second run fails on the existing key |
| UserModel.NewUser | ABC_Retail_App/Models/User.cs:29 | a user created without a role is a Customer and not an Admin |
| UserModel.User.IsAdmin | ABC_Retail_App/Models/User.cs:32-33 | the ordinal comparison with "Admin"; an admin's role is never "Customer" |
| UserModel.User.IsCustomer | ABC_Retail_App/Models/User.cs:35-36 | the ordinal comparison with "Customer"; a customer's role is never "Admin" |
| UserModel.User.FitsColumns | ABC_Retail_App/Models/User.cs:13-29 | for a user with either role, the row fits its columns exactly when the username has at most 100 characters and the hash at most 256: both role names fit the 20-character Role column |
| CartModel.ToRow | ABC_Retail_App/Models/Cart.cs:9-29 | saving writes Id, CustomerUsername, ProductId and Quantity |
| CartModel.FromRow | ABC_Retail_App/Models/Cart.cs:31-42 | loading a row and saving it gives the row back, and the display fields start empty |
| CartModel.DisplayFieldsNotPersisted | ABC_Retail_App/Models/Cart.cs:31-42 | changing ProductName, UnitPrice, ProductImageUrl or StockAvailable does not change the stored row |
| CartModel.TotalPrice | ABC_Retail_App/Models/Cart.cs:44-47 | with quantity at least 1 and a non-negative price, the total is at least the unit price, and never negative |
| CartViewModels.TotalsConcat | ABC_Retail_App/Models/ViewModels/CartItemViewModel.cs:25-26 | TotalItems and TotalPrice add up over any split of the item list |
| CartViewModels.ItemTotalPrice | ABC_Retail_App/Models/ViewModels/CartItemViewModel.cs:15-16 | an item's total is never negative for a non-negative price, and at least the unit price once the quantity is at least 1 |
| CartViewModels.TotalItems | ABC_Retail_App/Models/ViewModels/CartItemViewModel.cs:12-25 | with every quantity at least 1, TotalItems is at least the number of items |
| CartViewModels.TotalPrice | ABC_Retail_App/Models/ViewModels/CartItemViewModel.cs:26 | the cart total is never negative when no price or quantity is |
| CartViewModels.HasItems | ABC_Retail_App/Models/ViewModels/CartItemViewModel.cs:25-28 | with valid quantities, HasItems holds exactly when TotalItems is positive |
| CartViewModels.DefaultQuantityValid | ABC_Retail_App/Models/ViewModels/CartItemViewModel.cs:31-38 | a new add-to-cart form has quantity 1 and is valid exactly when a product id is filled in |
| CartLines.OwnerLines | ABC_Retail_App/Controllers/CartController.cs:244-246 | exactly the user's lines, none added |
| CartLines.WithoutOwner | ABC_Retail_App/Controllers/CartController.cs:282 | exactly the other users' lines remain; the sizes add up |
| CartLines.WithoutId | ABC_Retail_App/Controllers/CartController.cs:178 | exactly the lines with other ids remain |
| CartLines.FindLine | ABC_Retail_App/Controllers/CartController.cs:74-75 | the first line of that user for that product, or none when there is none |
| CartLines.FindOwnedLine | ABC_Retail_App/Controllers/CartController.cs:129-130 | a line with that id owned by that user, or none when there is none |
| CartLines.SumQuantitiesConcat | ABC_Retail_App/Controllers/CartController.cs:308-310 | the quantity sum adds up over any split |
| CartLines.SumAtLeastCount | ABC_Retail_App/Controllers/CartController.cs:308-310 | when every quantity is at least 1, the sum is at least the number of lines |
| CartLines.CartCount | ABC_Retail_App/Controllers/CartController.cs:300-312 | 0 without a signed-in user; with valid rows the badge count is at least the number of the user's lines, and positive exactly when the user has lines |
| CartLines.OwnerLinesConcat | ABC_Retail_App/Controllers/CartController.cs:244-246 | the owner filter distributes over concatenation |
| CartLines.ReplaceLine | ABC_Retail_App/Controllers/CartController.cs:146-147 | replacing one line changes only its owner's lines, and their sum by the change in quantity |
| CartLines.AppendLine | ABC_Retail_App/Controllers/CartController.cs:93-99 | a new line joins its owner's lines only |
| CartLines.WithoutOwnerLines | ABC_Retail_App/Controllers/CartController.cs:206 | after clearing, the owner has no lines and every other user keeps theirs |
| CartLines.WithoutIdLines | ABC_Retail_App/Controllers/CartController.cs:178 | removing by id commutes with the owner filter |
| CartLines.WithoutAbsentId | ABC_Retail_App/Controllers/CartController.cs:178 | removing an id that no line has changes nothing |
| CartLines.WithoutPresentId | ABC_Retail_App/Controllers/CartController.cs:178 | with Id a key, removing line i's id removes exactly line i |
| CartLines.WithoutOwnerKeepsKeys | ABC_Retail_App/Controllers/CartController.cs:206 | clearing keeps unique ids, and keeps one line per user and product, each on its own |
| CartLines.WithoutIdKeepsKeys | ABC_Retail_App/Controllers/CartController.cs:178 | removing a line keeps unique ids, and keeps one line per user and product, each on its own |
| AuthDb.FindUser | ABC_Retail_App/Controllers/LoginController.cs:47-48 | the first user with that username (or, for the lookup by primary key at line 194, that Id): no earlier user has it, and none means no user has it |
| AuthDb.AuthDbContext.constructor | ABC_Retail_App/Data/AuthDbContext.cs:9-15 | empty Users and Cart tables that meet the database's invariants |
| AuthDb.AuthDbContext.AddCartLine | ABC_Retail_App/Data/AuthDbContext.cs:40-43 | a new line takes the next identity value; a key over 100 characters is refused with nothing changed; Id stays a key |
| AuthDb.AuthDbContext.SetCartQuantity | ABC_Retail_App/Controllers/CartController.cs:146-148 | only line i's quantity changes, and the database's invariants hold |
| AuthDb.AuthDbContext.RemoveCartLine | ABC_Retail_App/Controllers/CartController.cs:178-179 | the table loses the lines with that id and nothing else, and Id stays a key |
| AuthDb.AuthDbContext.RemoveOwnerLines | ABC_Retail_App/Controllers/CartController.cs:282-283 | the table loses that user's lines and nothing else, and Id stays a key |
| AuthDb.AuthDbContext.AddUser | ABC_Retail_App/Data/AuthDbContext.cs:27-32 | a user is added with the next id exactly when the row fits its columns and the username is free; the table invariants hold either way |
| AuthDb.AuthDbContext.SetPasswordHash | ABC_Retail_App/Controllers/LoginController.cs:251-252 | the save succeeds exactly when the hash fits its 256-character column, and then only that user's hash changes |
| FunctionsApi.NewOrder | ABC_Retail_App/Controllers/OrderController.cs:75-86 | an order for the requested product with its name and price, total = price × quantity, status "Submitted"; OrderId is not set, so it keeps the Order class's default, taken to be empty (see Left out) |
| FunctionsApi.FindByUsername | ABC_Retail_App/Controllers/CartController.cs:234-235 | the first customer with that username: no earlier customer has it, and none means no customer has it |
| FunctionsApi.FindByRowKey | ABC_Retail_App/Services/FunctionsApiClient.cs:52-56 | the first customer with that RowKey: no earlier customer has it, and none means no customer has it |
| FunctionsApi.FunctionsApiClient.constructor | ABC_Retail_App/Services/IFunctionsApi.cs:8-35 | a client over a snapshot of the remote stores, with no requests sent yet |
| FunctionsApi.FunctionsApiClient.GetProductById | ABC_Retail_App/Services/FunctionsApiClient.cs:83-87 | the product, or null |
| FunctionsApi.FunctionsApiClient.GetCustomers | ABC_Retail_App/Services/FunctionsApiClient.cs:46-50 | the whole customer list |
| FunctionsApi.FunctionsApiClient.GetCustomerById | ABC_Retail_App/Services/FunctionsApiClient.cs:52-56 | the customer with that RowKey, or null |
| FunctionsApi.FunctionsApiClient.GetOrderById | ABC_Retail_App/Services/FunctionsApiClient.cs:127-137 | the order, or null |
| FunctionsApi.FunctionsApiClient.Send | ABC_Retail_App/Services/FunctionsApiClient.cs:114-118 | one write request is sent and its success reported; the reads do not change |
| CartController.MergedQuantity | ABC_Retail_App/Controllers/CartController.cs:80-86 | the merged quantity exists exactly when the sum fits the stock, and then lies strictly above the quantity added and at most the stock |
| CartController.AddInt32 | ABC_Retail_App/Controllers/CartController.cs:80 | C# `int` addition: a 32-bit value equal to the sum modulo 2^32, and equal to the sum when it fits |
| CartController.MergedQuantityAsWritten | ABC_Retail_App/Controllers/CartController.cs:80-86 | the merge as written, with a wrapping sum; it agrees with MergedQuantity whenever the sum fits in 32 bits |
| CartController.MergedQuantityAsWrittenWraps | ABC_Retail_App/Controllers/CartController.cs:80-86 | 2,000,000,000 + 2,000,000,000 against int.MaxValue in stock is accepted as −294,967,296 by the written merge and refused by the intended one |
| CartController.AddOutcomeOf | ABC_Retail_App/Controllers/CartController.cs:44-100 | each answer of AddToCart and its cause: bad input exactly when the id is empty or the quantity below 1; sign-in required exactly for valid input without a user; Added only for a signed-in user and a listed product whose stock covers the quantity, with that product's name; AddFailed only for a new line whose key is over 100 characters |
| CartController.CartAfterAdd | ABC_Retail_App/Controllers/CartController.cs:77-100 | afterwards the user has a line for the product; the table grows by at most one line, and every line for another user or product keeps its place and content |
| CartController.AddRejectsInvalidInputFirst | ABC_Retail_App/Controllers/CartController.cs:44-48 | an empty product id or a quantity below 1 is rejected before the sign-in check and any lookup |
| CartController.AddedWithinStock | ABC_Retail_App/Controllers/CartController.cs:59-86 | an accepted add names a listed product whose stock covers both the requested quantity and the user's resulting line |
| CartController.FindLineIsFirst | ABC_Retail_App/Controllers/CartController.cs:74-75 | the lookup finds the first matching line |
| CartController.AddCumulativeBoundary | ABC_Retail_App/Controllers/CartController.cs:77-86 | with the product already in the cart, the add is accepted exactly when line quantity + added ≤ stock, and then the line holds that sum |
| CartController.AddCountsExactly | ABC_Retail_App/Controllers/CartController.cs:74-100 | an accepted add raises the user's badge count by exactly the quantity and leaves every other user's lines unchanged |
| CartController.SetQuantityKeepsInvariant | ABC_Retail_App/Controllers/CartController.cs:146-148 | setting a valid quantity keeps the Cart table invariant |
| CartController.AppendKeepsInvariant | ABC_Retail_App/Controllers/CartController.cs:90-100 | adding the first line of a user for a product, with the next id, keeps one line per user and product and unique ids |
| CartController.UpdateOutcomeOf | ABC_Retail_App/Controllers/CartController.cs:120-148 | QuantityTooSmall exactly for a quantity below 1; not found exactly when the user owns no line with that id; a stock refusal only when the stock is below the quantity; Updated only for a line the user owns |
| CartController.UpdateSetsQuantity | ABC_Retail_App/Controllers/CartController.cs:120-148 | an accepted update sets the user's own line to exactly the requested quantity and no other user's lines change |
| CartController.UpdateUncheckedWhenProductMissing | ABC_Retail_App/Controllers/CartController.cs:139-144 | when the line's product is no longer listed, any quantity of at least 1 is accepted |
| CartController.RemoveDropsOneLine | ABC_Retail_App/Controllers/CartController.cs:164-190 | removing one of the user's lines drops exactly that line and touches no other user |
| CartController.ClearTouchesOnlyOwner | ABC_Retail_App/Controllers/CartController.cs:195-218 | clearing leaves the user no lines and every other user all of theirs |
| CartController.RemovalKeepsInvariant | ABC_Retail_App/Controllers/CartController.cs:178-207 | removing lines keeps the Cart table invariant |
| CartController.CheckoutOrders | ABC_Retail_App/Controllers/CartController.cs:256-272 | never more orders than lines; CheckoutCountsLines and CheckoutOrderFields give the exact count and fields |
| CartController.CheckoutCountsLines | ABC_Retail_App/Controllers/CartController.cs:256-259 | every line becomes an order or is skipped because its product is gone; orders plus skipped lines = lines |
| CartController.CheckoutOrderFields | ABC_Retail_App/Controllers/CartController.cs:261-272 | every order is a "Submitted" order of this user and customer, with no OrderId, for one of the lines: that product and quantity, its current name and price, total = price × quantity |
| CartController.AcceptedBounded | ABC_Retail_App/Controllers/CartController.cs:274-278 | the reported orders are among those built, and each was accepted by the API |
| CartController.SingleLineCheckout | ABC_Retail_App/Controllers/CartController.cs:261-272 | one line of a product priced 10.00 with quantity 2 gives one order with total 20.00 |
| CartController.CartItems | ABC_Retail_App/Controllers/CartController.cs:324-340 | every item carries the Id, product and quantity of one of the lines, and every line whose product is listed yields such an item; each item shows its product's current name, image URL, price and stock |
| CartController.CartView | ABC_Retail_App/Controllers/CartController.cs:316-347 | the page belongs to the user; every item comes from one of that user's lines, and every such line with a listed product appears, showing the product's current name, image URL, price and stock |
| CartController.CartItemsTotals | ABC_Retail_App/Controllers/CartController.cs:324-340 | the page's TotalItems is the lines' quantity sum less the lines whose product is gone |
| CartController.CartViewMatchesBadge | ABC_Retail_App/Controllers/CartController.cs:316-347 | with every product still listed, the cart page's item total equals the badge count |
| CartController.CartController.constructor | ABC_Retail_App/Controllers/CartController.cs:18-23 | the controller works on the given database and API |
| CartController.CartController.AddToCart | ABC_Retail_App/Controllers/CartController.cs:42-113 | answers AddOutcomeOf, and on success the table becomes CartAfterAdd (merge or one new line); otherwise nothing changes, and the table invariant holds |
| CartController.CartController.UpdateQuantity | ABC_Retail_App/Controllers/CartController.cs:118-159 | answers UpdateOutcomeOf, and only on success sets that line's quantity |
| CartController.CartController.RemoveItem | ABC_Retail_App/Controllers/CartController.cs:164-190 | a line the user does not own is not found and nothing changes; otherwise that line is removed |
| CartController.CartController.ClearCart | ABC_Retail_App/Controllers/CartController.cs:195-218 | with no lines nothing happens; otherwise all of the user's lines are removed |
| CartController.CartController.PlaceLine | ABC_Retail_App/Controllers/CartController.cs:258-278 | one line of the checkout: a listed product yields exactly one CreateOrder request for that line's order, an unlisted one yields none, and the order is reported exactly when the API accepts it; the catalogue, customers and orders are untouched |
| CartController.CartController.PlaceOrders | ABC_Retail_App/Controllers/CartController.cs:254-279 | one CreateOrder request per line whose product is listed, in line order, each for that line's order; the reported orders are exactly those the API accepted |
| CartController.CartController.Confirmation | ABC_Retail_App/Controllers/CartController.cs:223-296 | no user, no customer profile or an empty cart changes nothing; otherwise one CreateOrder per line with a listed product is sent in line order and all of the user's lines are removed, and the answer is CheckoutAnswerAsWritten of the accepted orders: the "Failed to process checkout" error exactly when at least one order was accepted |
| CartController.SummaryAsWritten | ABC_Retail_App/Controllers/CartController.cs:286 | the summary exists exactly when every id has at least eight characters, and is then the eight-character prefix of each id |
| CartController.SummaryCorrected | ABC_Retail_App/Controllers/CartController.cs:286 | always one entry per id: the id's first eight characters, or the whole id when shorter |
| CartController.SummaryCorrectedAgrees | ABC_Retail_App/Controllers/CartController.cs:286 | wherever the written summary exists, it equals the intended one |
| CartController.CheckoutAnswerAsWritten | ABC_Retail_App/Controllers/CartController.cs:284-295 | the catch's error answer exactly when some accepted order's id is shorter than eight characters, otherwise the success view with the count of accepted orders and one summary entry each |
| CartController.CheckoutAnswerCorrected | ABC_Retail_App/Controllers/CartController.cs:284-288 | always the success view, counting every accepted order, with a non-empty prefix of each non-empty id |
| CartController.CheckoutFailsOnceAccepted | ABC_Retail_App/Controllers/CartController.cs:261-295 | for the orders checkout builds, which have no id, the answer as written is the error exactly when the API accepted at least one order |
| OrderController.SubmittedOrder | ABC_Retail_App/Controllers/OrderController.cs:58-86 | an order exists exactly when customer and product exist and stock ≥ quantity; it carries the customer's username, the product's name and price, total = price × quantity, "Submitted" |
| OrderController.StockBoundary | ABC_Retail_App/Controllers/OrderController.cs:68-73 | stock equal to the quantity is enough, one less is not |
| OrderController.OrderController.constructor | ABC_Retail_App/Controllers/OrderController.cs:17-21 | the controller works on the given API |
| OrderController.OrderController.Create | ABC_Retail_App/Controllers/OrderController.cs:48-106 | an invalid form, a missing customer or product, or low stock sends nothing; otherwise exactly the SubmittedOrder is sent and success follows the API's answer |
| OrderController.OrderController.Details | ABC_Retail_App/Controllers/OrderController.cs:109-126 | the order, or NotFound |
| OrderController.OrderController.Edit | ABC_Retail_App/Controllers/OrderController.cs:131-145 | an invalid form sends nothing; otherwise only the order's id and status are sent |
| OrderController.OrderController.Delete | ABC_Retail_App/Controllers/OrderController.cs:149-158 | exactly one delete request; the message follows the API's answer |
| Text.Fold | ABC_Retail_App/Controllers/ProductController.cs:29 | the case-folded string has the same length and folds each character |
| Text.OccursIff | ABC_Retail_App/Controllers/ProductController.cs:29-30 | the substring search succeeds exactly when the term sits at some position |
| Text.ContainsIgnoreCase | ABC_Retail_App/Controllers/ProductController.cs:29-30 | the term is found exactly when its folded form sits at some position of the folded text; every string contains itself in any letter case |
| Text.OrdinalLeTotal | ABC_Retail_App/Controllers/ProductController.cs:37 | any two names are comparable |
| Text.OrdinalLeTrans | ABC_Retail_App/Controllers/ProductController.cs:37 | the name order is transitive |
| Text.OrdinalLeAntisym | ABC_Retail_App/Controllers/ProductController.cs:37 | names that are ordered both ways are equal |
| ProductController.FilterProducts | ABC_Retail_App/Controllers/ProductController.cs:28-31 | keeps every copy of each matching product and nothing else, so the result is a sub-multiset of the input |
| ProductController.Insert | ABC_Retail_App/Controllers/ProductController.cs:37 | inserting into a name-sorted list keeps it sorted and adds exactly that product |
| ProductController.SortByName | ABC_Retail_App/Controllers/ProductController.cs:37 | the result is sorted by ProductName and a permutation of the input |
| ProductController.Index | ABC_Retail_App/Controllers/ProductController.cs:21-38 | sorted by name; with a blank term a permutation of all products, otherwise exactly the matching products with their multiplicities |
| ProductController.IndexMembership | ABC_Retail_App/Controllers/ProductController.cs:26-31 | a product is listed exactly when it was returned by the API and, for a non-blank term, matches it |
| ProductController.SearchFindsOwnName | ABC_Retail_App/Controllers/ProductController.cs:28-31 | searching for a product's own name finds it |
| ProductController.ProductController.constructor | ABC_Retail_App/Controllers/ProductController.cs:15-18 | the controller works on the given API |
| ProductController.ProductController.Create | ABC_Retail_App/Controllers/ProductController.cs:46-54 | the product is sent only when the form is valid |
| ProductController.ProductController.Find | ABC_Retail_App/Controllers/ProductController.cs:57-61 | the product for the Edit and Delete pages, or NotFound |
| ProductController.ProductController.Edit | ABC_Retail_App/Controllers/ProductController.cs:66-74 | the update is sent only when the form is valid |
| ProductController.ProductController.DeleteConfirmed | ABC_Retail_App/Controllers/ProductController.cs:86-90 | exactly one delete request, then back to the list whatever the answer |
| LoginController.FindUsernameUnique | ABC_Retail_App/Data/AuthDbContext.cs:32 | under the unique index the username lookup finds the one user with that name |
| LoginController.LoginOutcomeOf | ABC_Retail_App/Controllers/LoginController.cs:39-100 | an invalid form is refused first; a sign-in is always for a stored user with that username whose hash verifies the password, with that user's claims; the cookie is persistent for 720 hours with "remember me", else 2 hours; a redirect only ever goes to the given return URL, and only when it is local |
| LoginController.LoginSucceedsIff | ABC_Retail_App/Controllers/LoginController.cs:47-70 | sign-in succeeds exactly when a user with that name exists and the password verifies; otherwise the single InvalidCredentials answer; the claims carry that user's Id, Username and Role |
| LoginController.InvalidLoginFormIgnoresUsers | ABC_Retail_App/Controllers/LoginController.cs:41-42 | an invalid form is answered without looking at the Users table |
| LoginController.FindUsernameAppend | ABC_Retail_App/Controllers/LoginController.cs:123 | the username lookup after one more user is added finds that user |
| LoginController.RoleFor | ABC_Retail_App/Controllers/LoginController.cs:130-139 | "Customer" exactly without the admin flag, "Admin" exactly with the flag and the secret code, and rejection exactly with the flag and any other code, the empty one included |
| LoginController.RegisteredUserCanLogIn | ABC_Retail_App/Controllers/LoginController.cs:142-150 | with a sound hasher, a newly registered user signs in with the chosen password and gets the stored id, name and role |
| LoginController.ChangeValidation | ABC_Retail_App/Controllers/LoginController.cs:215-231 | the form passes exactly when both fields are present, the confirmation matches and the new password has at least 6 characters |
| LoginController.ValidationOrder | ABC_Retail_App/Controllers/LoginController.cs:215-231 | a missing field hides a mismatch, and a mismatch hides a short password |
| LoginController.ChangedPasswordLogsIn | ABC_Retail_App/Controllers/LoginController.cs:244-252 | after a change, the user signs in with the new password |
| LoginController.LoginController.constructor | ABC_Retail_App/Controllers/LoginController.cs:19-23 | the controller works on the given database and hasher |
| LoginController.LoginController.Register | ABC_Retail_App/Controllers/LoginController.cs:115-163 | an invalid form, a taken username or a wrong admin code changes nothing; otherwise exactly one user is added, holding the hash of the password and the role RoleFor gives |
| LoginController.LoginController.Profile | ABC_Retail_App/Controllers/LoginController.cs:188-199 | no id claim redirects to login; an unknown id is NotFound; otherwise the user with that id |
| LoginController.LoginController.ChangePassword | ABC_Retail_App/Controllers/LoginController.cs:213-263 | the form checks first, then the user, then the current password; the hash is replaced, by the hash of the new password, only when all pass |
| StatusUpdate.StatusPayloadAsWritten | ABC_Retail_App/Services/FunctionsApiClient.cs:120-125 | the body `{ Id, Status }` reaches the function with the default RowKey, so with an empty default it is rejected |
| StatusUpdate.EditAsWritten | ABCRetailers.Functions/Functions/OrdersFunctions.cs:81-86 | the client's status change of a stored order never gets 200 and never changes the table |
| StatusUpdate.StatusPayloadCorrected | ABCRetailers.Functions/Functions/OrdersFunctions.cs:81-89 | the stored order with only its status changed is accepted and addresses its own row |
| StatusUpdate.EditCorrected | ABCRetailers.Functions/Functions/OrdersFunctions.cs:74-94 | reading the order and sending it back with the new status sets exactly that status on a stored order; an unknown id is 404 with nothing changed |

## Left out

- Logging, HTTP plumbing and JSON text are not modelled. A body the deserialiser rejects is the `Malformed` case, and an exception that escapes a function is the host's 500.
- FunctionsApi.FunctionsApiClient.GetProductById: modelled as a catalogue lookup, as the interface declares it. FunctionsApiClient.cs:85 calls `products/{id}`, but ProductsFunction.cs defines no such route. Against the functions shown, every product lookup would therefore come back null.
- `DeleteOrderAsync` calls `DeleteOrder?id=`, and no function shown serves that route. OrderController.Delete is modelled against the abstract API only.
- The remote reads are a fixed snapshot. Writes made by another request or another user between two reads are not modelled, and neither is concurrency in general.
- Update requests do no ETag check (`ETag.All`), and the model replaces rows unconditionally to match.
- The JSON and UTF-8 codecs are abstract, under a lawfulness predicate. Base64 is concrete.
- AuthDb.FindUser: usernames are compared exactly, character for character, and so are the owner and product keys in CartLines.FindLine, CartLines.FindOwnedLine, CartLines.OwnerLines and CartLines.WithoutOwner. Those comparisons run in SQL Server (LoginController.cs:47-48 and :123, CartController.cs:74-75 and 244-246), whose default collation ignores letter case and trailing spaces. The model assumes a case-sensitive binary collation. Under the default, "Alice" and "alice " would be the same user, and the unique index would refuse the second registration.
- QueueProcessor.QueueProcessorFunctions.ProcessOrderQueue: the queue trigger is taken to hand the worker the queued text unchanged, as a host configured with message encoding "none" does. The host configuration is not part of this model. Under the trigger's default base64 message encoding, the host would decode the message once itself, and `Convert.FromBase64String` (QueueProcessorFunctions.cs:28) would then throw on the JSON text.
- The JSON boundary between the storefront and the functions is not modelled. `PostAsJsonAsync` and `PutAsJsonAsync` write camelCase property names, and the functions' `JsonSerializer.Deserialize` matches names case-sensitively, so as written no property of a storefront request body would bind. The model takes every body to arrive with its fields, the status update included (see Findings).
- StatusUpdate.StatusPayloadAsWritten: takes Status to bind and only the id to be lost. Under the camelCase naming above, Status is lost as well. The conclusion stands either way: RowKey keeps its default, so the update is rejected.
- Orders: the `OrderEntity`, `Order`, `Customer` and `Product` model classes are not part of this model. Their fields are taken from `Map.cs` and from the controllers' use of them.
- CartController.CartController.Confirmation: one timestamp `now` stands for every `DateTime.UtcNow` read during a checkout. Its answer follows the code as written (CheckoutAnswerAsWritten, see Findings); CheckoutAnswerCorrected is the answer the summary evidently intends.
- FunctionsApi.NewOrder: the storefront's `Order` class is not part of this model. Neither controller sets `OrderId`, and the model takes its default to be empty, as the function's `IsNullOrEmpty(dto.OrderId)` at Map.cs:94 expects. A null default gives the same Confirmation answer, since `Substring` then throws as well. A default of at least eight characters would instead let Confirmation show the success view (see Findings).
- CartViewModels.TotalItems: the quantity sum is an unbounded integer. As written, `Sum` over `int` (CartItemViewModel.cs:25) is checked and throws `OverflowException` once the sum passes 2,147,483,647, for example with two lines of 2,000,000,000 each for products that have that much stock. The cart page would then fail instead of showing the total.
- CartLines.CartCount: the quantity sum is an unbounded integer. The `int` overflow of `SumAsync` is not modelled.
- CartController.CartController.AddToCart: models the corrected merge (see Findings). Saves that the database refuses for a reason other than a column length are not modelled.
- The `catch` blocks of the controllers are modelled only where the model can raise the error: a refused save (`AddFailed`, `RegisterError`, `ChangeError`) and a missing id claim. Network failures are folded into the API's `accepts` answer or a null read.
- Entity Framework change tracking: an entity modified in memory but not saved is discarded at the end of the request, and the model changes nothing in that case.
- The two seed users of `AuthDbContext.OnModelCreating` are not modelled; the model's database starts empty.
- ProductController.SortByName: orders names by ordinal character comparison. `OrderBy` uses the current culture's comparer, and the stability of `OrderBy` among equal names is not stated.
- Text.ContainsIgnoreCase: folds ASCII letters only. Ordinal case-insensitive comparison in .NET folds every letter with a simple upper-case mapping.
- LoginController: the authentication cookie, sign-out, the return-URL check (`Url.IsLocalUrl`, a parameter) and logging are not modelled. BCrypt is a pair of functions, with soundness (a hash verifies against its own password and fits its column) as a hypothesis.
- The `ModelState.IsValid` checks and the data annotations of the view models are a `modelValid` parameter.
- Index pages that only pass a list through (`OrderController.Index`, the GET forms, `HomeController`, `CustomerController`) and the upload and blob functions are not part of this model.

The code is followed where it differs from the written description of the shop:

* A checkout whose products have all disappeared still clears the cart and reports 0 orders.
* A duplicate queue delivery fails on the existing key instead of adding a second row.
* UpdateQuantity skips the stock check when the line's product is no longer listed.

## Findings

| source | as written | input that shows it | evidently intended | confidence | as-written member | corrected member |
|---|---|---|---|---|---|---|
| ABC_Retail_App/Controllers/CartController.cs:80-86 | `existingCartItem.Quantity += quantity` is unchecked 32-bit arithmetic, and the stock check runs on the wrapped sum | stock int.MaxValue; AddToCart of 2,000,000,000 (accepted as a new line), then AddToCart of 2,000,000,000 again: the sum wraps to −294,967,296, passes `> StockAvailable` and is saved as the line's quantity | the merge is refused when the true sum exceeds the stock | high (not executed) | CartController.MergedQuantityAsWritten, CartController.MergedQuantityAsWrittenWraps | CartController.MergedQuantity |
| ABC_Retail_App/Services/FunctionsApiClient.cs:120-125 | the status update sends `{ Id, Status }`; UpdateOrderStatus deserialises it into an OrderEntity, whose key is `RowKey`, and rejects an empty RowKey (OrdersFunctions.cs:81) | OrderController.Edit of any stored order with any status: the body has no RowKey, so the answer is 400 and the order keeps its status. The body is also written with camelCase names, which the case-sensitive deserialiser does not bind, so not even Status arrives | the function receives the stored order with the new status, and replaces that row | high (not executed) | StatusUpdate.StatusPayloadAsWritten, StatusUpdate.EditAsWritten | StatusUpdate.StatusPayloadCorrected, StatusUpdate.EditCorrected |
| ABC_Retail_App/Controllers/CartController.cs:286 | the TempData summary takes `id.Substring(0, 8)` of every accepted order's `OrderId`, but neither the checkout loop nor the API client ever sets `OrderId`; `Substring` throws, and the catch at lines 290-295 answers "Failed to process checkout" after the orders were sent and the cart cleared at lines 282-283 | a checkout where the API accepts at least one order: the orders exist and the cart is empty, yet the user is told the checkout failed | the success view, counting the accepted orders and summarising their ids without failing | medium (not executed; depends on the `Order` class's `OrderId` default, which is not part of this model, and holds for an empty or null default) | CartController.SummaryAsWritten, CartController.CheckoutAnswerAsWritten, CartController.CheckoutFailsOnceAccepted | CartController.SummaryCorrected, CartController.CheckoutAnswerCorrected, CartController.SummaryCorrectedAgrees |
