# Point-of-sale cart and catalog, modelled in Dafny

This project models the core of a desktop point-of-sale application. Three parts are covered.

- **The cart.** This is the Redux slice `src/redux/slices/cartSlice.ts`. It holds the ordered lines of the sale in progress, the checkout and completion flags, and the receipt of the last sale. It also holds the price snapshot that a round-up keeps so that it can be reverted. The module `PosSystem` covers how `pos-system.tsx` picks the screen from those flags.
- **The catalog store.** This is `src/helpers/database/operations.ts` over the SQLite schema of `src/helpers/database/db.ts`. There are two tables, categories and products, with their UNIQUE and FOREIGN KEY ... ON DELETE SET NULL constraints. Around them sit the connection lifecycle, the first-run seed and the CRUD and query operations.
- **The rules in three screens.** From `cart.tsx`: the price-override dialog, the quantity buttons and the checkout button. From `checkout.tsx`: the order payload, cash sufficiency and change, the error alert and `isProcessing`. From `product-manager.tsx`: the search filter and the dialog state.

Modules, one per file:

| module | file | models |
|---|---|---|
| `Wrappers` | wrappers.dfy | `Option` and `Result`, with `:-` propagation |
| `Collections` | collections.dfy | order-preserving filter (`Array.filter`), string order and sorting (`ORDER BY ... ASC`) |
| `Text` | text.dfy | the string operations the source uses: `toLowerCase`, `includes`/LIKE containment, `replace` of the first or of every occurrence, `trim`, `join`, decimal printing |
| `Schema` | schema.dfy | rows, tables and AUTOINCREMENT counters; the constraints of `createTables`; what each INSERT, UPDATE and DELETE does |
| `Db` | db.dfy | the seed data and `seedInitialData`; the class `Database` with `initializeDatabase`, `getDatabase` and `closeDatabase` |
| `Operations` | operations.dfy | every function of `operations.ts` |
| `CartSlice` | cart_slice.dfy | the state, a specification function for each reducer, and the class `CartState` whose methods are the reducers |
| `PosSystem` | pos_system.dfy | the choice of screen |
| `CartView` | cart_view.dfy | `cart.tsx` |
| `CheckoutView` | checkout_view.dfy | `checkout.tsx` |
| `ProductManager` | product_manager.dfy | `product-manager.tsx` |

Code that changes state in place is modelled as a class whose methods update fields:
- the reducers, in `CartState`;
- the `db` handle, in `Database`;
- the component state of the three screens.

Each such method is specified against a function on values. The properties are lemmas about those functions.

The receipt serial is `Math.floor(100000 + Math.random() * 900000)`. It lies in the closed range 100000..999999.

`clearCart` leaves `originalPrices` in place, while `startNewSale` clears it. After a clear, the next `roundUpTotal` therefore takes no new snapshot. The following `revertRoundUp` restores the earlier prices to any product that was in the cart before the clear, overwriting a price override made since. The model keeps this behaviour; `CartSlice.StaleSnapshotAfterClear` states it.

The failure alerts in `checkout.tsx` follow the code. When the server answered with data that has no `message`, the alert is the generic text. The error's own `message` is used only when there is no response data.

## Model

| member | source | states |
|---|---|---|
| CartSlice.CartState.constructor | src/redux/slices/cartSlice.ts:22-28 | the slice starts with an empty cart, both flags false, no receipt and no snapshot |
| CartSlice.IndexOf | src/redux/slices/cartSlice.ts:36 | the `find` by id: the first line with that id, and it is found exactly when the cart holds that id |
| CartSlice.AddItemQuantity | src/redux/slices/cartSlice.ts:34-43 | adding a product raises its quantity by exactly one; an existing line keeps its (possibly overridden) price, a new line takes the product's price |
| CartSlice.AddItemKeepsOthers | src/redux/slices/cartSlice.ts:38-42 | adding a product leaves every other line as it was, in order; a product not yet in the cart is appended at the end |
| CartSlice.AddItemKeepsWellFormed | src/redux/slices/cartSlice.ts:39-41 | after an add, ids stay unique and every quantity stays at least 1 |
| CartSlice.AddItemTotal | src/redux/slices/cartSlice.ts:34-43 | adding a product raises the cart total by that line's unit price |
| CartSlice.CartState.AddToCart | src/redux/slices/cartSlice.ts:34-43 | the reducer changes only the cart, as the add function says, and keeps the cart well-formed |
| CartSlice.SetQuantityRemoves | src/redux/slices/cartSlice.ts:48-49 | a quantity of 0 or less removes the line with that id and nothing else; an unknown id changes nothing |
| CartSlice.SetQuantityReplaces | src/redux/slices/cartSlice.ts:50-55 | a positive quantity replaces that line's quantity only; other lines are unchanged; an unknown id changes nothing |
| CartSlice.SetQuantityKeepsWellFormed | src/redux/slices/cartSlice.ts:45-56 | `updateQuantity` keeps ids unique and quantities at least 1 |
| CartSlice.CartState.UpdateQuantity | src/redux/slices/cartSlice.ts:45-56 | the reducer changes only the cart and keeps it well-formed |
| CartSlice.SetPriceSpec | src/redux/slices/cartSlice.ts:58-64 | the line with that id gets the new unit price, its quantity and every other line stay; an unknown id changes nothing |
| CartSlice.SetPriceKeepsWellFormed | src/redux/slices/cartSlice.ts:58-64 | a price override keeps the cart well-formed |
| CartSlice.SetPriceTotal | src/redux/slices/cartSlice.ts:58-64 | with the total computed as at lines 208-213, the total changes by the difference of that one line's amount |
| CartSlice.CartState.UpdateItemPrice | src/redux/slices/cartSlice.ts:58-64 | the reducer changes only the cart |
| CartSlice.RemoveItem | src/redux/slices/cartSlice.ts:67 | the `filter`: no line with that id remains, every other line remains, in order |
| CartSlice.RemoveItemKeepsWellFormed | src/redux/slices/cartSlice.ts:66-68 | removing a line keeps the cart well-formed |
| CartSlice.RemoveItemTotal | src/redux/slices/cartSlice.ts:66-68 | with the total computed as at lines 208-213, removing a line lowers the total by exactly that line's amount |
| CartSlice.CartState.RemoveFromCart | src/redux/slices/cartSlice.ts:66-68 | the reducer changes only the cart |
| CartSlice.CartState.ClearCart | src/redux/slices/cartSlice.ts:70-72 | the cart empties; flags, receipt and snapshot are untouched |
| CartSlice.CartState.SetCheckingOut | src/redux/slices/cartSlice.ts:74-76 | only `isCheckingOut` changes |
| CartSlice.CartState.SetCompleted | src/redux/slices/cartSlice.ts:78-80 | only `isCompleted` changes |
| CartSlice.CartState.SetReceiptData | src/redux/slices/cartSlice.ts:82-84 | only the receipt changes |
| CartSlice.TotalAppend | src/redux/slices/cartSlice.ts:208-213 | the total of the cart, `selectCartTotal`, adds up over concatenation |
| CartSlice.TotalUpdate | src/redux/slices/cartSlice.ts:208-213 | replacing one line changes the total by the difference of the two line amounts |
| CartSlice.ReceiptSerial | src/redux/slices/cartSlice.ts:96 | for any `Math.random()` value in [0, 1) the serial lies in 100000..999999 |
| CartSlice.ReceiptNumberFormat | src/redux/slices/cartSlice.ts:96 | the receipt number is "R-" and exactly six digits, and those digits read back as the serial |
| CartSlice.AfterPaymentSpec | src/redux/slices/cartSlice.ts:86-110 | the receipt copies the cart and its total under an eight-character number; the sale is completed and checkout left; cart and snapshot are kept |
| CartSlice.CartState.CompletePayment | src/redux/slices/cartSlice.ts:86-110 | the reducer's new state is the state after payment, for the given random value and timestamp |
| CartSlice.CartState.StartNewSale | src/redux/slices/cartSlice.ts:112-118 | the whole state returns to the initial state |
| CartSlice.Ceil | src/redux/slices/cartSlice.ts:146 | `Math.ceil`: the least integer not below its argument |
| CartSlice.RoundUpPricesSpec | src/redux/slices/cartSlice.ts:137-160 | on a non-empty cart the new total is the ceiling of the old total, and only the last line's price changes, by (ceiling − total) / quantity |
| CartSlice.RoundUpKeepsWellFormed | src/redux/slices/cartSlice.ts:153-160 | the round-up keeps ids, quantities and order |
| CartSlice.RoundUpKeepsLines | src/redux/slices/cartSlice.ts:153-160 | every line keeps all its fields except its price |
| CartSlice.RoundUpIdempotent | src/redux/slices/cartSlice.ts:128-153 | a second round-up changes nothing: the snapshot is taken once and the total is already whole |
| CartSlice.SnapshotLookup | src/redux/slices/cartSlice.ts:129-133 | the snapshot maps every line's id to that line's price |
| CartSlice.SnapshotKeys | src/redux/slices/cartSlice.ts:129-133 | the snapshot holds exactly the ids in the cart |
| CartSlice.CartState.StoreOriginalPrices | src/redux/slices/cartSlice.ts:129-133 | the `forEach` loop leaves the snapshot of the whole cart and changes nothing else |
| CartSlice.CartState.RoundUpTotal | src/redux/slices/cartSlice.ts:120-161 | the reducer's new state is the rounded-up state and stays well-formed |
| CartSlice.RevertPrices | src/redux/slices/cartSlice.ts:174-179 | every line whose id is in the snapshot gets the snapshot's price back; lines missing from it are untouched; ids, quantities and positions are kept |
| CartSlice.StaleSnapshotAfterClear | src/redux/slices/cartSlice.ts:70-72 | `clearCart` keeps the round-up snapshot; a product re-added and repriced after the clear gets the old sale's price back on the next revert |
| CartSlice.RevertTwice | src/redux/slices/cartSlice.ts:163-184 | calling `revertRoundUp` a second time changes nothing, since the first call drops the snapshot or finds nothing to do |
| CartSlice.RoundUpThenRevert | src/redux/slices/cartSlice.ts:120-184 | a round-up followed by a revert gives back the state from before the round-up |
| CartSlice.AddedAfterRoundUpKeepsPrice | src/redux/slices/cartSlice.ts:163-184 | (with the add at line 41) a product added after a round-up keeps its own price through the revert, and the other lines get their prices back |
| CartSlice.CartState.RevertRoundUp | src/redux/slices/cartSlice.ts:163-184 | the reducer's new state is the reverted state and stays well-formed |
| PosSystem.PaymentShowsReceipt | src/components/pos/pos-system.tsx:94-113 | after a payment the receipt screen shows, with the total the cart had |
| PosSystem.NewSaleShowsCart | src/components/pos/pos-system.tsx:94-113 | the initial state shows the cart |
| PosSystem.CheckoutShowsCheckout | src/components/pos/pos-system.tsx:94-113 | entering checkout shows the checkout unless a completed receipt is on screen |
| PosSystem.CartEditsKeepScreen | src/components/pos/pos-system.tsx:94-113 | editing the cart, rounding up and reverting never change the screen |
| Schema.InUseMessageReportsCount | src/helpers/database/operations.ts:305 | the refusal to delete a category in use names the number of products using it |
| Schema.InsertCategory | src/helpers/database/db.ts:58-66 | the INSERT succeeds exactly when the name is not already taken, otherwise it fails with the UNIQUE error; the new row gets the next AUTOINCREMENT id; the constraints are kept |
| Schema.InsertProduct | src/helpers/database/db.ts:69-83 | the INSERT succeeds exactly when the SKU is free and the category reference is null or live; a duplicate SKU is reported before a foreign key failure; the constraints are kept |
| Schema.AssignProduct | src/helpers/database/operations.ts:140-147 | a `column = ?` assignment never changes the row's id or timestamps |
| Schema.UpdateProduct | src/helpers/database/db.ts:69-83 | UPDATE of an absent id changes nothing; otherwise it fails exactly on a duplicate SKU or a dead category, and succeeds by storing the updated row; the constraints are kept |
| Schema.UpdateCategory | src/helpers/database/db.ts:58-66 | UPDATE of an absent id changes nothing; otherwise it fails exactly on a duplicate name; the constraints are kept |
| Schema.ApplyKeepsProductId | src/helpers/database/operations.ts:140-147 | a product UPDATE keeps the row's id and creation time |
| Schema.ApplyKeepsCategoryId | src/helpers/database/operations.ts:276-285 | a category UPDATE keeps the row's id and creation time |
| Schema.DeleteProduct | src/helpers/database/operations.ts:157-164 | the DELETE removes exactly that row, reports one change when it existed and none otherwise, and keeps the constraints |
| Schema.DeleteCategory | src/helpers/database/db.ts:81 | deleting a category removes exactly that row and sets `category_id` to null in the products that referenced it, keeping every product |
| Schema.DeleteUnusedCategoryKeepsProducts | src/helpers/database/operations.ts:296-313 | deleting a category that no product uses leaves the products table as it was |
| Schema.ScanHasEveryRow | src/helpers/database/operations.ts:44-56 | a table scan in id order yields exactly the rows of the table |
| Db.SeedNamesDistinct | src/helpers/database/db.ts:106-112 | the five seed categories have distinct names |
| Db.SeedSkusDistinct | src/helpers/database/db.ts:126-137 | the ten seed products have distinct SKUs |
| Db.SeedProductsCategorised | src/helpers/database/db.ts:126-137 | every seed product names one of the seed categories |
| Db.SeedCategoriesFrom | src/helpers/database/db.ts:115-118 | the category loop keeps the constraints |
| Db.SeedProductsFrom | src/helpers/database/db.ts:139-148 | the product loop keeps the constraints and never touches categories |
| Db.SeedCategoriesOutcome | src/helpers/database/db.ts:115-118 | inserting categories with fresh, distinct names never fails; they get consecutive ids and the earlier rows are unchanged |
| Db.SeedCategoriesIds | src/helpers/database/db.ts:115-118 | `categoryIds` maps every seeded name to the row holding that name |
| Db.SeedProductsOutcome | src/helpers/database/db.ts:139-148 | the product loop fails exactly when a seed SKU is already used, and then with the UNIQUE error |
| Db.SeedProductAt | src/helpers/database/db.ts:139-148 | the j-th seed product is stored under the j-th new id |
| Db.SeedProductsCount | src/helpers/database/db.ts:139-148 | a complete product loop adds one row per seed product |
| Db.SeedWithOutcome | src/helpers/database/db.ts:88-151 | seeding an empty categories table fails exactly when a seed SKU is already taken |
| Db.SeedWithShape | src/helpers/database/db.ts:88-151 | a successful seed holds exactly the new categories and one more product per entry |
| Db.SeedWithRows | src/helpers/database/db.ts:121-148 | every seeded product holds its seed values and references the category of its seed name |
| Db.Seed | src/helpers/database/db.ts:88-151 | the whole seed keeps the constraints |
| Db.SeedContents | src/helpers/database/db.ts:88-151 | on an empty categories table the seed inserts 5 categories and 10 products, each product referencing its seeded category, unless a seed SKU is already taken |
| Db.SeedSkipsPopulated | src/helpers/database/db.ts:92-96 | a non-empty categories table is left as it is, without error |
| Db.Database.constructor | src/helpers/database/db.ts:5 | the module starts with no handle, over whatever the database file holds |
| Db.Database.GetDatabase | src/helpers/database/db.ts:40-45 | the tables are returned exactly while the connection is open, otherwise the "Database not initialized" error |
| Db.Database.InitializeDatabase | src/helpers/database/db.ts:7-38 | an open connection is returned unchanged; an open failure leaves it closed; otherwise the seed runs, and a seed failure leaves it closed |
| Db.Database.CloseDatabase | src/helpers/database/db.ts:47-52 | the connection ends up closed, whether it was open or not; the file is kept |
| Db.Database.SeedInitialData | src/helpers/database/db.ts:88-151 | the method leaves exactly the tables and the error of the seed function |
| Db.Database.InsertSeedCategories | src/helpers/database/db.ts:106-118 | the insert loop agrees with the recursive category seed, for both the tables and `categoryIds` |
| Db.Database.InsertSeedProducts | src/helpers/database/db.ts:121-148 | the insert loop agrees with the recursive product seed |
| Collections.SortBy | src/helpers/database/operations.ts:52 | `ORDER BY ... ASC`: the result is sorted and a permutation of the input |
| Operations.JoinCategory | src/helpers/database/operations.ts:44-56 | the LEFT JOIN: a product carries its category's name when its `category_id` points to a live category, otherwise null |
| Operations.JoinAllMembers | src/helpers/database/operations.ts:44-56 | the joined scan holds exactly the stored products with their category names |
| Operations.ProductQuery | src/helpers/database/operations.ts:44-56 | a product query is sorted by name, holds exactly the listed products its WHERE keeps, and lists each product once |
| Operations.AllProducts | src/helpers/database/operations.ts:44-56 | every product, each once, sorted by name |
| Operations.ProductById | src/helpers/database/operations.ts:58-70 | the product is found exactly when its id is stored, with its category name joined |
| Operations.SearchProducts | src/helpers/database/operations.ts:166-181 | exactly the products whose name, SKU or non-null description contains the query, each once, sorted by name |
| Operations.ProductsByCategory | src/helpers/database/operations.ts:183-197 | exactly the products referencing that category, each once, sorted by name |
| Operations.EmptySearchListsAll | src/helpers/database/operations.ts:166-181 | an empty search lists every product |
| Operations.SearchFindsByDescription | src/helpers/database/operations.ts:176 | a product whose description contains the query is found even if its name and SKU do not |
| Operations.AllCategories | src/helpers/database/operations.ts:221-229 | every category, each once, sorted by name |
| Operations.CategoryById | src/helpers/database/operations.ts:231-238 | the category is found exactly when its id is stored |
| Operations.GetAllProducts | src/helpers/database/operations.ts:44-56 | fails with the not-initialized error exactly while closed; otherwise exactly the result of `AllProducts`: every product once, sorted by name |
| Operations.GetProductById | src/helpers/database/operations.ts:58-70 | fails exactly while closed; otherwise exactly the result of `ProductById`: the stored row with its category name, or null |
| Operations.GetSearchProducts | src/helpers/database/operations.ts:166-181 | fails exactly while closed; otherwise exactly the result of `SearchProducts`: the matching products, each once, sorted by name |
| Operations.GetProductsByCategory | src/helpers/database/operations.ts:183-197 | fails exactly while closed; otherwise exactly the result of `ProductsByCategory`: that category's products, each once, sorted by name |
| Operations.GetAllCategories | src/helpers/database/operations.ts:221-229 | fails exactly while closed; otherwise exactly the result of `AllCategories`: every category once, sorted by name |
| Operations.GetCategoryById | src/helpers/database/operations.ts:231-238 | fails exactly while closed; otherwise exactly the result of `CategoryById`: the stored row, or null |
| Operations.OrNull | src/helpers/database/operations.ts:72-94 | an optional text defaults to null: an absent or empty text becomes null, any other is kept |
| Operations.CreateValues | src/helpers/database/operations.ts:72-94 | the INSERT binds name, price, SKU and category as given, image and description with an absent or empty text as null, and stock 0 when absent or 0 |
| Operations.CreateProduct | src/helpers/database/operations.ts:72-94 | fails while closed; otherwise the INSERT's error, or the stored row read back with its category name |
| Operations.ProductAssignments | src/helpers/database/operations.ts:100-131 | the `updates` list is empty exactly when no field was supplied |
| Operations.PatchAssignmentsApply | src/helpers/database/operations.ts:100-131 | applying the `updates` changes exactly the supplied fields to their new values |
| Operations.UpdateStoresPatchedRow | src/helpers/database/operations.ts:140-147 | a successful update stores the patched row with `updated_at` refreshed |
| Operations.BuildProductUpdates | src/helpers/database/operations.ts:100-131 | the `push` sequence builds exactly the assignment list of the patch |
| Operations.UpdateProduct | src/helpers/database/operations.ts:96-155 | fails while closed; a missing id gives "Product not found"; an empty patch returns the current row unchanged; otherwise the UPDATE's error, or the patched row read back |
| Operations.DeleteProduct | src/helpers/database/operations.ts:157-164 | fails while closed; otherwise removes exactly that row, and fails with "Product not found" when none matched |
| Operations.CreateCategory | src/helpers/database/operations.ts:240-254 | fails while closed; otherwise the INSERT's error, or the stored row, with an absent or empty description stored as null |
| Operations.CategoryAssignments | src/helpers/database/operations.ts:259-269 | the `updates` list is empty exactly when neither name nor description was supplied |
| Operations.CategoryAssignmentsApply | src/helpers/database/operations.ts:259-269 | applying the `updates` changes exactly the supplied fields |
| Operations.UpdateCategory | src/helpers/database/operations.ts:256-294 | fails while closed; a missing id gives "Category not found"; an empty patch returns the current row; otherwise the UPDATE's error, or the updated row |
| Operations.DeleteCategory | src/helpers/database/operations.ts:296-313 | fails while closed; a category in use is refused with the count and nothing is deleted; otherwise the row is removed, and "Category not found" when none matched |
| Text.LowerStr | src/components/pos/product-manager.tsx:21-22 | `toLowerCase`: same length, each character lower-cased |
| Text.ReplaceFirstSpec | src/components/pos/cart.tsx:44-46 | `replace` with a string pattern changes only the first occurrence, and nothing when there is none |
| Text.RemoveAll | src/components/pos/cart.tsx:45 | `replace(/\./g, '')`: no occurrence remains; every other character keeps its number of occurrences and its order |
| Text.TrimSpec | src/components/pos/cart.tsx:47 | `trim` drops exactly the leading and trailing whitespace |
| Text.JoinContainsEachPart | src/components/pos/checkout.tsx:59 | `join` keeps every part in the joined text |
| CartView.CleanPriceAtMostOneDot | src/components/pos/cart.tsx:43-47 | the cleaned price holds at most one ".", the one the decimal comma became |
| CartView.CleanPriceThousands | src/components/pos/cart.tsx:41-47 | "$" + units + "." + thousands + "," + decimals is cleaned to units + thousands + "." + decimals, as in "$12.000,50" → "12000.50" |
| CartView.PriceUpdate | src/components/pos/cart.tsx:39-56 | a price is sent exactly when an item is being edited, the text is non-empty and the cleaned text reads as a positive number; it is sent for that item, and it is the number the cleaned text reads as |
| CartView.SavedPriceIsPositive | src/components/pos/cart.tsx:49-51 | a saved override leaves the edited line at a positive price with its quantity, and every other line unchanged |
| CartView.FixedTextCleansToDigits | src/components/pos/cart.tsx:33-47 | `toFixed(2)` text, once cleaned, loses its decimal point: only its digits remain |
| CartView.PrefillSavesHundredfoldPrice | src/components/pos/cart.tsx:33-56 | with the prefill as written, saving the dialog unedited on any line priced one dollar or more sends a hundred times its price |
| CartView.PrefillSavesHundredfold | src/components/pos/cart.tsx:33-56 | saving the dialog as it opens on a 12.50 line, with the prefill as written, sends the price 1250 |
| CartView.CommaTextCleansToFixed | src/components/pos/cart.tsx:43-47 | a price written with a decimal comma is cleaned to its `toFixed(2)` form |
| CartView.PrefilledSaveKeepsPrice | src/components/pos/cart.tsx:33-56 | with the comma prefill, saving the dialog unedited sends the line's own price |
| CartView.PriceEditor.constructor | src/components/pos/cart.tsx:30-31 | no item is being edited and the price text is empty |
| CartView.PriceEditor.PriceClick | src/components/pos/cart.tsx:33-37 | the dialog opens on the item with the field holding that line's own price as `toFixed(2)` text, the text the hundredfold save above starts from |
| CartView.PriceEditor.PriceTyped | src/components/pos/cart.tsx:91-94 | typing replaces the text and keeps the edited item |
| CartView.PriceEditor.PriceSave | src/components/pos/cart.tsx:39-56 | the save sends exactly the price update above; a sent update closes the dialog and empties the text, otherwise nothing changes |
| CartView.PriceEditor.PriceCancel | src/components/pos/cart.tsx:58-61 | cancelling closes the dialog and empties the text, sending nothing |
| CartView.DecreaseSpec | src/components/pos/cart.tsx:146 | minus on quantity 1 removes the line; on a larger quantity it lowers it by one; other lines are unchanged |
| CartView.IncreaseSpec | src/components/pos/cart.tsx:156 | plus raises the line's quantity by one and leaves the other lines |
| CartView.CheckoutEnabledAfterAdd | src/components/pos/cart.tsx:223 | the Checkout button is enabled after any add and disabled on an empty cart |
| CheckoutView.OrderItems | src/components/pos/checkout.tsx:33-37 | the payload has one `{product_id, quantity, price}` entry per cart line, in order |
| CheckoutView.OrderAmountIsTotal | src/components/pos/checkout.tsx:81-85 | with the total from lines 33-37, the order asks for exactly the cart total |
| CheckoutView.OrderListsCartProducts | src/components/pos/checkout.tsx:81-85 | the order names a product exactly when the cart holds it |
| CheckoutView.CalculateChange | src/components/pos/checkout.tsx:123-127 | the change is never negative; it is cash − total when the cash covers the total and 0 otherwise |
| CheckoutView.CashDetails | src/components/pos/checkout.tsx:74-100 | a cash payment is submitted exactly when the cash reads as a number not below the total, and it reports "cash", that amount and the change |
| CheckoutView.EnabledCashButtonSubmits | src/components/pos/checkout.tsx:290-292 | an enabled cash button always submits, with non-negative change |
| CheckoutView.CardErrorShowsEveryNestedMessage | src/components/pos/checkout.tsx:57-60 | a nested MercadoPago error list wins, and the alert shows every one of its messages after the prefix |
| CheckoutView.ErrorMessageOrder | src/components/pos/checkout.tsx:53-70 | (the cash path, lines 105-119, does the same) without a nested list, card and cash choose the same alert: the response's message, else the generic text; the error's own message only without response data |
| CheckoutView.CheckoutPanel.constructor | src/components/pos/checkout.tsx:25-27 | card selected, empty cash text, not processing |
| CheckoutView.CheckoutPanel.StartCardPayment | src/components/pos/checkout.tsx:29-41 | processing starts and the order built from the cart is sent |
| CheckoutView.CheckoutPanel.StartCashPayment | src/components/pos/checkout.tsx:74-91 | nothing happens unless the cash covers the total; otherwise processing starts, the order is sent and the cash details are kept |
| CheckoutView.CheckoutPanel.SettleCardPayment | src/components/pos/checkout.tsx:43-71 | processing stops; success reports a card payment, failure shows the card alert |
| CheckoutView.CheckoutPanel.SettleCashPayment | src/components/pos/checkout.tsx:93-120 | processing stops; success reports the kept cash details, failure shows the cash alert |
| ProductManager.FilteredProducts | src/components/pos/product-manager.tsx:20-23 | the filter keeps the loaded order and holds exactly the products whose lower-cased name or SKU contains the lower-cased query |
| ProductManager.EmptyQueryKeepsAll | src/components/pos/product-manager.tsx:20-23 | an empty search box shows every product |
| ProductManager.FilterAgreesWithStoreSearch | src/components/pos/product-manager.tsx:20-23 | for ASCII text and a query without `%` or `_`: the screen's filter matches only what the store search matches, and the two agree on products without a description |
| ProductManager.DescriptionOnlyMatchIsHidden | src/components/pos/product-manager.tsx:21-22 | a product the store search finds only through its description is hidden by the screen's filter |
| ProductManager.ProductDialog.constructor | src/components/pos/product-manager.tsx:17-18 | the dialog starts closed with no product |
| ProductManager.ProductDialog.OpenCreateDialog | src/components/pos/product-manager.tsx:45-48 | the dialog opens with no product to edit |
| ProductManager.ProductDialog.OpenEditDialog | src/components/pos/product-manager.tsx:50-53 | the dialog opens on the product |
| ProductManager.ProductDialog.CloseDialog | src/components/pos/product-manager.tsx:55-58 | the dialog closes and forgets the product |
| ProductManager.ProductDialog.HandleUpdate | src/components/pos/product-manager.tsx:29-33 | an update of the edited product's id is requested exactly when a product is being edited |

## Left out

- Floating point: money is `real`, so IEEE rounding drift in totals and in the round-up is not modelled.
- `parseFloat` and `Number.parseFloat` are an abstract partial function, a parameter `parse`. `None` stands for NaN.
- The `typeof price === 'string'` coercions are left out: a cart price is always a number.
- CartSlice.Total: it adds from the first line, while `reduce` adds from the left; the two are equal over the reals.
- CartSlice.SetQuantity: quantities, and product stock, are whole numbers (`int`), although `updateQuantity` accepts any number. Every caller sends `item.quantity ± 1` (cart.tsx:146 and 156), and the product form reads stock with `parseInt`. A fractional payload such as 0.5, which the reducer would store, is not modelled.
- CartSlice.CartItem: a line holds only id, name, price, SKU and quantity. The other product fields that the spread copies are not carried.
- `Math.random()` and `new Date().toISOString()` are parameters: the random value in [0, 1) and the timestamp text. `CURRENT_TIMESTAMP` is a parameter `now`.
- `toLowerCase` is modelled for ASCII letters only. Unicode case mapping is not modelled.
- LIKE is substring containment after lower-casing ASCII letters only, as SQLite's built-in LIKE does. The wildcards `%` and `_` inside a query are not modelled.
- ProductManager.FilterAgreesWithStoreSearch: holds for ASCII text and queries without `%` or `_` only. The screen's `toLowerCase` maps all of Unicode while LIKE folds ASCII only, so "CAFÉ" with the query "é" is shown by the screen but not found by the store. A `_` in the query is a LIKE wildcard, so the store finds any name for "_" while the screen looks for a literal "_". The model lower-cases both sides the same way and has no wildcards, so it cannot show either difference.
- SQL ties: rows with equal names come out of the sort in table-scan order. SQLite's own order for ties is not modelled.
- Seeding runs without a transaction. The model keeps the rows inserted before a failure, as the code does. Failures inside `createTables` are folded into the open error.
- Db.Database.InitializeDatabase: the file path, the electron `app` call and the better-sqlite3 handle are not modelled. The open error is an input.
- The HTTP requests of `checkout.tsx` and the token interceptor are not modelled. Each request's outcome is an input to the settle methods.
- Console logging is not modelled.
- An absent or empty error `message` is written as the empty text.
- The IPC wrappers (`database-listeners.ts`, `database-context.ts`, `database-channels.ts`, `context-exposer.ts`) only wrap results into `{success, data, error}`; the model's `Result` and `Message` stand for that wrapping.
- The SWR hooks, the mutation hooks and the redux-persist store setup are data-fetching and caching glue, and are not modelled.
- product-manager.tsx `handleCreate` and `handleDelete` only forward to the mutation hooks and close the dialog. The store operations they call are modelled in `Operations`.
- `product-form-dialog.tsx` field defaults are not modelled. They repeat the defaults of `createProduct`.
- Rendering is not modelled: JSX, `NumericFormat` display formatting, `Intl.DateTimeFormat` and `window.print` in the receipt, `category-manager.tsx`, `GlobalButtons.tsx`, routes and theme.
- `toFixed(2)` is modelled only for non-negative prices of whole cents. That is all the price-dialog finding needs.
- CartView.PriceEditor.PriceClick: the line's price in whole cents is a parameter `cents`, tied to the price by the requires. Prices with fractions of a cent are not covered.
- CartView.PrefillSavesHundredfoldPrice: covers prices of one dollar or more. Below a dollar the cleaned text starts with "0" (as in "050"), and the `parse` assumption speaks only of digit strings without leading zeros.
- NOT NULL failures cannot be expressed: name, price and SKU are plain values in the model, so a value bound as NULL (such as a NaN price) is not modelled.

## Findings

| source | as written | input that shows it | evidently intended | confidence | as-written member | corrected member |
|---|---|---|---|---|---|---|
| src/components/pos/cart.tsx:33-37 | `handlePriceClick` prefills the field with `toFixed(2)` text such as "12.50". `handlePriceSave` cleans it by dropping every "." as a thousands separator (line 45). | A line priced 12.50: open the price dialog and press Save without typing. The override sent is 1250. | The prefill is in the dialog's own format, "12,50", so saving unedited keeps 12.50. | high; not executed | CartView.PrefillSavesHundredfoldPrice | CartView.PrefilledSaveKeepsPrice |
