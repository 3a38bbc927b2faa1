# Monster Men 90 storefront — a Dafny model of its core

Monster Men 90 is a clothing storefront with an admin back office. Shoppers
browse products and filter them by category, search term, price and size. They
keep a cart, which the browser's local storage mirrors. At checkout they send a
name and a phone number: the server stores an order under a generated
`MM90-XXXXXX` id, and a WhatsApp message lists the order. Later the shopper
tracks the order with its id and phone number, through five status steps.
Admins add products through a validated form, adjust variant stock, move
orders between statuses and read a dashboard: revenue, recent orders and
counts. The leads page groups the orders by phone number and ranks the
customers by spending, but what it renders is a notice that leads are
disabled, not that ranking.

The model follows the source file by file, one Dafny module per file:

| module | file | form |
|---|---|---|
| `Types` | src/lib/types.ts | datatypes |
| `CartContext` | src/context/CartContext.tsx | pure cart updates plus the class `CartStore` holding the cart and its storage mirror |
| `CartSheet` | src/components/cart/CartSheet.tsx | the line buttons as calls into the store; class `CartSheetState` |
| `CheckoutDialog` | src/components/cart/CheckoutDialog.tsx | the order message; class `CheckoutDialog` |
| `Actions` | src/app/actions.ts | the `orders_leads` collection as class `OrderDb` with `createOrder` and `trackOrder` |
| `TrackOrder` | src/app/track-order/page.tsx | the progress steps; class `TrackOrderPage` |
| `ProductsPage` | src/app/products/page.tsx | the filters; class `FilterState` |
| `ProductCard` | src/components/products/ProductCard.tsx | stock and link of a card |
| `ProductForm` | src/components/admin/ProductForm.tsx | slug, schema, documents written; class `ProductFormState` |
| `Inventory` | src/app/admin/inventory/page.tsx | the flattening loop as a method; the loading code and the table body; class `InventoryPage` |
| `AdminOrders` | src/app/admin/orders/page.tsx | totals, status classes, the status write |
| `AdminDashboard` | src/app/admin/page.tsx | revenue, recent orders, counters |
| `AdminProducts` | src/app/admin/products/page.tsx | search and the stock badge |
| `Leads` | src/app/admin/leads/page.tsx | the grouping loop as a method, the grouping function and the sort; the table body it renders |
| `PlaceholderImages` | src/lib/placeholder-images.ts | the id map and the fallback |
| `Text`, `Common` | — | the JavaScript string built-ins (`toLowerCase`, `trim`, `split`, `join`, `parseInt`, `String(n)`) and `filter`, over `seq<char>` and `seq<T>` |

Some things outside the code are passed in as parameters:
- A Firestore collection is a map from document id to record.
- A failing database call is a `Fault`: a thrown `Error` with a message, or a non-`Error` value.
- `Math.random().toString(36)` is a string parameter.
- `serverTimestamp()` is an integer parameter.
- `toFixed(2)` is a function parameter `fixed2`.

Prices are `real` and quantities are `int`.

## Model

| member | source | states |
|---|---|---|
| CartContext.ChangeLines | src/context/CartContext.tsx:44-48 | the map keeps the cart's length |
| CartContext.ChangeLinesAt | src/context/CartContext.tsx:44-48 | the lines with the key are rewritten in place and every other line is kept |
| CartContext.ChangeLinesKeys | src/context/CartContext.tsx:73-75 | the map keeps each key in its place, so a key is present afterwards iff it was before |
| CartContext.ChangeLinesUnique | src/context/CartContext.tsx:73-75 | the map keeps the (productId, size) keys unique |
| CartContext.Changed | src/context/CartContext.tsx:46 | the spread `{...i, quantity}` keeps the line's key and price |
| CartContext.UniqueKeysSoleLine | src/context/CartContext.tsx:40-42 | in a cart with unique keys, the line `find` returns is the only line with that key |
| CartContext.AddItem | src/context/CartContext.tsx:38-56 | after an add, the cart has a line with the item's key |
| CartContext.AddToExistingLine | src/context/CartContext.tsx:40-48 | with the key present, only that line changes, and its quantity grows by the item's quantity |
| CartContext.AddToExistingLineSums | src/context/CartContext.tsx:44-48 | the count grows by the item's quantity; the total grows by the line's own price (not the item's) times that quantity |
| CartContext.AddNewLine | src/context/CartContext.tsx:50 | with the key absent, the cart becomes the old lines followed by the item, and the count and total grow by its share |
| CartContext.AddPreservesUnique | src/context/CartContext.tsx:38-56 | adding keeps the keys unique |
| CartContext.AppendNewUnique | src/context/CartContext.tsx:50 | appending an absent key keeps the keys unique |
| CartContext.AddRaisesQuantity | src/context/CartContext.tsx:38-56 | with unique keys, adding raises the quantity under the item's key by exactly the item's quantity |
| CartContext.RepeatedAdds | src/context/CartContext.tsx:38-56 | any number of adds of one key leave keys unique, one line for the key, and the sum of the added quantities on top of what was there |
| CartContext.RemoveLineMembers | src/context/CartContext.tsx:58-66 | remove keeps exactly the lines with another key, and afterwards the key is absent |
| CartContext.RemoveLine | src/context/CartContext.tsx:58-61 | remove never lengthens the cart |
| CartContext.RemoveAbsentLine | src/context/CartContext.tsx:60 | removing an absent key leaves the cart unchanged |
| CartContext.RemoveLineAppend | src/context/CartContext.tsx:60 | the filter distributes over concatenation, so order is kept |
| CartContext.RemoveUniqueLine | src/context/CartContext.tsx:60 | when line k is the only line with the key, remove gives the cart without line k, other lines in order |
| CartContext.RemoveUniqueLineSums | src/context/CartContext.tsx:58-66 | remove lowers the total and the count by that line's share |
| CartContext.RemovePreservesUnique | src/context/CartContext.tsx:58-66 | removing keeps the keys unique |
| CartContext.RemoveThenAdd | src/context/CartContext.tsx:38-66 | removing a key then adding it again gives one line at the end holding only the new quantity |
| CartContext.RemoveChangedLines | src/context/CartContext.tsx:44-48 | the add/update map touches only lines that remove of the same key drops |
| CartContext.KeepAbsentLine | src/context/CartContext.tsx:60 | with the key absent, the filter drops nothing |
| CartContext.KeepUniqueLine | src/context/CartContext.tsx:60 | with one line for the key, the filter drops exactly that line |
| CartContext.ChangeUniqueLine | src/context/CartContext.tsx:44-48 | with one line for the key, the map rewrites that line and nothing else |
| CartContext.ChangeUniqueSums | src/context/CartContext.tsx:83-88 | rewriting that line moves the count and the total by that line's change alone |
| CartContext.UpdateLine | src/context/CartContext.tsx:68-77 | update never lengthens the cart |
| CartContext.UpdateUniqueLine | src/context/CartContext.tsx:73-75 | a positive quantity replaces, rather than adds to, the quantity of the key's line |
| CartContext.UpdateUniqueLineSums | src/context/CartContext.tsx:73-75 | the count moves by the difference of the quantities and the total by the price times that difference |

| CartContext.UpdateAbsentLine | src/context/CartContext.tsx:73-75 | updating an absent key changes nothing; update never inserts a line |
| CartContext.UpdatePreservesUnique | src/context/CartContext.tsx:68-77 | update keeps keys unique; a positive quantity keeps the key's presence; a quantity of at most 0 removes the key |
| CartContext.SumsAppend | src/context/CartContext.tsx:83-88 | total and count add up over any split of the cart |
| CartContext.QuantityOfAppend | src/context/CartContext.tsx:38-56 | the quantity under one key adds up over any split |
| CartContext.QuantityOfUnique | src/context/CartContext.tsx:40-42 | with unique keys, the quantity under a key is that of its one line, or 0 |
| CartContext.SumsSplitByKey | src/context/CartContext.tsx:58-66 | total and count split into the key's lines plus the lines remove keeps |
| CartContext.LineTotalGrows | src/context/CartContext.tsx:85 | a line's total is linear in its quantity |
| CartContext.LineTotal | src/context/CartContext.tsx:85 | a line of quantity 0 adds nothing; with a non-negative price and quantity it adds a non-negative amount |
| CartContext.CartTotalNonNegative | src/context/CartContext.tsx:83-86 | with no negative price or quantity the cart total is not negative |
| CartContext.ItemCountAtLeastLines | src/context/CartContext.tsx:88 | with every quantity positive, the item count is at least the number of lines |
| CartContext.Mirror | src/context/CartContext.tsx:30-36 | the stored entry is present iff the cart is non-empty, and then it is the cart |
| CartContext.Hydrate | src/context/CartContext.tsx:23-28 | a present entry becomes the cart; otherwise the cart stays empty |
| CartContext.HydrateMirror | src/context/CartContext.tsx:23-36 | reloading what the mirror stored reproduces the cart, the empty cart included |
| CartContext.CartStore.constructor | src/context/CartContext.tsx:20-36 | mounting gives the hydrated cart, with storage mirroring it |
| CartContext.CartStore.AddToCart | src/context/CartContext.tsx:38-56 | the new cart is AddItem of the old one; storage still mirrors it; unique keys are kept |
| CartContext.CartStore.RemoveFromCart | src/context/CartContext.tsx:58-66 | the new cart is RemoveLine of the old one; storage mirrors it; unique keys are kept |
| CartContext.CartStore.UpdateQuantity | src/context/CartContext.tsx:68-77 | the new cart is UpdateLine of the old one; storage mirrors it; unique keys are kept |
| CartContext.CartStore.ClearCart | src/context/CartContext.tsx:79-81 | the cart is empty, the storage entry is removed, and total and count are 0 |
| CartContext.UseCart | src/context/CartContext.tsx:107-113 | inside a provider it returns the context; outside, it throws the provider message |
| CartSheet.TrashRemovesLine | src/components/cart/CartSheet.tsx:82 | trash on line k drops exactly that line and lowers the count by its quantity |
| CartSheet.MinusCall | src/components/cart/CartSheet.tsx:64 | the minus button calls `updateQuantity` with the line's own key and its quantity minus one |
| CartSheet.PlusCall | src/components/cart/CartSheet.tsx:73 | the plus button calls `updateQuantity` with the line's own key and its quantity plus one |
| CartSheet.TrashCall | src/components/cart/CartSheet.tsx:82 | the trash button calls `removeFromCart` with the line's own key |
| CartSheet.Apply | src/components/cart/CartSheet.tsx:64-82 | a button never lengthens the cart and keeps the keys unique |
| CartSheet.MinusAtOneRemovesLine | src/components/cart/CartSheet.tsx:64 | minus on a line of quantity at most 1 removes the line, exactly like trash |
| CartSheet.MinusDecrements | src/components/cart/CartSheet.tsx:64 | minus on a line above 1 lowers only that line, by one |
| CartSheet.PlusIncrements | src/components/cart/CartSheet.tsx:73 | plus raises only that line, by one, and the count by one |
| CartSheet.View | src/components/cart/CartSheet.tsx:38-110 | the title shows the item count; the empty message shows iff the cart is empty; otherwise the lines and the cart total show |
| CartSheet.CartSheetState.constructor | src/components/cart/CartSheet.tsx:22-25 | both panels start closed over the shared store |
| CartSheet.CartSheetState.HandleCheckout | src/components/cart/CartSheet.tsx:27-30 | the sheet closes and the checkout dialog opens |
| CartSheet.CartSheetState.Press | src/components/cart/CartSheet.tsx:64-82 | the store carries out the pressed call; unique keys are kept |
| CheckoutDialog.ItemLines | src/components/cart/CheckoutDialog.tsx:68-73 | one message line per cart line, in cart order |
| CheckoutDialog.ItemLine | src/components/cart/CheckoutDialog.tsx:71 | an item line starts with "- ", and holds no line break when the name and the formatted price hold none |
| CheckoutDialog.ItemLinesNoNewline | src/components/cart/CheckoutDialog.tsx:71 | no item line holds a line break when no name or formatted price does |
| CheckoutDialog.OrderText | src/components/cart/CheckoutDialog.tsx:68-73 | the message ends with the total line |
| CheckoutDialog.OrderTextLines | src/components/cart/CheckoutDialog.tsx:68-73 | split at newlines, the message is the header, name and phone lines, the items heading, one line per item in order, a blank line and the total line |
| CheckoutDialog.CheckoutDialog.constructor | src/components/cart/CheckoutDialog.tsx:37-42 | empty name and phone, not loading, no success data |
| CheckoutDialog.CheckoutDialog.InputDialogOpen | src/components/cart/CheckoutDialog.tsx:109 | the input dialog and the success alert are never open together |
| CheckoutDialog.CheckoutDialog.HandleCheckout | src/components/cart/CheckoutDialog.tsx:45-94 | empty cart, then missing details, then a failed write each stop with their toast and change nothing; otherwise the order (details, cart, Pending) is stored under its id and the success data holds the id and the message; the cart is untouched and loading ends |
| CheckoutDialog.CheckoutDialog.CloseSuccessDialogAndRedirect | src/components/cart/CheckoutDialog.tsx:96-105 | with success data: the message opens, the cart clears, the fields reset and the dialog closes; without it nothing changes |
| CheckoutDialog.CheckoutDialog.OnOpenChange | src/components/cart/CheckoutDialog.tsx:139 | only the open flag changes |
| CheckoutDialog.CheckoutFlow | src/components/cart/CheckoutDialog.tsx:45-105 | a confirmed checkout stores exactly one order, holding the cart, name and phone with status Pending, and leaves the cart empty and both dialogs closed |
| Actions.OrderIdFor | src/app/actions.ts:35 | the id starts with `MM90-` |
| Actions.OrderIdShape | src/app/actions.ts:35 | the suffix has at most 6 characters, all in [0-9A-Z]; it is the random digits upper-cased; it has exactly 6 iff the random text has at least 8 characters |
| Actions.NewOrder | src/app/actions.ts:38-42 | the record holds the input's fields, the id and the timestamp |
| Actions.MatchingKeyed | src/app/actions.ts:63 | in a collection keyed by order id, the query matches at most the record under that id, and only when its phone is equal |
| Actions.Matching | src/app/actions.ts:63 | the query's matches are stored records with that id and that phone, and every stored record with both is a match |
| Actions.OrderDb.constructor | src/app/actions.ts:30-57 | the collection starts empty |
| Actions.OrderDb.CreateOrder | src/app/actions.ts:30-57 | without a fault the record is written under its id, replacing any record there, and the id is returned; a fault returns its message and changes nothing; success iff an id is returned |
| Actions.OrderDb.TrackOrder | src/app/actions.ts:59-84 | success iff some record has both that id and that phone, and then a matching record is returned; otherwise the not-found message; a fault gives its message |
| Actions.CreateThenTrack | src/app/actions.ts:30-84 | a created order is found again by its id and phone, and the record found is the input with that id |
| Actions.TrackWrongPhone | src/app/actions.ts:63-77 | the right id with another phone finds nothing |
| TrackOrder.IndexOf | src/app/track-order/page.tsx:40 | the first position holding the value, or -1 exactly when it is absent |
| TrackOrder.StatusesDistinct | src/app/track-order/page.tsx:14 | the steps are five distinct statuses |
| TrackOrder.StatusesOrdered | src/app/track-order/page.tsx:14 | every status is a step, found at its own position |
| TrackOrder.CurrentStatusIndex | src/app/track-order/page.tsx:40 | -1 with no order; otherwise the position of the order's status |
| TrackOrder.Steps | src/app/track-order/page.tsx:94-99 | five steps in order; a step is highlighted iff it is at or before the current one, and current iff it is the current one |
| TrackOrder.StepsOfOrder | src/app/track-order/page.tsx:94-99 | with an order shown, exactly the step of its status is current, and that step and the earlier ones are highlighted; with none, nothing is |
| TrackOrder.ShownError | src/app/track-order/page.tsx:34 | the shown error is never empty; it is the returned message when one is present and non-empty |
| TrackOrder.FallbackOnlyForEmptyError | src/app/track-order/page.tsx:34 | the fallback text shows only for an `Error` with an empty message (or that very text) |
| TrackOrder.TrackOrderPage.constructor | src/app/track-order/page.tsx:17-21 | empty inputs, no order, no error, not loading |
| TrackOrder.TrackOrderPage.HandleTrackOrder | src/app/track-order/page.tsx:23-38 | afterwards exactly one of order and error is set, from this query alone: the stored order iff the id and phone match, otherwise the shown error |
| ProductsPage.ToggleSize | src/app/products/page.tsx:66-70 | toggling flips the membership of that size and keeps every other size's membership |
| ProductsPage.ToggleKeepsNoDuplicates | src/app/products/page.tsx:66-70 | a selection without duplicates stays without duplicates |
| ProductsPage.FilteredNoDuplicates | src/app/products/page.tsx:68 | removing a size by `filter` keeps the selection free of duplicates |
| ProductsPage.ToggleTwice | src/app/products/page.tsx:66-70 | toggling twice restores the selected set, and the very sequence when the size was not selected |
| ProductsPage.SizeFilterIds | src/app/products/page.tsx:85-113 | no size filtering iff no size is selected; otherwise a product's id is kept when it has a selected size in stock |
| ProductsPage.SizeFilterExact | src/app/products/page.tsx:97-108 | with unique product ids, a product passes iff one of its variants has a selected size in stock |
| ProductsPage.HasSizeInStock | src/app/products/page.tsx:98-106 | with no size selected, no variant matches |
| ProductsPage.CategoryMatches | src/app/products/page.tsx:119 | "all" matches every product, and a product matches its own category name |
| ProductsPage.SearchMatches | src/app/products/page.tsx:120 | an empty term matches every product, and a product is found by its own name |
| ProductsPage.InPriceRange | src/app/products/page.tsx:121 | an inverted range matches nothing |
| ProductsPage.FinalProducts | src/app/products/page.tsx:116-129 | no products while unavailable |
| ProductsPage.FinalProductsSpec | src/app/products/page.tsx:116-129 | the products shown are exactly those passing category, search, price and size, in catalogue order |
| ProductsPage.ResetShowsAll | src/app/products/page.tsx:72-77 | at the reset values every product priced 0 to 200 is shown |
| ProductsPage.FilterState.constructor | src/app/products/page.tsx:45-50 | the category comes from the query parameter, else "all"; the other filters start at their reset values |
| ProductsPage.FilterState.ToggleSizeSelection | src/app/products/page.tsx:66-70 | the selection is toggled, stays free of duplicates, and nothing else changes |
| ProductsPage.FilterState.ResetFilters | src/app/products/page.tsx:72-77 | every filter is back at its reset value |
| ProductCard.AnyInStock | src/components/products/ProductCard.tsx:25 | true iff some variant has stock above 0 |
| ProductCard.HasStock | src/components/products/ProductCard.tsx:25 | false while the variants are loading; otherwise whether some variant is in stock |
| ProductCard.Card | src/components/products/ProductCard.tsx:29-41 | the link is `/products/` plus the slug; the out-of-stock badge shows iff no variant is known to be in stock |
| ProductCard.CardLinkSlug | src/components/products/ProductCard.tsx:29 | the slug can be read back from the link |
| ProductForm.Slugify | src/components/admin/ProductForm.tsx:185-187 | every character of a generated slug is in [a-z0-9-] |
| ProductForm.ReplaceSpaceRuns | src/components/admin/ProductForm.tsx:186 | no whitespace is left |
| ProductForm.ReplaceOneRun | src/components/admin/ProductForm.tsx:186 | a whole run of whitespace between two parts becomes exactly one "-", with the parts' own results on either side, in order |
| ProductForm.NoSpaceRunsUnchanged | src/components/admin/ProductForm.tsx:186 | a string without whitespace is left unchanged |
| ProductForm.KeepSlugChars | src/components/admin/ProductForm.tsx:186 | every character kept is in [a-z0-9-] |
| ProductForm.SlugifyFixesSlugs | src/components/admin/ProductForm.tsx:185-187 | a string already in that alphabet is its own slug, so generating is idempotent |
| ProductForm.SlugPatternMeaning | src/components/admin/ProductForm.tsx:46 | the slug regex accepts exactly the alphabet strings whose hyphens stand between groups (none first or last, never two in a row) |
| ProductForm.ValidSlug | src/components/admin/ProductForm.tsx:46 | valid iff at least 3 characters of the alphabet with hyphens only between groups |
| ProductForm.GeneratedSlugMayBeInvalid | src/components/admin/ProductForm.tsx:46 | the name "A & B" generates "a--b", which the form's own rule rejects |
| ProductForm.ParseSize | src/components/admin/ProductForm.tsx:36 | an accepted size is the one named by the text |
| ProductForm.ParseSizeName | src/components/admin/ProductForm.tsx:36 | every size is accepted under its own name |
| ProductForm.ParseCategory | src/components/admin/ProductForm.tsx:47 | an accepted category is the one named by the text |
| ProductForm.ParseCategoryName | src/components/admin/ProductForm.tsx:47 | every category is accepted under its own name |
| ProductForm.Coerce | src/components/admin/ProductForm.tsx:37-38 | a number field gives its number; a typed field gives what `z.coerce.number` makes of its text |
| ProductForm.ValidVariant | src/components/admin/ProductForm.tsx:35-39 | a valid row names one of the sizes by that size's own name and has a positive price |
| ProductForm.ValidForm | src/components/admin/ProductForm.tsx:44-55 | a valid form has a slug of at least 3 characters with hyphens only between groups |
| ProductForm.DefaultsInvalid | src/components/admin/ProductForm.tsx:75-84 | the default values do not pass the schema |
| ProductForm.SplitTags | src/components/admin/ProductForm.tsx:131 | one trimmed tag per comma-separated piece |
| ProductForm.SplitTagsSpec | src/components/admin/ProductForm.tsx:131 | there is one more tag than there are commas; each tag is comma-free with no surrounding whitespace |
| ProductForm.TrimmedTag | src/components/admin/ProductForm.tsx:131 | a trimmed comma-free piece is a comma-free tag with no surrounding whitespace |
| ProductForm.ProductDocument | src/components/admin/ProductForm.tsx:124-135 | the document's id and slug are the form's slug, its tags are the split tags, its images are the uploaded URLs, and the other fields are the form's |
| ProductForm.VariantDocuments | src/components/admin/ProductForm.tsx:138-144 | one document per variant row, in order, each with the row's size, its coerced stock and price, and the product id |
| ProductForm.SubmitDocuments | src/components/admin/ProductForm.tsx:99-144 | a valid form writes a product whose id is a valid slug, with 1 to 5 images and at least one valid variant |
| ProductForm.SyncPrices | src/components/admin/ProductForm.tsx:262-266 | the number of variant rows is kept |
| ProductForm.SyncPricesSpec | src/components/admin/ProductForm.tsx:262-266 | exactly the rows whose price is the number 0 take the new price; a typed price, even "0", is left alone; nothing else changes |
| ProductForm.TypedZeroNotSynced | src/components/admin/ProductForm.tsx:262-263 | a row whose price was typed as "0" is not synced, and the variant rule still rejects it |
| ProductForm.ProductFormState.constructor | src/components/admin/ProductForm.tsx:75-84 | the form starts at the defaults |
| ProductForm.ProductFormState.OnNameChange | src/components/admin/ProductForm.tsx:183-187 | the name is set and the slug is regenerated from it |
| ProductForm.ProductFormState.OnPriceInput | src/components/admin/ProductForm.tsx:258-266 | the price becomes the parsed number (0 if it does not parse) and the rows whose price is the number 0 take it |
| ProductForm.ProductFormState.OnVariantStockInput | src/components/admin/ProductForm.tsx:392 | that row's stock becomes the typed text and nothing else changes |
| ProductForm.ProductFormState.OnVariantPriceInput | src/components/admin/ProductForm.tsx:405 | that row's price becomes the typed text and nothing else changes |
| ProductForm.ProductFormState.OnFilesSelected | src/components/admin/ProductForm.tsx:302-309 | rejected iff the total would exceed 5 files, and then nothing changes; otherwise the files are appended; at most 5 files stay at most 5 |
| ProductForm.ProductFormState.RemoveImage | src/components/admin/ProductForm.tsx:336 | that image is dropped and the others keep their order |
| ProductForm.ProductFormState.AddVariant | src/components/admin/ProductForm.tsx:421 | a row of size M, stock 10 and the current base price is appended |
| ProductForm.ProductFormState.RemoveVariant | src/components/admin/ProductForm.tsx:412 | that row is dropped, and at least one row remains |
| Inventory.Rows | src/app/admin/inventory/page.tsx:67-82 | one row per variant document of the product, in order |
| Inventory.Flatten | src/app/admin/inventory/page.tsx:67-82 | there are as many rows as variant documents over all products |
| Inventory.FlattenInventory | src/app/admin/inventory/page.tsx:67-82 | the nested loop produces exactly the flattened inventory |
| Inventory.FlattenSpec | src/app/admin/inventory/page.tsx:67-82 | one row per variant document: the count matches, every row comes from a (product, variant) pair, and every pair has its row |
| Inventory.FlattenGrouped | src/app/admin/inventory/page.tsx:67-82 | each product's rows come together, product after product |
| Inventory.SetStock | src/app/admin/inventory/page.tsx:99-101 | the list keeps its length |
| Inventory.SetStockSpec | src/app/admin/inventory/page.tsx:99-101 | only rows with that variant id change, and only in their stock; the update is idempotent |
| Inventory.ParseStock | src/app/admin/inventory/page.tsx:165 | the parsed integer, or 0 when there is none |
| Inventory.ParseStockRoundTrip | src/app/admin/inventory/page.tsx:165 | the stock the input shows reads back unchanged; an empty input gives 0 |
| Inventory.StockBadge | src/app/admin/inventory/page.tsx:155 | destructive iff the stock is 0, outline iff it is nonzero and below 10, default iff it is at least 10 |
| Inventory.RunFetch | src/app/admin/inventory/page.tsx:63-89 | with the products and the database, the rows become the flattened variants and loading stops; otherwise the rows stay, and loading stops once the products hook has stopped |
| Inventory.Body | src/app/admin/inventory/page.tsx:139-177 | skeletons iff the page or the user is loading; the rows iff neither is and there are rows; otherwise the empty message |
| Inventory.BodyAsWritten | src/app/admin/inventory/page.tsx:63-89 | the body follows the state the loading code left at the first render, whatever later renders see |
| Inventory.BodyIntended | src/app/admin/inventory/page.tsx:63-89 | once the latest render has the products, the database and the user, their rows (or the empty message) show; once neither hook loads, no skeletons |
| Inventory.RowsNeverShown | src/app/admin/inventory/page.tsx:63-89 | with no products at the first render, the page as written shows skeletons or the empty message for good, while the intended page shows the rows of the products that arrive |
| Inventory.InventoryPage.constructor | src/app/admin/inventory/page.tsx:52-53 | the inventory starts empty and loading |
| Inventory.InventoryPage.Load | src/app/admin/inventory/page.tsx:66-85 | the inventory becomes the flattened variants; the loading flag is unchanged |
| Inventory.InventoryPage.OnRender | src/app/admin/inventory/page.tsx:63-89 | one run of the loading code changes the page state as `RunFetch` says |
| Inventory.InventoryPage.HandleStockChange | src/app/admin/inventory/page.tsx:92-114 | a negative stock or a missing database is ignored; a failed write changes nothing; a successful write sets that variant's stock |
| AdminOrders.OrderTotal | src/app/admin/orders/page.tsx:65-67 | an order's total is the cart total the shopper saw |
| AdminOrders.StatusClass | src/app/admin/orders/page.tsx:32-38 | every status has a non-empty colour class |
| AdminOrders.StatusOptionsAreSteps | src/app/admin/orders/page.tsx:32-38 | the select offers exactly the tracking steps, in the same order, and each status has a colour class |
| AdminOrders.HandleStatusChange | src/app/admin/orders/page.tsx:69-89 | without a database or user nothing happens; a successful write overwrites only that order's status; a failed write changes nothing and emits the permission error for that path |
| AdminOrders.StatusWriteKeepsOrder | src/app/admin/orders/page.tsx:74 | a status write keeps the order's id, customer, items and total, and tracking still finds it; any transition is allowed |
| AdminDashboard.TotalRevenue | src/app/admin/page.tsx:38-42 | 0 while the orders are unavailable |
| AdminDashboard.RevenueAppend | src/app/admin/page.tsx:38-42 | revenue adds up over any split of the orders |
| AdminDashboard.RevenueIsCartTotals | src/app/admin/page.tsx:38-42 | revenue is the sum of the orders' cart totals |
| AdminDashboard.RecentOrders | src/app/admin/page.tsx:44 | the first five orders, or all of them when there are fewer |
| AdminDashboard.CountCards | src/app/admin/page.tsx:70-94 | the leads and orders cards both show the number of orders; the products card shows the number of products |
| AdminDashboard.RecentWithinRevenue | src/app/admin/page.tsx:38-44 | with non-negative order totals, the recent orders' totals sum to at most the revenue |
| AdminDashboard.Revenue | src/app/admin/page.tsx:38-42 | with non-negative order totals, revenue is non-negative |
| AdminDashboard.RecentAmounts | src/app/admin/page.tsx:167 | one amount per recent order, in the same order, each that order's total |
| AdminDashboard.RecentAmountsAreCartTotals | src/app/admin/page.tsx:167 | the amount beside each recent order is the cart total of that order |
| AdminProducts.FilteredProducts | src/app/admin/products/page.tsx:85 | undefined iff the products are; a product is kept iff its lower-cased name contains the lower-cased term |
| AdminProducts.FilteredProductsOrder | src/app/admin/products/page.tsx:85 | the catalogue order is kept, and an empty term keeps everything |
| AdminProducts.NameMatches | src/app/admin/products/page.tsx:85 | an empty term matches every product; a matching term is never longer than the name |
| AdminProducts.Body | src/app/admin/products/page.tsx:176-222 | skeletons iff loading; the no-products message iff not loading and nothing was filtered; otherwise the filtered rows |
| AdminProducts.StatusBadgeAsWritten | src/app/admin/products/page.tsx:198-199 | a document without `variants` throws a TypeError; otherwise the badge says whether some variant is in stock |
| AdminProducts.FormProductBreaksList | src/components/admin/ProductForm.tsx:124-135 | every product document the form writes lacks `variants`, so the list's badge throws on it |
| AdminProducts.StatusBadge | src/app/admin/products/page.tsx:198-199 | "In Stock" iff some loaded variant is in stock, otherwise "Out of Stock" |
| AdminProducts.StatusBadgeAgrees | src/app/admin/products/page.tsx:198-199 | wherever the document carries its variants, the corrected badge gives the same result as the one written |
| Leads.GroupWellFormed | src/app/admin/leads/page.tsx:60-76 | no phone is a key twice, and each lead sits under its own phone |
| Leads.Values | src/app/admin/leads/page.tsx:78 | one value per key |
| Leads.GroupedLeads | src/app/admin/leads/page.tsx:78 | `Object.values` gives one lead per phone key |
| Leads.GroupKeys | src/app/admin/leads/page.tsx:62-76 | there is exactly one lead per phone that placed an order |
| Leads.GroupTotals | src/app/admin/leads/page.tsx:62-76 | each lead holds its phone's order ids, in order, and the sum of those orders' totals |
| Leads.GroupFirstName | src/app/admin/leads/page.tsx:69-74 | each lead carries the name given with its phone's first order |
| Leads.LeadSums | src/app/admin/leads/page.tsx:62-76 | every order is counted once: the leads hold as many ids as there are orders and their amounts sum to the revenue |
| Leads.Insert | src/app/admin/leads/page.tsx:78 | insertion adds exactly the one lead |
| Leads.InsertSorted | src/app/admin/leads/page.tsx:78 | inserting into a sorted list keeps it sorted by amount, largest first |
| Leads.SortBySpent | src/app/admin/leads/page.tsx:78 | the sort is a permutation of its input |
| Leads.SortBySpentSorted | src/app/admin/leads/page.tsx:78 | the sort's result is ordered by amount, largest first |
| Leads.SortKeepsSums | src/app/admin/leads/page.tsx:78 | sorting keeps the id count and the amount sum |
| Leads.GroupPrefix | src/app/admin/leads/page.tsx:62-76 | one more order updates the grouping as the loop body does, per branch |
| Leads.Step | src/app/admin/leads/page.tsx:62-76 | after one order, its phone has a lead |
| Leads.Group | src/app/admin/leads/page.tsx:60-76 | after the orders, the last order's phone has a lead |
| Leads.GroupOrders | src/app/admin/leads/page.tsx:60-76 | the `forEach` loop builds exactly the grouping of the orders |
| Leads.ComputeLeads | src/app/admin/leads/page.tsx:58-79 | no leads while the orders are unavailable; otherwise the grouped leads sorted by amount |
| Leads.SortedLeads | src/app/admin/leads/page.tsx:58-79 | the grouped leads come out sorted by amount, largest first |
| Leads.LeadsSpec | src/app/admin/leads/page.tsx:58-79 | the leads are sorted by amount; each phone appears once, exactly the phones that ordered; each lead has its phone's ids and total and the first order's name; ids count the orders; amounts sum to the revenue |
| Leads.ReorderedValues | src/app/admin/leads/page.tsx:78 | any reordering of the map's values holds each lead once, under its phone |
| Leads.ShownBody | src/app/admin/leads/page.tsx:107-125 | skeletons iff the orders or the user are loading; the permission message iff loaded with an error; otherwise the disabled notice, so no lead is ever shown |
| PlaceholderImages.ImageMapKeys | src/lib/placeholder-images.ts:12-14 | the map holds exactly the listed ids |
| PlaceholderImages.ImageMapLast | src/lib/placeholder-images.ts:12-14 | each id maps to the last entry listed with it |
| PlaceholderImages.BuildImageMap | src/lib/placeholder-images.ts:12-14 | every entry is stored under its own id |
| PlaceholderImages.GetPlaceholderImage | src/lib/placeholder-images.ts:16-29 | the mapped entry when the id is present, otherwise the fallback |
| PlaceholderImages.LookupSpec | src/lib/placeholder-images.ts:16-29 | a listed id gives the last entry with that id; an unlisted id gives the `not-found` placeholder |
| Text.TrimSpec | src/components/admin/ProductForm.tsx:131 | `trim` leaves the middle slice with all surrounding whitespace removed, and that slice neither starts nor ends with whitespace |
| Text.Trim | src/components/admin/ProductForm.tsx:131 | `trim` never lengthens a string |
| Text.Lower | src/app/products/page.tsx:120 | `toLowerCase` keeps the length and leaves no upper-case letter |
| Text.TrimStartSpec | src/components/admin/ProductForm.tsx:131 | the leading whitespace, and only it, is dropped |
| Text.TrimEndSpec | src/components/admin/ProductForm.tsx:131 | the trailing whitespace, and only it, is dropped |
| Text.Split | src/components/admin/ProductForm.tsx:131 | `split` always gives at least one piece |
| Text.ParseInt | src/app/admin/inventory/page.tsx:165 | `parseInt` gives no number exactly when no digit follows the leading whitespace and an optional sign |
| Text.NatText | src/app/admin/inventory/page.tsx:165 | a printed number is a non-empty run of digits without a leading zero |
| Text.Substring | src/app/actions.ts:35 | never longer than the string or the range; empty when the start is past the end |
| Text.JoinSplit | src/components/admin/ProductForm.tsx:131 | joining the split pieces gives back the string; pieces hold no separator; there is one more piece than separators |
| Text.SplitJoin | src/components/cart/CheckoutDialog.tsx:68-73 | splitting a join of separator-free pieces gives back the pieces |
| Text.ParseIntText | src/app/admin/inventory/page.tsx:165 | `parseInt` reads back every printed integer |
| Common.FilterSublist | src/context/CartContext.tsx:60 | `filter` keeps the order of what it keeps |
| Common.Filter | src/context/CartContext.tsx:60 | `filter` keeps exactly the elements that pass the test, and never lengthens the sequence |
| Common.FilterAll | src/context/CartContext.tsx:60 | when every element passes, `filter` returns the sequence unchanged |
| Common.FilterFilter | src/app/products/page.tsx:116-129 | two filters in a row are one filter with both tests |

## Left out

- Network, database and storage I/O are not modelled as such. Firestore collections are maps, and a failing call is a `Fault` parameter. Query timing, the `useCollection`/`useDoc` hooks and loading flags are out of scope, except where a flag is part of a contract.
- JSON serialisation of the cart in local storage is left out. The stored entry holds the cart value itself.
- Toasts and `console` output are left out, except the toast titles that say how a checkout ended.
- Floating-point arithmetic is not modelled: prices are exact `real` numbers. `toFixed(2)` is the parameter `fixed2`. `parseFloat` on the price input is a parsed `Option<real>`.
- The WhatsApp link (`encodeURIComponent`, `wa.me`, `ADMIN_WHATSAPP_NUMBER`, `window.open`) is represented by the message text it carries.
- The `Error("Failed to create order.")` thrown at src/components/cart/CheckoutDialog.tsx:82 is only logged, so the model keeps just the "Order Failed" outcome.
- `trackOrder` converts `createdAt` to an ISO string at src/app/actions.ts:72. The model returns the stored record unchanged.
- `Date`, `serverTimestamp()`, `Math.random()` and document auto-ids are parameters. Product `createdAt`/`updatedAt` are abstract integers.
- Authentication, image uploads to storage, the batch commit and the sales chart of the dashboard are left out.
- Effect timing is left out in general. The inventory loading code (src/app/admin/inventory/page.tsx:63-89) is the exception: it is written as a `useState` initializer, which runs at the first render only, so its timing decides what the page shows; see "## Findings". The size-filter effect of the products page is modelled as the id set it produces (`SizeFilterIds`).
- Inventory.RunFetch: `fetchAllVariants` is asynchronous; the model applies its result at once, and a fetch that throws is left out.
- Firestore's limit on `in` queries is left out. The variants sub-collection is the `Product.variants` field on the storefront and a `variantsOf` parameter in the inventory.
- Orders sorted by `createdAt desc` are given as input, already in that order.
- ProductForm.ValidForm: string lengths (`min(3)` on the slug, `min(1)` on the other texts) count characters here, whereas zod counts UTF-16 code units. A name of one character outside the Basic Multilingual Plane has length 2 in the source. The model agrees with the source on every text inside the Basic Multilingual Plane.
- Case mapping (`toLowerCase`/`toUpperCase`) is ASCII-only. The whitespace class is a fixed set of characters.
- `parseInt` is modelled for base-10 digits after optional whitespace and sign. Prefixes such as `0x` are not modelled.
- Actions.OrderIdShape: the order id suffix has at most six characters (fewer when the random text is short), not always six.
- Actions.OrderDb.TrackOrder: matching is exact and case-sensitive on both id and phone. Phone numbers are not normalised.
- Leads.SortBySpent: the sort is proved to be a permutation that is ordered by amount. That it is stable (ties keep the map's insertion order, as `Array.prototype.sort` does) holds by construction but is not stated as a lemma.
- Leads.ComputeLeads: `b.totalSpent - a.totalSpent` is exact here. With floating point, two nearly equal totals could compare differently.

## Findings

| source | as written | input that shows it | evidently intended | confidence | as-written member | corrected member |
|---|---|---|---|---|---|---|
| src/app/admin/products/page.tsx:198-199 | the badge reads `product.variants.some(...)`, but the product form (src/components/admin/ProductForm.tsx:124-135) writes variants to a sub-collection and never writes a `variants` field | any product added through the admin form: rendering the list throws a TypeError on `undefined.some` | decide stock from the variants sub-collection, as the storefront card does | not executed | AdminProducts.StatusBadgeAsWritten | AdminProducts.StatusBadge |
| src/app/admin/inventory/page.tsx:63-89 | the code that loads the variants is the initializer of a `useState`, which React runs once, at the first render; the dependency list after it is ignored | any visit: at the first render the products hook has delivered nothing, so `fetchAllVariants` never runs; the page keeps its skeletons (or shows "No products found in inventory." when the hook reported not loading), as `Inventory.RowsNeverShown` proves | run the code as a `useEffect` on `[products, firestore, productsLoading]`, so the rows follow the products | not executed | Inventory.BodyAsWritten | Inventory.BodyIntended |
