# pdflower storefront core in Dafny

This project models the sequential logic underneath the pdflower Angular flower shop. The
shop's I/O is Firebase, Cloudinary, dialogs and routing. Beneath that sit the pieces
modelled here:

- the shopping cart and its page;
- the two product-list filters;
- the session list-state holder;
- the admin table's recency sort;
- the timestamp normaliser;
- the product edit dialog;
- the "add product" page;
- the info-card manager and the info-card store;
- the product details gallery;
- the sign-in and sign-up pages;
- the admin allow-list decision;
- the sticky contact panel.

Each source file is one Dafny module, joined by `import opened`. A remote call is not
executed. It becomes a parameter holding its outcome, `Success(value)` or `Failure(msg)`
(module `Wrappers`). A failure's `msg` is the error code or the error text the code reads.
Uploads are functions `FileRef -> Result<string>`. Sign-in, sign-up and password reset are
functions of their arguments. `toLowerCase` is an uninterpreted `string -> string`
(`Text.Lowering`). `new Date(x).getTime()` is a caller-supplied `string -> Option<int>`,
where `None` stands for `NaN`.

Component state that the source updates in place becomes a `class`:

- `CartService`, `CartPage`, `ProductListStateService`;
- `ProductFormModal`, `ProductAdd`, `InfoPictureManager`;
- `ProductDetailsPage`, `Login`, `Register`, `StickyPanel`.

Their methods carry `modifies this` (for the cart page, `modifies` the injected cart service) and state the whole new state. Each is proved against a
pure specification function; the lemmas are proved about those functions. Where the source
tests only truthiness, `""` stands for a missing string.

Shared sequence operations live in `Seqs`:

- `Filter` (`Array.prototype.filter`);
- `Dedup` (`[...new Set(xs)]`);
- `IndexOf`;
- `RemoveAt` / `InsertAt`;
- `Map`.

`StableSort` holds a stable insertion sort with a proof that it is the only sorted, stable
permutation. That proof is what ties a comparator-based `Array.prototype.sort` to a
definition.

## Model

| member | source | states |
|---|---|---|
| Cart.FindById | pdflower-app/src/app/services/cart.service.ts:19 | the index of the first entry with the id, or -1 exactly when no entry has it |
| Cart.AddAbsentAppends | pdflower-app/src/app/services/cart.service.ts:24-25 | adding an absent id appends the product with quantity 1, ignoring its incoming quantity, and keeps every earlier entry |
| Cart.AddPresentIncrements | pdflower-app/src/app/services/cart.service.ts:19-23 | adding a present id raises that entry's quantity by exactly 1, keeps the length, and leaves every other entry unchanged |
| Cart.AddPreservesUniqueIds | pdflower-app/src/app/services/cart.service.ts:16-28 | adding keeps entry ids pairwise distinct |
| Cart.AddAllUniqueIds | pdflower-app/src/app/services/cart.service.ts:16-28 | any sequence of additions from a cart with distinct ids (the empty cart included) keeps them distinct |
| Cart.AddRaisesItemCount | pdflower-app/src/app/services/cart.service.ts:12-28 | every `addToCart` raises `cartItemCount` (the sum of quantities) by exactly 1 |
| Cart.RemovedContents | pdflower-app/src/app/services/cart.service.ts:34-36 | `removeItem(id)` keeps exactly the entries with another id, each as often as it occurred, in order, and drops every entry with that id |
| Cart.RemoveAbsentIsNoop | pdflower-app/src/app/services/cart.service.ts:34-36 | removing an absent id changes nothing |
| Cart.RemovePreservesUniqueIds | pdflower-app/src/app/services/cart.service.ts:34-36 | removal keeps ids distinct |
| Cart.RemoveLowersItemCount | pdflower-app/src/app/services/cart.service.ts:12-14 | removal lowers the count by the quantity held under that id |
| Cart.CartService.constructor | pdflower-app/src/app/services/cart.service.ts:8 | the cart starts empty |
| Cart.CartService.CartItemCount | pdflower-app/src/app/services/cart.service.ts:12-14 | the count of an empty cart is 0 |
| Cart.CartService.AddToCart | pdflower-app/src/app/services/cart.service.ts:16-28 | the loop's search and update give exactly `Added(old items, product)`; ids stay distinct |
| Cart.CartService.ClearCart | pdflower-app/src/app/services/cart.service.ts:30-32 | the cart is empty and its count is 0 |
| Cart.CartService.RemoveItem | pdflower-app/src/app/services/cart.service.ts:34-36 | the new cart is the old one without that id; ids stay distinct |
| CartView.AddRaisesTotalPrice | pdflower-app/src/app/components/cart-page/cart-page.ts:26-28 | after an addition the total grows by the incoming price for a new entry, or by the stored entry's price otherwise |
| CartView.RemoveLowersTotalPrice | pdflower-app/src/app/components/cart-page/cart-page.ts:26-28 | removing an id lowers the total by exactly what its entries contributed |
| CartView.CartPage.constructor | pdflower-app/src/app/components/cart-page/cart-page.ts:23-24 | the page reads the injected cart service |
| CartView.CartPage.TotalCount | pdflower-app/src/app/components/cart-page/cart-page.ts:24 | the page's count is the service's count, 0 for an empty cart |
| CartView.CartPage.CartTotalPrice | pdflower-app/src/app/components/cart-page/cart-page.ts:26-28 | an empty cart totals 0 |
| CartView.CartPage.ClearCart | pdflower-app/src/app/components/cart-page/cart-page.ts:39-43 | the cart is emptied only when the dialog result is exactly `true`, otherwise unchanged |
| CartView.CartPage.RemoveItem | pdflower-app/src/app/components/cart-page/cart-page.ts:46-48 | the id is forwarded unchanged to the service's removal |
| ProductList.CurrentCategory | pdflower-app/src/app/components/products/product-list/product-list.ts:77-82 | the non-empty input, else the non-empty route default, else `"all"`; never empty |
| ProductList.FilteredProducts | pdflower-app/src/app/components/products/product-list/product-list.ts:85-96 | the result is an order-preserving subsequence of the list and holds only active products |
| ProductList.UnrestrictedShowsAllActive | pdflower-app/src/app/components/products/product-list/product-list.ts:88-89 | a selection that lowers to `""` or `"all"` shows exactly the active products, in order |
| ProductList.RestrictedMembership | pdflower-app/src/app/components/products/product-list/product-list.ts:91-95 | otherwise a product is shown iff it is active and one of its categories matches the selection ignoring case, as often as it occurs in the list |
| ProductList.CaseInsensitiveSelection | pdflower-app/src/app/components/products/product-list/product-list.ts:86-95 | selections that lower to the same text show the same list |
| ProductList.DefaultSelectionShowsAllActive | pdflower-app/src/app/components/products/product-list/product-list.ts:77-89 | with neither input nor route default, every active product is shown |
| LegacyProductList.FilteredProducts | pdflower-app/src/app/components/product-list/product-list.ts:67-72 | an order-preserving subsequence holding only active products |
| LegacyProductList.DefaultShowsAllActive | pdflower-app/src/app/components/product-list/product-list.ts:15 | the default input `"all"` shows exactly the active products in order |
| LegacyProductList.SelectionMembership | pdflower-app/src/app/components/product-list/product-list.ts:71 | any other selection keeps a product iff it is active and its single category matches ignoring case, as often as it occurs in the list |
| ListState.ProductListStateService.constructor | pdflower-app/src/app/services/product-list-state.service.ts:8-18 | page 0, scroll 0, no categories, sort `recent` |
| ListState.ProductListStateService.ResetState | pdflower-app/src/app/services/product-list-state.service.ts:23-28 | every field is back at its default from any state, so a second reset changes nothing |
| ListState.ProductListStateService.SetPageIndex | pdflower-app/src/app/services/product-list-state.service.ts:8 | sets the page and leaves the other three fields unchanged |
| ListState.ProductListStateService.SetScrollPosition | pdflower-app/src/app/services/product-list-state.service.ts:11 | sets the scroll offset and leaves the other three fields unchanged |
| ListState.ProductListStateService.SetSelectedCategories | pdflower-app/src/app/services/product-list-state.service.ts:14 | sets the filter without resetting page or scroll |
| ListState.ProductListStateService.SetSortOption | pdflower-app/src/app/services/product-list-state.service.ts:18 | sets one of the five sort values without resetting page or scroll |
| ProductTable.RecencyKey | pdflower-app/src/app/components/admin/product-table/product-table.ts:52-53 | `updateDate` wins whenever present, even if older; the key is missing iff both dates are |
| ProductTable.NewerFirst | pdflower-app/src/app/components/admin/product-table/product-table.ts:56-66 | the comparator is negative exactly when `a` has a date and `b` has none, or both have one and `timeB - timeA < 0`; an undated `a` never goes first |
| ProductTable.NewerFirstIsStrictTotal | pdflower-app/src/app/components/admin/product-table/product-table.ts:56-66 | the comparator is irreflexive and transitive, and orders every two distinct keys one way or the other |
| ProductTable.SortProducts | pdflower-app/src/app/components/admin/product-table/product-table.ts:47-68 | a permutation of the input, sorted by the comparator, with equal keys in input order |
| ProductTable.SortedProductsOrder | pdflower-app/src/app/components/admin/product-table/product-table.ts:56-66 | dated products precede undated ones, and dated ones run newest first |
| ProductTable.AnyStableSortAgrees | pdflower-app/src/app/components/admin/product-table/product-table.ts:50 | every sorted, stable permutation equals `SortProducts`, so the platform sort's result is determined |
| DateTimeUtils.GetTimestampValue | pdflower-app/src/app/utilities/date-time-utils.ts:2-12 | a Date gives its time; a seconds object gives a multiple of 1000 whose quotient is the seconds; anything else goes to the parser |
| DateTimeUtils.NanosecondsIgnored | pdflower-app/src/app/utilities/date-time-utils.ts:7-9 | nanoseconds never change the result |
| DateTimeUtils.SecondsStrictlyIncreasing | pdflower-app/src/app/utilities/date-time-utils.ts:7-9 | for seconds objects the result is strictly increasing in `seconds` |
| DateTimeUtils.TimestampMatchesDate | pdflower-app/src/app/utilities/date-time-utils.ts:3-9 | a seconds object equals the Date for the same whole second |
| ProductForm.WithEntry | pdflower-app/src/app/components/admin/product-form-modal/product-form-modal.ts:101-107 | the new row goes last with the given url, and is main iff asked or it is the first row |
| ProductForm.PopulatedEntries | pdflower-app/src/app/components/admin/product-form-modal/product-form-modal.ts:58-63 | one row per url in order with row 0 main; a single empty main row when there is no url |
| ProductForm.ReopenShowsTwoMains | pdflower-app/src/app/components/admin/product-form-modal/product-form-modal.ts:58-63 | reopening a product whose main image is a later url shows two main rows |
| ProductForm.RemovedEntry | pdflower-app/src/app/components/admin/product-form-modal/product-form-modal.ts:109-122 | one row shorter; the first remaining row becomes main iff it was or the removed row was; other rows untouched |
| ProductForm.SetMain | pdflower-app/src/app/components/admin/product-form-modal/product-form-modal.ts:124-129 | same length and urls after `setMainImage` |
| ProductForm.SetMainLeavesOnlyK | pdflower-app/src/app/components/admin/product-form-modal/product-form-modal.ts:124-129 | for an index in range the main rows are exactly row k |
| ProductForm.MainRowPreserved | pdflower-app/src/app/components/admin/product-form-modal/product-form-modal.ts:101-129 | add, remove (leaving rows) and set-main in range never leave the rows without a main row |
| ProductForm.SortedPreviews | pdflower-app/src/app/components/admin/product-form-modal/product-form-modal.ts:76-87 | the preview holds exactly the rows whose url is non-empty and starts with `http` |
| ProductForm.SortedPreviewsSplit | pdflower-app/src/app/components/admin/product-form-modal/product-form-modal.ts:79-86 | the preview is the previewable main rows in array order, then the other previewable rows in array order |
| ProductForm.ParseVndPrice | pdflower-app/src/app/components/admin/product-form-modal/product-form-modal.ts:143-146 | text with no digit parses to 0 |
| ProductForm.ParseDecimalString | pdflower-app/src/app/components/admin/product-form-modal/product-form-modal.ts:143-146 | the plain decimal spelling of n parses back to n |
| ProductForm.NonDigitIgnored | pdflower-app/src/app/components/admin/product-form-modal/product-form-modal.ts:144 | inserting any non-digit anywhere leaves the parsed price unchanged |
| ProductForm.CategoryChanged | pdflower-app/src/app/components/admin/product-form-modal/product-form-modal.ts:162-172 | checking adds one occurrence of the value; unchecking removes one occurrence if present |
| ProductForm.UncheckUndoesCheck | pdflower-app/src/app/components/admin/product-form-modal/product-form-modal.ts:162-172 | unchecking a just-checked new category restores the list |
| ProductForm.SavedUrls | pdflower-app/src/app/components/admin/product-form-modal/product-form-modal.ts:190-192 | exactly the rows' urls that are non-empty and start with `http` |
| ProductForm.FirstMain | pdflower-app/src/app/components/admin/product-form-modal/product-form-modal.ts:199 | the first main row, or none exactly when no row is main |
| ProductForm.SaveRequestOf | pdflower-app/src/app/components/admin/product-form-modal/product-form-modal.ts:180-224 | invalid form, or no http url, rejects with its message; otherwise update iff an id is set, else add; the record holds the saved urls, the parsed price, the form fields, and a main image among the saved urls |
| ProductForm.ValidFormKeepsEveryUrl | pdflower-app/src/app/components/admin/product-form-modal/product-form-modal.ts:94-99 | on a valid form every row's url is saved, so "no image" happens iff there are no rows |
| ProductForm.SavedMainImage | pdflower-app/src/app/components/admin/product-form-modal/product-form-modal.ts:199-200 | the main image is the first main row's url when a row is main, else the first saved url |
| ProductForm.ReopenAndSaveMovesMain | pdflower-app/src/app/components/admin/product-form-modal/product-form-modal.ts:58-63 | reopening a product whose main image is its second url and saving makes the first url main |
| ProductForm.SaveFailedMessage | pdflower-app/src/app/components/admin/product-form-modal/product-form-modal.ts:229 | the prefix followed by the error text, or the fallback text when it is empty |
| ProductForm.ProductFormModal.constructor | pdflower-app/src/app/components/admin/product-form-modal/product-form-modal.ts:47-69 | fields from the product or their defaults; rows as `PopulatedEntries`; previews in step with the rows |
| ProductForm.ProductFormModal.AddImageUrlGroup | pdflower-app/src/app/components/admin/product-form-modal/product-form-modal.ts:101-107 | the rows become `WithEntry`; nothing else in the form changes; previews stay in step |
| ProductForm.ProductFormModal.RemoveImageUrlGroup | pdflower-app/src/app/components/admin/product-form-modal/product-form-modal.ts:109-122 | the rows become `RemovedEntry`; nothing else changes; previews stay in step |
| ProductForm.ProductFormModal.SetMainImage | pdflower-app/src/app/components/admin/product-form-modal/product-form-modal.ts:124-129 | row i is main iff i is the index; nothing else changes |
| ProductForm.ProductFormModal.OnCategoryChange | pdflower-app/src/app/components/admin/product-form-modal/product-form-modal.ts:162-172 | the categories become `CategoryChanged`; nothing else changes |
| ProductForm.ProductFormModal.OnSave | pdflower-app/src/app/components/admin/product-form-modal/product-form-modal.ts:180-231 | the request is `SaveRequestOf` the form; a rejection sets its message and writes nothing; the dialog closes with `true` only after a successful write; a failed write sets the failure message |
| ProductAddition.SpliceOne | pdflower-app/src/app/components/products/product-add/product-add.ts:60-62 | removes exactly the file at an in-range index; negative indices count from the end; past the end nothing changes |
| ProductAddition.UploadAll | pdflower-app/src/app/components/products/product-add/product-add.ts:77-94 | succeeds iff every upload does, with the urls in file order |
| ProductAddition.ChosenMain | pdflower-app/src/app/components/products/product-add/product-add.ts:95-97 | a user-set main image is kept, otherwise it is the first uploaded url |
| ProductAddition.RetryKeepsEarlierMain | pdflower-app/src/app/components/products/product-add/product-add.ts:95-97 | after a failed write, a retry keeps the main image chosen by the first attempt |
| ProductAddition.ProductAdd.constructor | pdflower-app/src/app/components/products/product-add/product-add.ts:35-50 | the default form, no files, no urls, no main image, not uploading |
| ProductAddition.ProductAdd.EditForm | pdflower-app/src/app/components/products/product-add/product-add.ts:43-50 | sets the form value; nothing else changes |
| ProductAddition.ProductAdd.OnFileSelected | pdflower-app/src/app/components/products/product-add/product-add.ts:53-58 | picked files are appended at the end in order; nothing else changes |
| ProductAddition.ProductAdd.RemoveFile | pdflower-app/src/app/components/products/product-add/product-add.ts:60-62 | the files become `SpliceOne(files, index)` |
| ProductAddition.ProductAdd.SetMainImage | pdflower-app/src/app/components/products/product-add/product-add.ts:64-66 | sets the main image only |
| ProductAddition.ProductAdd.ResetForm | pdflower-app/src/app/components/products/product-add/product-add.ts:121-128 | form, files, urls and main image back at their defaults |
| ProductAddition.ProductAdd.OnSubmit | pdflower-app/src/app/components/products/product-add/product-add.ts:68-119 | the guard changes nothing; a failed upload changes nothing but the flag; the record holds the form, the chosen main image, the urls in file order and both dates; success resets; a failed write keeps files and form; `isUploading` ends false |
| InfoPictureStore.KindOrDefault | pdflower-app/src/app/services/info-picture.service.ts:57 | an empty label becomes `"Standard"`, a non-empty one is kept |
| InfoPictureStore.TargetFor | pdflower-app/src/app/services/info-picture.service.ts:51-53 | a non-empty id targets that document; an empty id a fresh one |
| InfoPictureStore.SyncBatch | pdflower-app/src/app/services/info-picture.service.ts:39-68 | one operation per id and per picture, with the deletes exactly at the front |
| InfoPictureStore.SyncAllPictures | pdflower-app/src/app/services/info-picture.service.ts:39-68 | the loops build `SyncBatch`: delete i for id i, then per picture a merge-set with its target, url, label default, flag and `order` equal to its index |
| InfoPictureStore.NoDeletesByDefault | pdflower-app/src/app/services/info-picture.service.ts:39 | with the default empty id list the batch holds no delete |
| InfoPictureStore.ActiveInfoCards | pdflower-app/src/app/services/info-picture.service.ts:82-89 | never longer than the picture list |
| InfoPictureStore.ActiveInfoCardsIsFilterThenMap | pdflower-app/src/app/services/info-picture.service.ts:84-87 | exactly the urls of the active pictures, in input order |
| InfoCards.Changed | pdflower-app/src/app/components/admin/info-picture-manager/info-picture-manager.ts:40-45 | `hasChanges`: changed whenever a new local card exists, an id awaits deletion, or nothing has been loaded yet; unchanged exactly when there are no new cards, no deletions, and the list equals the one last loaded |
| InfoCards.Move | pdflower-app/src/app/components/admin/info-picture-manager/info-picture-manager.ts:60-66 | a permutation in which the clamped source item lands at the clamped target and the rest keep their order |
| InfoCards.MoveBack | pdflower-app/src/app/components/admin/info-picture-manager/info-picture-manager.ts:60-66 | dragging an item back to where it came from restores the list |
| InfoCards.CleanAfterLoadAndMoveBack | pdflower-app/src/app/components/admin/info-picture-manager/info-picture-manager.ts:40-66 | a freshly loaded list has no changes, and still has none after a drag and its reverse |
| InfoCards.NewLocalMakesDirty | pdflower-app/src/app/components/admin/info-picture-manager/info-picture-manager.ts:40-45 | appending any picked file makes `hasChanges` true |
| InfoCards.Payload | pdflower-app/src/app/components/admin/info-picture-manager/info-picture-manager.ts:106-124 | entry i has `order` i, the item's id or `""`, label default `"Standard"`, active default `true`, and the uploaded url for a new file |
| InfoCards.InfoPictureManager.HasChanges | pdflower-app/src/app/components/admin/info-picture-manager/info-picture-manager.ts:40-45 | true when a new local card exists, an id awaits deletion, or before the first load; when false the list is the one last loaded |
| InfoCards.InfoPictureManager.constructor | pdflower-app/src/app/components/admin/info-picture-manager/info-picture-manager.ts:33-45 | empty list, no deletes, no baseline, and already counted as changed |
| InfoCards.InfoPictureManager.LoadImages | pdflower-app/src/app/components/admin/info-picture-manager/info-picture-manager.ts:51-58 | the list is the loaded pictures, deletes and baseline reset, no changes |
| InfoCards.InfoPictureManager.OnDrop | pdflower-app/src/app/components/admin/info-picture-manager/info-picture-manager.ts:60-66 | the list becomes `Move(list, previous, current)` |
| InfoCards.InfoPictureManager.OnFileSelected | pdflower-app/src/app/components/admin/info-picture-manager/info-picture-manager.ts:68-81 | one new local, active entry per file, labelled with its name, appended at the end |
| InfoCards.InfoPictureManager.RemoveImage | pdflower-app/src/app/components/admin/info-picture-manager/info-picture-manager.ts:83-92 | removes exactly entry k; records its id for deletion iff it has one and is not new and local |
| InfoCards.DeletesAllInOrder | pdflower-app/src/app/components/admin/info-picture-manager/info-picture-manager.ts:100-103 | when every delete succeeds, each id is deleted exactly once, in order |
| InfoCards.UploadsAllNewFilesInOrder | pdflower-app/src/app/components/admin/info-picture-manager/info-picture-manager.ts:109-115 | when every upload succeeds, exactly the new cards' files are uploaded, once each, in list order |
| InfoCards.CommitsIffAllSucceed | pdflower-app/src/app/components/admin/info-picture-manager/info-picture-manager.ts:98-126 | the save reaches its batch commit exactly when every delete and every upload succeeded; no earlier call is a commit |
| InfoCards.DeleteAll | pdflower-app/src/app/components/admin/info-picture-manager/info-picture-manager.ts:100-103 | the deletes issued are one per id in order, stopping at the first rejection; ok iff all succeeded |
| InfoCards.UploadNewFiles | pdflower-app/src/app/components/admin/info-picture-manager/info-picture-manager.ts:106-124 | the uploads issued are the new cards' files in order, stopping at the first rejection; a payload iff all succeeded, and then it is `Payload` |
| InfoCards.InfoPictureManager.OnSaveAll | pdflower-app/src/app/components/admin/info-picture-manager/info-picture-manager.ts:94-136 | the guard makes no call and no change; past it, the calls are exactly `SaveTrace`: deletes in order up to the first rejection, then (only if all succeeded) the uploads up to the first rejection, then (only if all succeeded) one commit of `SyncBatch(Payload)`; saved iff every call succeeded; success reloads, failure keeps the state; `isUploading` ends false |
| ProductDetails.MergedImages | pdflower-app/src/app/components/products/product-details-page/product-details-page.ts:56-64 | no duplicates, and exactly the non-empty main, gallery and info-card urls |
| ProductDetails.MainImageFirst | pdflower-app/src/app/components/products/product-details-page/product-details-page.ts:56-64 | a non-empty main image heads the merged list |
| ProductDetails.MergedKeepsFirstOccurrenceOrder | pdflower-app/src/app/components/products/product-details-page/product-details-page.ts:56-64 | urls keep the order of their first occurrence among main, gallery, info cards |
| ProductDetails.Current | pdflower-app/src/app/components/products/product-details-page/product-details-page.ts:89 | with nothing selected the selector starts from the first url; otherwise from the selection itself |
| ProductDetails.NoSelectionSteps | pdflower-app/src/app/components/products/product-details-page/product-details-page.ts:87-99 | with nothing selected, next selects the second url (the first in a one-element list) and prev selects the last |
| ProductDetails.NextIndex | pdflower-app/src/app/components/products/product-details-page/product-details-page.ts:89-91 | an index of the list; an image not in the list leads to index 0 |
| ProductDetails.PrevIndex | pdflower-app/src/app/components/products/product-details-page/product-details-page.ts:96-98 | an index of the list |
| ProductDetails.NextIsSuccessor | pdflower-app/src/app/components/products/product-details-page/product-details-page.ts:89-91 | from index i of a duplicate-free list, next selects (i+1) mod n |
| ProductDetails.PrevIsPredecessor | pdflower-app/src/app/components/products/product-details-page/product-details-page.ts:96-98 | from index i, prev selects (i-1+n) mod n |
| ProductDetails.PrevUndoesNext | pdflower-app/src/app/components/products/product-details-page/product-details-page.ts:87-99 | on a duplicate-free list prev undoes next |
| ProductDetails.NextUndoesPrev | pdflower-app/src/app/components/products/product-details-page/product-details-page.ts:87-99 | on a duplicate-free list next undoes prev |
| ProductDetails.ProductDetailsPage.constructor | pdflower-app/src/app/components/products/product-details-page/product-details-page.ts:38 | nothing selected |
| ProductDetails.ProductDetailsPage.OnProductLoaded | pdflower-app/src/app/components/products/product-details-page/product-details-page.ts:53-70 | a found product gets the merged list; its main image is selected only when nothing is selected yet |
| ProductDetails.ProductDetailsPage.SetMainImage | pdflower-app/src/app/components/products/product-details-page/product-details-page.ts:82-84 | the selection is the given url |
| ProductDetails.ProductDetailsPage.NextImage | pdflower-app/src/app/components/products/product-details-page/product-details-page.ts:87-92 | no change on an empty list, otherwise selects `urls[NextIndex]`, an element of the list |
| ProductDetails.ProductDetailsPage.PrevImage | pdflower-app/src/app/components/products/product-details-page/product-details-page.ts:94-99 | no change on an empty list, otherwise selects `urls[PrevIndex]`, an element of the list |
| LoginPage.SignInErrorMessage | pdflower-app/src/app/components/auth/login/login.ts:32-46 | the three credential codes share one message; invalid email and too many requests have their own; every other code the generic one |
| LoginPage.SameMessageIffSameClass | pdflower-app/src/app/components/auth/login/login.ts:32-46 | two codes share a message iff they fall in the same of the four classes |
| LoginPage.ResetErrorMessage | pdflower-app/src/app/components/auth/login/login.ts:73-77 | `user-not-found` has its own message, every other code the generic one |
| LoginPage.Login.constructor | pdflower-app/src/app/components/auth/login/login.ts:17-19 | empty fields, no error |
| LoginPage.Login.OnSubmit | pdflower-app/src/app/components/auth/login/login.ts:24-48 | navigates iff the sign-in succeeds; the error is cleared on success and mapped from the code on failure |
| LoginPage.Login.OnForgotPassword | pdflower-app/src/app/components/auth/login/login.ts:54-79 | an empty email sets its message and requests no reset; otherwise a reset for that email, the dialog iff it succeeds, the mapped error otherwise |
| RegisterPage.MismatchWarning | pdflower-app/src/app/components/auth/register/register.ts:26-32 | a warning iff both fields are non-empty and differ |
| RegisterPage.SignUpErrorMessage | pdflower-app/src/app/components/auth/register/register.ts:53-61 | three codes with their own messages, every other code the generic one |
| RegisterPage.WarningImpliesRefusal | pdflower-app/src/app/components/auth/register/register.ts:26-41 | a shown warning means the passwords differ, so the submit refuses; while either field is empty no warning shows, even when the submit refuses |
| RegisterPage.Register.constructor | pdflower-app/src/app/components/auth/register/register.ts:15-21 | empty fields, no messages, inputs enabled |
| RegisterPage.Register.CheckPasswordMatch | pdflower-app/src/app/components/auth/register/register.ts:26-32 | the mismatch warning becomes `MismatchWarning`; nothing else changes |
| RegisterPage.Register.OnSubmit | pdflower-app/src/app/components/auth/register/register.ts:34-63 | sign-up is called iff the passwords match; success sets the message and disables inputs; failure maps the code; never both messages |
| AuthDecision.AllowedEmails | pdflower-app/src/app/services/auth.service.ts:32 | a missing document, data or field reads as the empty list |
| AuthDecision.IsAdminStream | pdflower-app/src/app/services/auth.service.ts:21-40 | no user or no email gives false without a fetch; otherwise a fetch failure propagates, else admin iff the rule holds |
| AuthDecision.IsAdminOnce | pdflower-app/src/app/services/auth.service.ts:82-105 | the same three statements for the one-shot check |
| AuthDecision.StreamAndOnceAgree | pdflower-app/src/app/services/auth.service.ts:21-105 | the stream and the one-shot check give the same answer on every input |
| Sticky.Visible | pdflower-app/src/app/components/contact/sticky-panel/sticky-panel.ts:23 | `/` is visible; a visible url starts with `/`, and any other visible url has at least 9 characters with `p` or `c` second |
| Sticky.HiddenOutsideTheThreeAreas | pdflower-app/src/app/components/contact/sticky-panel/sticky-panel.ts:23 | a url without a leading slash, or whose second character is not `p` or `c`, is hidden |
| Sticky.VisibilityExamples | pdflower-app/src/app/components/contact/sticky-panel/sticky-panel.ts:23 | `/`, `/products…` (including `/productsX`) and `/contact-us…` are shown; `/cart`, `/admin`, `/login` are hidden |
| Sticky.StickyPanel.constructor | pdflower-app/src/app/components/contact/sticky-panel/sticky-panel.ts:16 | hidden initially |
| Sticky.StickyPanel.OnNavigationEnd | pdflower-app/src/app/components/contact/sticky-panel/sticky-panel.ts:19-24 | visibility is the rule applied to the latest url only |

## Left out

- I/O and services are not modelled. This covers Firestore reads, writes and batches, Cloudinary and Firebase Storage uploads, Firebase Auth, `alert`, `console` output, dialogs and navigation. Each call is a parameter holding its outcome.
- Concurrency is not modelled. This covers `Promise.all`, observables, signals, `combineLatest`, `switchMap` and zones. Each flow is one sequential step.
- ProductAddition.ProductAdd.OnSubmit: the uploads run one after another and fail as a whole.
- The `isUploading` guard of `onSaveAll` can only fire if a save is re-entered while one is still running. It is modelled, but in a sequential model nothing reaches it.
- `formatVndPrice` and `onPriceInput` use the `vi-VN` `Intl.NumberFormat`. The dialog's constructor takes the formatter as a parameter. No format/parse round trip is claimed.
- `DateTimeUtils` models a `Date` by an integer time, so an invalid `Date` (whose `getTime()` is `NaN`) is not represented, and neither is a `seconds` field that is not a number (which makes `seconds * 1000` `NaN`).
- `toLowerCase` and `new Date(x).getTime()` are uninterpreted parameters, because their results depend on Unicode and on the date library. For the timestamp normaliser, a `NaN` result is `None`.
- The admin table's recency sort takes each product's dates as `Option<int>`, where `None` means the date is missing (falsy), which sorts last. It assumes every present date converts to a number. A present date whose `new Date(d).getTime()` is `NaN` is not represented. In the source such a date makes the comparator return `NaN`, which `sort` treats as "equal" to every dated product rather than placing it last. Product dates are written with `serverTimestamp()` and read back as Firestore `Timestamp` objects. Whether `new Date` of such an object yields a number depends on that library and is not modelled.
- ProductForm.ParseVndPrice: exact, while `parseInt` loses precision above 2^53.
- Cart.CartService.AddToCart: rebuilds the entry as a new value. The source increments `quantity` on the entry object it shares with the old array. That aliasing is not modelled.
- InfoPictureStore.SyncAllPictures: does not model the `?? true` default for `isActive`, because `isActive` is a required boolean of `InfoPicture`. The manager's payload does carry that default (`InfoCards.Payload`). The server timestamp written with each picture is not modelled.
- `hasChanges` compares with `JSON.stringify`. The model uses structural equality with the last loaded list.
- `DisplayImage.preview` is left out. It is a browser object URL and is never saved.
- The manager's `url!` on an item without a url becomes `""`.
- InfoCards.InfoPictureManager.RemoveImage: requires an in-range index, because the source reads a field of `allImages()[index]`, which throws otherwise.
- ProductForm.ProductFormModal.RemoveImageUrlGroup: requires an in-range index. The form array's negative and out-of-range `at`/`removeAt` behaviour is not modelled.
- The "add product" form's numeric controls are integers. A cleared number input (`null`) is not modelled.
- The details page's route handling is not modelled: a missing `id` parameter and the loading flag.
- The merged image list is returned rather than written back into the product object.
- `getInfoPictures`' server-side `orderBy` is not modelled. `loadImages` takes the pictures in the order given.
- `product.model.ts` is stale: numeric id, one image, one category. It is kept as `Catalog.LegacyProduct`, used only by the older list. Every other module uses the string-id, multi-category record.
- The list-state holder resets nothing when the filter or sort changes, and the code does not trim the category selection. The model follows the code.
- No sort or pagination pipeline exists in the list components, so none is modelled.
