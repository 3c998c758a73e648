# Snatch-it storefront and admin client, modelled in Dafny

Snatch-it is a React shop client. It has two halves. The storefront has a
catalogue with filters, product pages, a cart with coupons, checkout, order
tracking and order history. The admin area covers products and their
variants, categories, coupons, the media library, orders and a dashboard.
Almost every component fetches JSON and renders it. This project models the
logic buried in those components as pure Dafny functions over immutable
data:

- the state transitions of the pages and contexts;
- the request payloads and query strings they build;
- the decision tables they render from.

Every HTTP exchange is an input of the operation that consumes it. An
answer is `Ok(data)`, or `Err(status, message)` for a rejected request.
`Promise.allSettled` entries are `Fulfilled(value) | Rejected`. Clocks,
object URLs, the API base URL and decoded tokens are parameters too.

The project has one module per component or context:

- shared helpers: `Wrappers`, `Http`, `Toasts`, `Text`, `QueryParams`, `JsSet`, `Catalog`;
- `Cart`, `Pricing`, `Checkout`;
- `CategoryFilters`, `UseFilters`;
- `ProductDetails`, `ProductCard`, `HeroSlider`;
- `Orders`: tracking page, order history and admin order list;
- `ManageProducts`, `ProductForms` (add and update product), `MediaManager`;
- `CategoryEditor`, `CategoryTree` (the category table), `CouponEditor`, `Dashboard`;
- `Auth`, `RouteGuards`.

JavaScript behaviour the components rely on is written out:

- `x || fallback` treats `0` and `""` as missing.
- A missing property reads as `undefined`, and a template literal prints it as the text "undefined".
- `parseInt` returns NaN when no digits follow the white space and sign; `Number` is read on integer numerals only (blank text is 0, anything else that is not an integer numeral is NaN). `NumberValue = Finite(int) | NaN` models both.
- `%` keeps the sign of the dividend.
- A `Set` is kept as an insertion-ordered sequence without duplicates.

## Model

| member | source | states |
|---|---|---|
| Cart.Add | src/contexts/CartContext.jsx:70-87 | a variant already in the cart keeps the line count; a new one is appended as the last line with quantity 1 and the product's name and brand; the coupon is untouched |
| Cart.AddExistingLine | src/contexts/CartContext.jsx:72-77 | with unique ids, adding a variant already at line k raises exactly that line's quantity by 1 and leaves every other line equal |
| Cart.AddPreservesValid | src/contexts/CartContext.jsx:70-87 | adding keeps variant ids unique and every quantity at least 1 |
| Cart.AddIncrementsItemCount | src/components/shared/Navbar.jsx:45 | the navbar count (sum of quantities) goes up by exactly one per add |
| Cart.Remove | src/contexts/CartContext.jsx:91-93 | no line holding the id remains; the other lines are exactly those kept; the coupon is untouched |
| Cart.RemoveCutsOneLine | src/contexts/CartContext.jsx:91-93 | with unique ids, removing the variant at position k yields the cart with exactly that line cut out, the rest in order |
| Cart.RemoveAbsent | src/contexts/CartContext.jsx:92 | removing an id that is not in the cart changes nothing |
| Cart.RemovePreservesValid | src/contexts/CartContext.jsx:91-93 | removal keeps the cart invariant |
| Cart.UpdateQuantity | src/contexts/CartContext.jsx:102-108 | below 1 it equals removal; otherwise only the matching line's quantity changes and the length and coupon are kept |
| Cart.UpdateQuantityPreservesValid | src/contexts/CartContext.jsx:102-108 | setting a quantity keeps the cart invariant |
| Cart.Clear | src/contexts/CartContext.jsx:96-100 | an empty cart with no coupon and a navbar count of 0 |
| Cart.ApplyCoupon | src/contexts/CartContext.jsx:49-62 | a blank code sends nothing and changes nothing; success stores the returned coupon; failure clears the coupon; the lines never change |
| Cart.ApplyCouponReplacesWholesale | src/contexts/CartContext.jsx:54-61 | once a request is sent, the resulting state does not depend on the coupon applied before |
| Cart.RemoveCoupon | src/contexts/CartContext.jsx:64-67 | no coupon afterwards, lines untouched |
| Cart.EmptyCartValid | src/contexts/CartContext.jsx:96-100 | the empty cart satisfies the invariant and counts 0 items |
| Pricing.Discount | src/pages/Cart.jsx:20-28 | 0 without a coupon; otherwise the raw discount clamped to the subtotal |
| Pricing.Total | src/pages/Cart.jsx:20-30 | equals the subtotal without a coupon; never negative with one; exactly the subtotal minus the raw discount when that discount lies between 0 and the subtotal, and 0 when it reaches the subtotal |
| Pricing.TotalNonNegative | src/pages/Cart.jsx:27-30 | with non-negative prices and positive quantities the total is never negative |
| Pricing.PercentageTotal | src/pages/Cart.jsx:22-23 | a PERCENTAGE coupon of at most 100 leaves subtotal × (100 − value) / 100 |
| Pricing.FixedTotal | src/pages/Cart.jsx:24-27 | any other type takes the fixed value off, and the total bottoms out at 0 |
| Pricing.SubtotalConcat | src/pages/Cart.jsx:18 | the subtotal of a concatenation is the sum of the subtotals |
| Pricing.AddRaisesSubtotal | src/pages/Cart.jsx:18 | adding a variant raises the subtotal by exactly its unit price |
| Pricing.RemoveLowersSubtotal | src/pages/Cart.jsx:18 | removing line k lowers the subtotal by exactly that line's total |
| Pricing.Minus | src/pages/Cart.jsx:65 | the minus button removes a line at quantity 1; otherwise it sets quantity − 1 on the lines of that variant and leaves every other line, and every other field of those lines, as it was |
| Pricing.Plus | src/pages/Cart.jsx:67 | the plus button sets quantity + 1 on the lines of that variant and leaves every other line, and every other field of those lines, as it was |
| Pricing.MinusAtOneRemoves | src/pages/Cart.jsx:65 | minus at quantity 1 cuts exactly that line out |
| Pricing.PlusThenMinus | src/pages/Cart.jsx:65-67 | plus then minus on the same line restores the cart |
| Checkout.OrderItems | src/pages/Checkout.jsx:56-60 | one item per cart line in cart order, carrying variant id, quantity and price unchanged |
| Checkout.BuildOrderRequest | src/pages/Checkout.jsx:45-61 | the shipping and guest fields are merged in, with the payment method and the items; totalPrice is the undiscounted subtotal |
| Checkout.ItemsTotalIsSubtotal | src/pages/Checkout.jsx:45-60 | the total sent agrees with the sum over the items sent |
| Checkout.RequestIgnoresCoupon | src/pages/Checkout.jsx:45-54 | the request is the same whatever coupon is applied, and its total is the coupon-free cart total |
| Checkout.View | src/pages/Checkout.jsx:28-33 | an empty cart redirects to /cart with an error toast; the guest fields show exactly when nobody is signed in |
| Checkout.ViewFollowsCart | src/pages/Checkout.jsx:28-33 | the form shows exactly when the order it would submit has items; after clearing the cart the page redirects, after adding any variant it shows the form |
| Checkout.Submit | src/pages/Checkout.jsx:63-79 | a failure keeps the cart, stays and ends loading; PAYMOB keeps the cart and redirects to the iframe with the payment key; cash on delivery clears the cart and navigates to success |
| Checkout.SubmitClearsOnlyCashOnDelivery | src/pages/Checkout.jsx:67-75 | a non-empty cart is emptied exactly when the order was placed and the method is not PAYMOB |
| Checkout.StayingResetsLoading | src/pages/Checkout.jsx:76-79 | the page ends not loading exactly when it stays |
| JsSet.FromSeq | src/pages/CategoryPage.jsx:30-32 | `new Set(xs)` has no duplicates and exactly the members of xs |
| JsSet.Toggle | src/pages/CategoryPage.jsx:99-101 | the toggled value flips membership and every other value keeps its membership |
| JsSet.ToggleNoDup | src/pages/CategoryPage.jsx:99-101 | toggling keeps a set free of duplicates |
| JsSet.ToggleTwice | src/pages/CategoryPage.jsx:99-101 | toggling twice restores the members; when the value was absent it restores the sequence |
| CategoryFilters.GetOrElse | src/pages/CategoryPage.jsx:33-35 | the first value of a key, or the fallback when it is missing or empty |
| CategoryFilters.InitialFilters | src/pages/CategoryPage.jsx:29-36 | the sets are duplicate-free, hold the parsed subcategory ids and every brands and sizes value; prices default to "" and sort to "default" |
| CategoryFilters.ProductQuery | src/pages/CategoryPage.jsx:47-55 | one pair per set element; minPrice and maxPrice only when non-empty; sort only when not "default"; page always |
| CategoryFilters.ParsePrinted | src/pages/CategoryPage.jsx:30-49 | printing subcategory ids and parsing them back gives the ids again |
| CategoryFilters.QueryRoundTrip | src/pages/CategoryPage.jsx:29-55 | writing well-formed filters into the query and reading it back with getInitialFilters gives the same filters |
| CategoryFilters.ProductsRequestFor | src/pages/CategoryPage.jsx:41-59 | nothing is fetched before the category is known; a parent category uses its own products endpoint, any other category the products endpoint with categoryId; the id in the URL is the route's, whatever category is held |
| CategoryFilters.EndpointsCarrySameFilters | src/pages/CategoryPage.jsx:57-59 | both endpoints carry the same filter values under every key but categoryId |
| CategoryFilters.ToggleSubcategory | src/pages/CategoryPage.jsx:97-104 | the id's membership flips, others keep theirs, every other field is kept, page goes to 0 |
| CategoryFilters.ToggleText | src/pages/CategoryPage.jsx:97-104 | the same for a brand or size |
| CategoryFilters.ToggleTextTwice | src/pages/CategoryPage.jsx:97-104 | toggling keeps sets duplicate-free; toggling twice restores the set |
| CategoryFilters.ToggleSubcategoryTwice | src/pages/CategoryPage.jsx:97-104 | the same for subcategory ids |
| CategoryFilters.PriceChange | src/pages/CategoryPage.jsx:106-110 | the stored price is the typed text with every character but digits and '.' dropped, in minPrice for "min" and in maxPrice for any other name; the other filters are kept and the page goes to 0 |
| CategoryFilters.PriceChangeTyped | src/pages/CategoryPage.jsx:106-110 | typing one more character appends it to the stored price when it is a digit or '.', and otherwise changes nothing; the other price and filters stay |
| Text.KeepPriceCharsConcat | src/pages/CategoryPage.jsx:107 | the cleaning keeps characters in order: cleaning a + b is cleaning a followed by cleaning b |
| CategoryFilters.SortChange | src/pages/CategoryPage.jsx:112-114 | only sort changes, page goes to 0 |
| CategoryFilters.SortChangeReachesQuery | src/pages/CategoryPage.jsx:29-55 | after a sort choice the first page is requested, `sort` is sent exactly when it is not "default", and reading the query back gives the filters with only the sort changed |
| CategoryFilters.FetchDone | src/pages/CategoryPage.jsx:61-70 | load-more appends, a plain fetch replaces, the pager follows the page; a failure keeps the list and toasts |
| CategoryFilters.NextPage | src/pages/CategoryPage.jsx:116-118 | while Load More is shown, the page asked for is a later page that exists |
| CategoryFilters.LoadMoreKeepsShown | src/pages/CategoryPage.jsx:63 | a load-more keeps every product already shown in place |
| CategoryFilters.InitialHidesLoadMore | src/pages/CategoryPage.jsx:167 | no Load More button before the first fetch |
| UseFilters.Initial | src/hooks/UseFilters.jsx:9-14 | sets from every subcategory (through Number), brands and sizes value; prices default to "" and sort to "default" |
| UseFilters.BrandChange | src/hooks/UseFilters.jsx:23-33 | the brand's membership flips; the new brands params are exactly the new set; every other key is preserved |
| UseFilters.BrandChangeReadsBack | src/hooks/UseFilters.jsx:9-32 | reading the rewritten params back gives the new brand set and everything else as before |
| UseFilters.BrandChangeTwice | src/hooks/UseFilters.jsx:23-33 | changing the same brand twice restores the brand set and every other key's params; the brand pairs come back unchanged only when the brand was not selected, otherwise it moves to the end |
| UseFilters.BrandChangeTwiceReorders | src/hooks/UseFilters.jsx:23-33 | with brands ["a", "b"], changing "a" twice gives ["b", "a"]: the same set in a different order |
| ProductDetails.SelectionAfterLoad | src/pages/ProductDetails.jsx:24-26 | a fetched product with variants selects its first; one without keeps the previous selection, which may belong to the product shown before |
| ProductDetails.LoadDone | src/pages/ProductDetails.jsx:19-33 | success shows the fetched product and selects as SelectionAfterLoad says; a failure keeps the product and selection shown before and raises "Failed to fetch product details."; loading ends either way |
| ProductDetails.View | src/pages/ProductDetails.jsx:47-48 | the spinner exactly while loading, the not-found message exactly when loaded without a product, otherwise the stored product and selection |
| ProductDetails.LoadOutcomes | src/pages/ProductDetails.jsx:19-48 | a failed first load ends on the not-found message with the toast, a failed later load keeps the earlier product on screen, and a successful load shows the fetched product with a size list that renders |
| ProductDetails.FailedFirstLoadNotFound | src/pages/ProductDetails.jsx:27-48 | from the freshly mounted page a failed load goes from the spinner to the not-found message |
| ProductDetails.AvailableColors | src/pages/ProductDetails.jsx:51 | every variant colour once, no duplicates |
| ProductDetails.SizesForColor | src/pages/ProductDetails.jsx:52-54 | exactly the sizes of the variants of that colour |
| ProductDetails.SizesForColorConcat | src/pages/ProductDetails.jsx:52-54 | the sizes follow variant order, repeats kept: those of a + b are those of a followed by those of b |
| ProductDetails.SelectColor | src/pages/ProductDetails.jsx:56-61 | the variant of that colour with the least index; unchanged when there is none |
| ProductDetails.SelectSize | src/pages/ProductDetails.jsx:63-68 | the colour is kept; the first variant of that colour and size, or unchanged when there is none |
| ProductDetails.SelectionStaysInProduct | src/pages/ProductDetails.jsx:56-68 | every selection step keeps the selection among the product's variants |
| ProductDetails.SelectedIsOffered | src/pages/ProductDetails.jsx:51-54 | a variant's colour is offered, and its size is offered for that colour |
| ProductDetails.OfferedSizeSelects | src/pages/ProductDetails.jsx:63-68 | every offered size button selects a variant of exactly that size and colour |
| ProductDetails.AddToCart | src/pages/ProductDetails.jsx:37-41 | no-op without a selection, otherwise the cart's add |
| ProductDetails.ButtonLabel | src/pages/ProductDetails.jsx:120 | "Add to Cart" exactly for positive stock, otherwise "Out of Stock" |
| ProductDetails.LabelMatchesEnablement | src/pages/ProductDetails.jsx:119-120 | a disabled button always reads "Out of Stock" |
| ProductDetails.CanAddToCart | src/pages/ProductDetails.jsx:119 | the button is never enabled without a selection, always for a variant in stock, never at stock exactly 0 |
| ProductDetails.EnabledButtonAdds | src/pages/ProductDetails.jsx:116-119 | pressing an enabled button puts the selected variant in the cart; without a selection the button is disabled and the cart unchanged |
| ProductDetails.ImageUrl | src/pages/ProductDetails.jsx:44-46 | "" without a selected image path, otherwise base + path |
| ProductDetails.CardAndPageShowSameImage | src/pages/ProductDetails.jsx:44-46 | for the same stored path the product card's image source is the page's image URL plus a space, and both are empty without a path |
| ProductDetails.SizesAsWritten | src/pages/ProductDetails.jsx:52-54 | the size list as written throws exactly when nothing is selected and there is a variant for the filter callback to read the colour on; with no variants it is empty |
| ProductDetails.NoVariantsNoSizes | src/pages/ProductDetails.jsx:52-54 | a product with no variants shows no sizes, whatever selection is left over |
| ProductDetails.Sizes | src/pages/ProductDetails.jsx:52-54 | the corrected list: empty without a selection, otherwise the sizes for the selected colour |
| ProductDetails.SizesRenderAfterLoad | src/pages/ProductDetails.jsx:24-54 | after any load the list as written does not throw and equals the optional-chained list; a product with variants offers its first variant's size |
| ProductDetails.StaleSelectionAddsPreviousVariant | src/pages/ProductDetails.jsx:24-41 | after moving to a product without variants the previous product's variant stays selected and is what the button adds, under the new product's name |
| ProductCard.Price | src/components/shared/ProductCard.jsx:81-95 | sale display exactly when on sale, with the sale price below the struck base price; "Price unavailable" exactly without a base price |
| ProductCard.ZeroSalePriceNeverOnSale | src/components/shared/ProductCard.jsx:18 | a sale price of 0 never counts as a sale |
| ProductCard.IsNewWindow | src/components/shared/ProductCard.jsx:14-15 | "new" holds for exactly the thirty days after release, boundary excluded |
| ProductCard.DisplayName | src/components/shared/ProductCard.jsx:77 | the name, or "Unnamed Product" |
| ProductCard.DisplayNameStable | src/components/shared/ProductCard.jsx:77 | the title shown is its own title, and a blank name and a missing one both show "Unnamed Product" |
| ProductCard.ImageSrc | src/components/shared/ProductCard.jsx:9-11 | "" without an image path, otherwise base + path + a space |
| ProductCard.LinkAsWrittenNeverMatches | src/components/shared/ProductCard.jsx:22 | the card's link as written never matches the product route |
| ProductCard.Link | src/router/index.jsx:52 | the corrected link matches the route with the product's id |
| ProductCard.LinkRoundTrip | src/router/index.jsx:52 | the product page parses exactly the card's id back from the corrected link |
| HeroSlider.JsRem | src/components/shared/HeroSlider.jsx:20 | JavaScript `%`: in range for non-negative operands, sign of the dividend otherwise |
| HeroSlider.Next | src/components/shared/HeroSlider.jsx:19-22 | one slide on, wrapping to 0; autoplay off |
| HeroSlider.Prev | src/components/shared/HeroSlider.jsx:24-27 | one slide back, wrapping to n − 1; autoplay off |
| HeroSlider.GoTo | src/components/shared/HeroSlider.jsx:29-32 | straight to the slide; autoplay off |
| HeroSlider.Tick | src/components/shared/HeroSlider.jsx:9-16 | the timer advances like the right arrow but keeps autoplay |
| HeroSlider.NavigationStopsTimer | src/components/shared/HeroSlider.jsx:9-32 | after any manual navigation no timer is scheduled |
| HeroSlider.PrevNextInverse | src/components/shared/HeroSlider.jsx:19-27 | prev after next and next after prev return to the slide |
| HeroSlider.FullCircle | src/components/shared/HeroSlider.jsx:20 | n presses of next return to the starting slide |
| HeroSlider.Render | src/components/shared/HeroSlider.jsx:34-36 | nothing without banners; arrows and dots only for more than one |
| HeroSlider.ArrowsShownExactlyWhenTheyMove | src/components/shared/HeroSlider.jsx:19-36 | the arrows are shown exactly when pressing them changes the slide; every dot leads to a slide in range |
| Orders.AdminBadge | src/pages/admin/ManageOrders.jsx:32-39 | specific classes for PROCESSING, SHIPPED and DELIVERED only |
| Orders.CustomerBadge | src/pages/TrackOrderPage.jsx:45-54 | specific classes for the five known statuses, the default otherwise |
| Orders.BadgeTablesAgree | src/pages/OrderHistory.jsx:29-38 | the customer and admin tables agree exactly on statuses that are not payment statuses |
| Orders.CustomerBadgesDistinct | src/pages/OrderHistory.jsx:29-38 | distinct known statuses get distinct classes |
| Orders.ShortId | src/pages/OrderHistory.jsx:54 | at most 8 characters, the upper-cased prefix of the tracking number |
| Orders.ShortIdOfCopied | src/pages/admin/ManageOrders.jsx:69-71 | the shown id is a prefix of the upper-cased copied id, equal to it only for short upper-case numbers |
| Orders.Clean | src/pages/TrackOrderPage.jsx:19 | trimmed, only the first '#' removed; empty exactly for blank input or a lone '#' |
| Orders.CleanRemovesOnlyFirstHash | src/pages/TrackOrderPage.jsx:19 | "##12" becomes "#12" |
| Orders.CleanOfPlain | src/pages/TrackOrderPage.jsx:19 | a trimmed number without '#' passes unchanged |
| Orders.BeginTrack | src/pages/TrackOrderPage.jsx:21-30 | an empty cleaned number sets the error, sends nothing and keeps the order; otherwise the error and order are cleared and the cleaned number is requested |
| Orders.FinishTrack | src/pages/TrackOrderPage.jsx:31-38 | the order on success; the not-found message for 404; the generic message otherwise |
| Orders.TrackOutcomes | src/pages/TrackOrderPage.jsx:15-43 | the whole submit ends not loading with exactly one of an order or an error |
| Orders.Entry | src/pages/OrderHistory.jsx:65-71 | an entry carries the item's name, "colour / size", quantity and price |
| Orders.Card | src/pages/OrderHistory.jsx:50-74 | the heading "Order #" + short id and one entry per item, in order |
| Orders.FetchHistory | src/pages/OrderHistory.jsx:14-27 | loading ends; the orders on success; a toast and no orders on failure |
| Orders.HistoryPage | src/pages/OrderHistory.jsx:40-79 | a spinner while loading, the no-orders message for an empty list, one card per order otherwise |
| Orders.FailedHistoryShowsNoOrders | src/pages/OrderHistory.jsx:19-23 | a failed fetch shows the no-orders message |
| Orders.HistoryListsEveryItem | src/pages/OrderHistory.jsx:65 | each card lists exactly one entry per order item, in order |
| Orders.SortNewestFirst | src/pages/admin/ManageOrders.jsx:20 | the result is sorted newest first and is a permutation of the input |
| Orders.SortIdempotent | src/pages/admin/ManageOrders.jsx:20 | sorting a sorted list changes nothing |
| Orders.FetchAdminOrders | src/pages/admin/ManageOrders.jsx:15-30 | the response sorted on success; a toast on failure; loading ends |
| Orders.Subtitle | src/pages/admin/ManageOrders.jsx:48 | "A total of N orders found", where N reads back as the number of orders |
| Orders.SubtitleCountsResponse | src/pages/admin/ManageOrders.jsx:48 | after a successful fetch the subtitle counts the response |
| ManageProducts.OrElse | src/pages/admin/ManageProducts.jsx:32-33 | `x || fallback` for numbers: 0 and missing give the fallback |
| ManageProducts.FetchDone | src/pages/admin/ManageProducts.jsx:22-51 | paged answers set the page or else the requested page, and totalPages or else 1; a plain array resets to page 0 of 1; an unexpected shape empties the list with a toast; a failure keeps the list with a toast |
| ManageProducts.GoToPage | src/pages/admin/ManageProducts.jsx:85-88 | a fetch only for a page in [0, totalPages) |
| ManageProducts.ButtonsMatchGoToPage | src/pages/admin/ManageProducts.jsx:137-141 | Previous and Next are enabled exactly when goToPage would fetch their page |
| ManageProducts.PlainListDisablesPager | src/pages/admin/ManageProducts.jsx:36-40 | after a plain array both pager buttons are disabled |
| ManageProducts.PagedAnswerInRange | src/pages/admin/ManageProducts.jsx:30-33 | a paged answer covering the requested page keeps the pager in range |
| ManageProducts.OpenDeleteModal | src/pages/admin/ManageProducts.jsx:57-60 | remembers the product and opens the modal, list untouched |
| ManageProducts.CloseDeleteModal | src/pages/admin/ManageProducts.jsx:62-65 | forgets the product and closes the modal, list untouched |
| ManageProducts.HandleDelete | src/pages/admin/ManageProducts.jsx:67-83 | success re-fetches the current page with a success toast; 409 shows the server's text or "in use"; other failures a generic toast; the modal closes in every case |
| ManageProducts.ArchiveClosesModal | src/pages/admin/ManageProducts.jsx:67-83 | an archive always ends with the modal closed and the list unchanged until the re-fetch of the same page |
| MediaManager.MediaQuery | src/pages/admin/media/MediaManager.jsx:33-40 | page, size 20 and sort uploadedAt,desc always; folder exactly when one is selected |
| MediaManager.ReadFolderKey | src/pages/admin/media/MediaManager.jsx:38-40 | the folder key reads back as the selected folder, or nothing |
| MediaManager.FetchMediaDone | src/pages/admin/media/MediaManager.jsx:41-48 | the page's files and pager on success; a toast on failure; loading ends |
| MediaManager.FetchMediaStable | src/pages/admin/media/MediaManager.jsx:41-48 | a failed request leaves the gallery as it was apart from loading; the same answer applied twice is applied once |
| MediaManager.FetchFoldersDone | src/pages/admin/media/MediaManager.jsx:21-28 | the folder list becomes the server's answer; a failure keeps the list and raises "Could not fetch media folders." |
| MediaManager.FoldersFollowLastAnswer | src/pages/admin/media/MediaManager.jsx:21-28 | a toast exactly on failure, the same answer twice is the answer once, and an upload triggers a folder refetch only when it succeeded |
| MediaManager.BeginUpload | src/pages/admin/media/MediaManager.jsx:59-71 | no files: nothing; a blank folder: an error toast and no request; otherwise uploading with every file and the folder as typed |
| MediaManager.UploadLifecycle | src/pages/admin/media/MediaManager.jsx:59-87 | nothing changes unless a request goes out; when one does, the uploading flag it set is cleared when it settles, the files shown are untouched, and the list is refetched when it shows all folders |
| MediaManager.StoredFolderName | src/pages/admin/media/MediaManager.jsx:80 | the folder trimmed, then every character lower-cased, length kept |
| MediaManager.UploadDone | src/pages/admin/media/MediaManager.jsx:73-87 | success refreshes the folders, and refreshes the files only when viewing all files or the stored folder; failure shows the server text or the fallback |
| MediaManager.UploadRefreshesStoredFolder | src/pages/admin/media/MediaManager.jsx:80-82 | viewing the stored folder, an upload typed with padding still refreshes |
| MediaManager.UploadSkipsTypedFolder | src/pages/admin/media/MediaManager.jsx:80-82 | viewing a folder whose name has capitals, the upload to it as typed does not refresh |
| MediaManager.FileClick | src/pages/admin/media/MediaManager.jsx:90-94 | a click selects only in select mode with a handler |
| MediaManager.ModesAreExclusive | src/pages/admin/media/MediaManager.jsx:90-94 | manage mode never selects; select mode offers no file actions |
| MediaManager.RemoveFile | src/pages/admin/media/MediaManager.jsx:101 | exactly the files with other ids remain |
| MediaManager.RemoveFileConcat | src/pages/admin/media/MediaManager.jsx:101 | the filter keeps order: removing from a + b is removing from a followed by removing from b |
| MediaManager.MarkPublic | src/pages/admin/media/MediaManager.jsx:112 | only the file with that id becomes public; nothing else changes |
| MediaManager.HandleDelete | src/pages/admin/media/MediaManager.jsx:96-106 | nothing without confirmation; success removes the file; failure keeps the list with a toast |
| MediaManager.HandleMakePublic | src/pages/admin/media/MediaManager.jsx:108-116 | success marks the file public; failure keeps the list with a toast |
| MediaManager.RemoveFileCommutes | src/pages/admin/media/MediaManager.jsx:101 | deleting two files in either order gives the same list |
| MediaManager.RemoveAbsentFile | src/pages/admin/media/MediaManager.jsx:101 | deleting an id not in the list changes nothing |
| MediaManager.MarkPublicIdempotent | src/pages/admin/media/MediaManager.jsx:112 | making a file public twice is the same as once |
| ProductForms.FreshFormPostsOneBlankVariant | src/pages/admin/AddProduct.jsx:20-34 | an untouched add form posts exactly one variant with every field empty, its image path as null and no file, and offers no remove button |
| ProductForms.AddVariant | src/pages/admin/AddProduct.jsx:92-94 | one blank variant appended, the others unchanged |
| ProductForms.RemoveVariant | src/pages/admin/AddProduct.jsx:96-98 | exactly index i is removed, order preserved; an index out of range changes nothing |
| ProductForms.RemoveKeepsOneVariant | src/pages/admin/AddProduct.jsx:157 | removal, offered only for more than one variant, never leaves the list empty |
| ProductForms.ChangeField | src/pages/admin/AddProduct.jsx:62-65 | only that field of that variant changes |
| ProductForms.ProductFieldReachesPayload | src/pages/admin/AddProduct.jsx:51-53 | on both forms the typed value reaches the request in that field (and as the category reference for the category), and every other field, variant record and file stays as it was |
| ProductForms.ChooseFileForNew | src/pages/admin/AddProduct.jsx:57-61 | the variant's file and preview are set and its imageUrl cleared; others unchanged |
| ProductForms.ChooseFileForExisting | src/pages/admin/UpdateProduct.jsx:70-73 | the variant's file and preview are set and its imageUrl kept |
| ProductForms.PickMediaAsWritten | src/pages/admin/AddProduct.jsx:68-80 | the add form's pick: no-op without an active index; otherwise the variant's imageUrl becomes undefined and its preview base + "undefined" |
| ProductForms.PickMedia | src/pages/admin/UpdateProduct.jsx:80-93 | no-op without an active index; otherwise only that variant gets the file's url and preview, the file cleared |
| ProductForms.NewProductPayload | src/pages/admin/AddProduct.jsx:104-121 | one record per variant with "" imageUrl sent as null; the images are the chosen files in variant order |
| ProductForms.ExistingProductPayload | src/pages/admin/UpdateProduct.jsx:113-138 | each record keeps its id; imageUrl is null exactly when a new file was chosen; images only for variants with a new file, in order |
| ProductForms.ChosenFilesMembers | src/pages/admin/AddProduct.jsx:114 | the chosen files are exactly the variants' files, skipping variants without one |
| ProductForms.ProductPart | src/pages/admin/UpdateProduct.jsx:118 | the product part carries category.id = categoryId |
| ProductForms.LoadVariants | src/pages/admin/UpdateProduct.jsx:46-50 | server fields kept, no file, preview base + imageUrl or none |
| ProductForms.LoadFields | src/pages/admin/UpdateProduct.jsx:40-45 | `category?.id` or the empty text: the category is held as the loaded number, or as the empty text when the product has none or its id is 0 |
| ProductForms.UneditedSaveRoundTrip | src/pages/admin/UpdateProduct.jsx:113-138 | saving a loaded product unedited sends the category back as the loaded number, every variant's id and image path as loaded, and no files |
| ProductForms.ReselectedCategorySendsText | src/pages/admin/UpdateProduct.jsx:118 | choosing the loaded category again in the select sends the same id, but as text where the unedited form sends the number |
| ProductForms.LoadDone | src/pages/admin/UpdateProduct.jsx:30-57 | both requests succeed: the fields, variants and category choices are stored; either fails: nothing is stored, "Failed to fetch product data." is shown and the admin is sent to /admin/products; the spinner stops either way |
| ProductForms.UpdateSubtitle | src/pages/admin/UpdateProduct.jsx:151-157 | no form while loading or without a product; otherwise the header reads "Editing: " + the product name |
| ProductForms.UpdateLoadOutcomes | src/pages/admin/UpdateProduct.jsx:30-157 | the page is left exactly when a request failed, with a toast exactly then; a failed first load never shows the form; a successful one shows it under the product's name and an unedited save sends back what was loaded |
| ProductForms.NewFormLastChoiceWins | src/pages/admin/AddProduct.jsx:57-80 | after a file then a media pick, or the reverse, only the last choice is sent |
| ProductForms.ExistingFormLastChoiceWins | src/pages/admin/UpdateProduct.jsx:70-93 | the same for the update form |
| ProductForms.ChoosingAddsOneFile | src/pages/admin/AddProduct.jsx:57-61 | choosing a file for a variant that had none adds exactly that file to the upload at its place |
| ProductForms.MediaPickAsWrittenLosesImage | src/pages/admin/AddProduct.jsx:73-74 | the add form as written previews base + "undefined" and sends neither a path nor a file for the picked variant |
| ProductForms.MediaPickKeepsImage | src/pages/admin/UpdateProduct.jsx:85-87 | the corrected pick previews base + url and sends the url |
| ProductForms.SubmitDone | src/pages/admin/AddProduct.jsx:123-131 | success toasts and navigates to the product list; failure shows the server text or the fallback |
| ProductForms.SubmitOutcomes | src/pages/admin/AddProduct.jsx:123-131 | the page is left exactly when the request succeeded, the toast is a success exactly then, and a failure shows the server's message or the form's own text |
| CategoryEditor.TitleAfterLoad | src/pages/admin/CategoryEditor.jsx:46-130 | an edit page starts behind the spinner and, once the category is loaded, is headed "Editing: " with the loaded name; a failed load ends loading and leaves for the list; a create page never waits and its heading ignores the form |
| CategoryEditor.ParentField | src/pages/admin/CategoryEditor.jsx:53 | "" for no parent or id 0, otherwise text that reads back as the id |
| CategoryEditor.Loaded | src/pages/admin/CategoryEditor.jsx:50-58 | the stored fields fill the form; a stored image also becomes the preview |
| CategoryEditor.LoadDone | src/pages/admin/CategoryEditor.jsx:46-65 | loading ends; a failure toasts and navigates back to the category list |
| CategoryEditor.CategoriesDone | src/pages/admin/CategoryEditor.jsx:37-44 | the flat list on success; a toast and no choices on failure |
| CategoryEditor.CategoriesFeedParentOptions | src/pages/admin/CategoryEditor.jsx:136-140 | after the categories request the create page offers every category returned, an edit page every one but the edited category, and a failure none |
| CategoryEditor.ParentOptions | src/pages/admin/CategoryEditor.jsx:138 | exactly the categories whose id differs from Number(route id) |
| CategoryEditor.NotOwnParent | src/pages/admin/CategoryEditor.jsx:138 | the category being edited is never offered as its own parent |
| CategoryEditor.CreateOffersAll | src/pages/admin/CategoryEditor.jsx:138 | on the create page every category is offered, in order |
| CategoryEditor.OptionValue | src/pages/admin/CategoryEditor.jsx:139 | an option's value parses back to the category's id |
| CategoryEditor.Change | src/pages/admin/CategoryEditor.jsx:72-74 | only the named field changes |
| CategoryEditor.ChooseFile | src/pages/admin/CategoryEditor.jsx:76-83 | no file changes nothing; a file is set, previewed and clears the library path |
| CategoryEditor.PickMediaAsWritten | src/pages/admin/CategoryEditor.jsx:85-90 | as written: the path becomes undefined, the preview base + "undefined", the file cleared, the modal closed |
| CategoryEditor.PickMedia | src/pages/admin/CategoryEditor.jsx:85-90 | corrected: the path and preview come from the file's url; the file cleared; the modal closed |
| CategoryEditor.EditsKeepOneImageSource | src/pages/admin/CategoryEditor.jsx:76-90 | no edit leaves both a chosen file and a library path |
| CategoryEditor.BuildPayload | src/pages/admin/CategoryEditor.jsx:96-107 | parent is parseInt(parentId) exactly when parentId is non-empty; the image part only when a file was chosen |
| CategoryEditor.SubmitRequest | src/pages/admin/CategoryEditor.jsx:110-114 | PUT to the category's path in edit mode, POST to the collection otherwise |
| CategoryEditor.SubmitDone | src/pages/admin/CategoryEditor.jsx:115-118 | "updated" or "created" toast and navigation on success; the server text or "An error occurred." on failure |
| CategoryEditor.SubmitOutcomes | src/pages/admin/CategoryEditor.jsx:109-121 | the body does not depend on the mode; a request is a PUT exactly when its success says "updated"; the page is left exactly on success; a failure always has a message |
| CategoryEditor.ParentChoiceRoundTrip | src/pages/admin/CategoryEditor.jsx:100 | choosing a category from the list sends exactly its id as the parent |
| CategoryEditor.UneditedSaveKeepsCategory | src/pages/admin/CategoryEditor.jsx:96-102 | saving a loaded category unedited sends its name, description, parent and image path back |
| CategoryEditor.MediaPickAsWrittenLosesImage | src/pages/admin/CategoryEditor.jsx:86-87 | as written a library pick previews base + "undefined" and sends neither a path nor a file |
| CategoryEditor.MediaPickSendsPath | src/pages/admin/CategoryEditor.jsx:85-90 | corrected, a library pick sends its path and no file, after any earlier choice |
| CategoryTree.RowCount | src/pages/admin/ManageCategories.jsx:100-102 | one row per category of the tree |
| CategoryTree.RowsAreTheTree | src/components/shared/CategoryRow.jsx:21-23 | the categories of the rows are exactly the categories of the tree |
| CategoryTree.RowsConcat | src/pages/admin/ManageCategories.jsx:100-102 | sibling lists render one after the other |
| CategoryTree.RowsWellNested | src/pages/admin/ManageCategories.jsx:33-35 | rows start at the base level and are never more than one level deeper than the row above |
| CategoryTree.ChildrenFollowParent | src/components/shared/CategoryRow.jsx:21-23 | a category's row comes first and its children's rows follow directly, one level deeper |
| CategoryTree.AdminRowView | src/pages/admin/ManageCategories.jsx:16-29 | indent 1 + 1.5·level rem; arrow exactly below the top level; an archived category is struck through and offers "Unarchive" |
| CategoryTree.SharedRowView | src/components/shared/CategoryRow.jsx:10-19 | indent 1.5 + 1.5·level rem; arrow exactly below the top level; always "Archive" |
| CategoryTree.RowViewsAgree | src/components/shared/CategoryRow.jsx:11-18 | the two row components differ by half a rem of indent and agree otherwise exactly for categories that are not archived |
| CategoryTree.DeeperIndentedFurther | src/pages/admin/ManageCategories.jsx:17 | a deeper row is indented 1.5 rem per level further |
| CategoryTree.FetchDone | src/pages/admin/ManageCategories.jsx:46-57 | the tree on success; the old tree and a toast on failure; loading ends |
| CategoryTree.PageAfterFetch | src/pages/admin/ManageCategories.jsx:46-102 | after a fetch the table shows one row per category of the returned tree in pre-order, or after a failure the rows of the tree shown before |
| CategoryTree.ModalActionText | src/pages/admin/ManageCategories.jsx:77 | "Unarchive" exactly for an archived selection, "Archive" otherwise |
| CategoryTree.ConfirmVariant | src/pages/admin/ManageCategories.jsx:112 | a danger button exactly for "Archive" |
| CategoryTree.ModalMatchesRow | src/pages/admin/ManageCategories.jsx:77 | the modal offers the same action as the row button that opened it |
| CategoryTree.HandleToggle | src/pages/admin/ManageCategories.jsx:63-75 | nothing selected: a no-op; otherwise the archive request is sent, success toasts and re-fetches, failure shows the server text or the fallback, and the selection is cleared |
| CategoryTree.ToggleClosesModal | src/pages/admin/ManageCategories.jsx:63-75 | confirming always closes the modal and sends the archive request; the tree is unchanged until the re-fetch |
| CouponEditor.Build | src/pages/admin/CouponEditor.jsx:24-29 | the code upper-cased; the type as PERCENTAGE or FIXED_AMOUNT; the value as entered; an empty date as null |
| CouponEditor.DiscountTypeRoundTrip | src/pages/admin/CouponEditor.jsx:48-51 | the select offers exactly the two types, each under its own name |
| CouponEditor.BuildRoundTrip | src/pages/admin/CouponEditor.jsx:24-29 | the body loses only the case of the code; building again from it gives the same body |
| CouponEditor.InitialDefaults | src/pages/admin/CouponEditor.jsx:14-17 | a fresh form posts a percentage coupon without an expiry date |
| CouponEditor.SubmitDone | src/pages/admin/CouponEditor.jsx:31-39 | success toasts and navigates to the coupons; failure shows the server text or the fallback |
| CouponEditor.SubmitOutcomes | src/pages/admin/CouponEditor.jsx:31-39 | the page is left exactly when the coupon was created, the toast is a success exactly then, and a failure always has a message, the server's when it sent one |
| Dashboard.Merge | src/pages/admin/Dashboard.jsx:40-65 | each figure comes from its own fulfilled result or is 0; one toast per failed count request, in order; a failed stats request is silent |
| Dashboard.Settle | src/pages/admin/Dashboard.jsx:67-68 | the merged stats with loading over |
| Dashboard.FiguresIndependent | src/pages/admin/Dashboard.jsx:46-65 | each figure depends only on its own request |
| Dashboard.ToastsCountFailures | src/pages/admin/Dashboard.jsx:46-58 | as many toasts as failed count requests, none exactly when both succeed |
| Dashboard.AllFailedShowsZeros | src/pages/admin/Dashboard.jsx:44 | when everything fails the page shows zeros, not the spinner |
| Auth.Mount | src/contexts/AuthContext.jsx:9-11 | the stored token, no user, loading |
| RouteGuards.MountThenValidate | src/contexts/AuthContext.jsx:9-37 | on mount both guards wait; after validation the signed-in area opens exactly for a non-empty token with current claims, and a missing or empty stored token is left as it was |
| Auth.RoleOf | src/contexts/AuthContext.jsx:24 | the role claim, or ROLE_USER when it is missing or empty |
| Auth.Validate | src/contexts/AuthContext.jsx:13-37 | no token: no user; an undecodable or expired token is removed and leaves no user; otherwise the user from the claims; loading ends |
| Auth.ValidatedSession | src/contexts/AuthContext.jsx:13-37 | after validation there is a user exactly for a non-empty stored token with current claims, and that token stays stored |
| Auth.ValidateIdempotent | src/contexts/AuthContext.jsx:13-37 | running the effect again changes nothing |
| Auth.Login | src/contexts/AuthContext.jsx:39-42 | the token is stored and becomes the state's token |
| Auth.LoginThenValidate | src/contexts/AuthContext.jsx:39-42 | logging in with current claims gives the user with the subject's name and the role or ROLE_USER |
| Auth.Logout | src/contexts/AuthContext.jsx:44-48 | token removed, user dropped |
| Auth.LogoutThenValidate | src/contexts/AuthContext.jsx:44-48 | after logout no later validation produces a user |
| Auth.ExpiryIsFinal | src/contexts/AuthContext.jsx:19 | an expired token stays expired; a token without exp never expires |
| Auth.ValidUntilExpiry | src/contexts/AuthContext.jsx:19 | valid at the millisecond exp·1000, expired one millisecond later |
| RouteGuards.AdminRoute | src/router/AdminRoute.jsx:8-20 | a spinner exactly while loading; login without a user; the nested routes for ROLE_ADMIN; access-denied otherwise |
| RouteGuards.ProtectedRoute | src/router/ProtectedRoute.jsx:8-16 | a spinner exactly while loading; the nested routes for any user; login otherwise |
| RouteGuards.AdminImpliesSignedIn | src/router/AdminRoute.jsx:16-20 | whoever the admin guard admits, the user guard admits; the two differ exactly for a signed-in non-admin |
| RouteGuards.GuardsAfterValidation | src/router/AdminRoute.jsx:8-20 | after validation neither guard waits, and the admin area opens exactly for a current token with the admin role |
| RouteGuards.NoRoleClaimIsNoAdmin | src/contexts/AuthContext.jsx:24 | a token without a role claim is signed in but turned away from the admin area |
| RouteGuards.LogoutLocksOut | src/router/ProtectedRoute.jsx:16 | after logout both guards send the visitor to the login page |

## Left out

- Rendering, styling, icons, `formatCurrency` and date formatting: these are presentation, not logic.
- Local-storage persistence of the cart and coupon (`src/contexts/CartContext.jsx:17-47`): it is I/O.
- The success and info toasts of addToCart, removeFromCart and removeCoupon: they are notifications with no effect on state.
- `src/pages/CategoryPage.jsx:72-95`: these lines are garbled, since a catch block runs into a debounced URL writer whose header is missing. The URL sync there is not modelled.
- The category and brand lists fetched by CategoryPage, and its category load: only their results enter the model, as inputs.
- Debouncing in `src/hooks/UseFilters.jsx:16-18`: it is timing only; the params it writes are modelled.
- Decoding a JWT, reading `Date.now`, creating object URLs and the API base URL: these are parameters of the operations that use them.
- Number formatting of the price and discount values in payloads: they stay the text the form holds, as the source sends them.
- Auth.Validate: `exp` is an integer number of seconds; fractional or non-numeric `exp` claims are not modelled.
- Orders.SortNewestFirst: dates are integers compared directly; parsing date strings, invalid dates (NaN comparisons) and the engine's particular sort algorithm are not modelled. The model sorts stably and proves only sortedness and permutation.
- Dashboard.Merge: a fulfilled products answer is assumed to carry `totalElements`; an answer without it (which would show `undefined`) is not modelled.
- Pricing.Total: prices are exact reals; the browser's floating-point rounding of the subtotal, the percentage and the subtraction is not modelled.
- ProductDetails.AvailableColors: the page maps `product.variants` without a guard, so a product answer without a `variants` field would crash it; the model's product always carries a variant sequence, so that crash is not modelled.
- Percent-encoding of query strings: parameters are modelled as decoded key/value pairs, so `URLSearchParams` escaping and unescaping is not modelled.
- ManageProducts.FetchDone: a `content` array whose `page` or `totalPages` is present but not a number is not modelled.
- The product-form flows that fetch categories for the select (`src/pages/admin/AddProduct.jsx:39-49`): the fetch and its toast are not modelled.
- CouponEditor.Build: the code is upper-cased on ASCII letters only. JavaScript's `toUpperCase` maps every cased letter of Unicode and can lengthen a string ("ß" becomes "SS"), so the length and per-character clauses describe the program only for codes whose letters are ASCII.
- MediaManager.StoredFolderName: lower-cases ASCII capitals only; JavaScript's `toLowerCase` also maps capitals such as "É", so for a folder typed "Été" the program compares "été" with the selected folder where the model compares "Été".
- MediaManager.UploadDone: its refresh decision inherits the ASCII-only lower-casing of StoredFolderName.
- MediaManager.UploadRefreshesStoredFolder: stated for the ASCII-only lower-casing; it describes the program for folder names whose capitals are ASCII.
- Orders.ShortId: upper-cases ASCII letters only, which is exact for the hexadecimal tracking numbers the server issues.
- Text.ToNumber: `Number` is read on integer numerals only. "1.5", "1e3" and "0x10" are NaN in the model, while JavaScript reads them as 1.5, 1000 and 16.
- CategoryEditor.ParentOptions: compares ids with `Number(id)` of the route under that integer-only reading; a route id such as "1e1" or "0x10" would exclude a different category in the program.

## Findings

| source | as written | input that shows it | evidently intended | confidence | as-written member | corrected member |
|---|---|---|---|---|---|---|
| src/pages/admin/AddProduct.jsx:73-74 | the media pick reads `file.imageUrl`, but a media file's path is `url` (src/pages/admin/media/MediaGallery.jsx:16 and the comment at src/pages/admin/UpdateProduct.jsx:85) | pick any library file for a variant | store and preview `file.url`, as the update form does | high, not executed | ProductForms.MediaPickAsWrittenLosesImage | ProductForms.MediaPickKeepsImage |
| src/pages/admin/CategoryEditor.jsx:86-87 | the same pick in the category editor reads `file.imageUrl` | pick any library file for the category image | store and preview `file.url` | high, not executed | CategoryEditor.MediaPickAsWrittenLosesImage | CategoryEditor.MediaPickSendsPath |
| src/components/shared/ProductCard.jsx:22 | the link is `/ product / ${id} `, with spaces | any product card, e.g. id 7 gives "/ product / 7 " | `/product/${id}`, the route at src/router/index.jsx:52 | high, not executed | ProductCard.LinkAsWrittenNeverMatches | ProductCard.LinkRoundTrip |
