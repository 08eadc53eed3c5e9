# Storefront core in Dafny

A verified model of the logic at the heart of a React Native e-commerce app.

- **Cart store** (`src/hooks/useCart.tsx`): an ordered list of cart lines that the
  provider updates in place and writes through to persistent storage.
- **Catalog query** (`src/api/api.ts`): the URL that `fetchProducts` requests, then
  the client-side search filter and `sortProducts` applied to the response.
- **Product detail screen** (`src/screens/ProductDetailScreen.tsx`): the quantity
  stepper and image-gallery handlers, plus "Add to Cart".

Files and modules:

- `types.dfy` (`Types`): the records of `src/types/index.ts`. Prices are integer
  cents. A price range's `Infinity` maximum is `None`.
- `builtins.dfy` (`Builtins`): the JavaScript array and string built-ins the core
  relies on, each with its meaning proved.
  - `filter`, `map`, `findIndex`, `includes` and `join`.
  - `Split`, the partner of `join`.
  - `Array.prototype.sort`, as a stable insertion sort. ECMAScript requires the sort
    to be stable since the 2019 edition.
- `cart.dfy` (`Cart`): the cart operations as functions on the line list, and the
  `CartProvider` class.
  - The class has two fields: `cartItems`, and `storage`, a key-value map standing
    for AsyncStorage.
  - Its invariant `Valid()` states that storage always holds a snapshot of the
    current cart. So a restart, which builds a new provider from that storage,
    recovers exactly the cart as it was.
- `catalog.dfy` (`Catalog`): covers the query string, the search filter, `sortProducts`
  and `fetchProducts`.
  - The HTTP request is a function parameter from URL to an optional response.
  - `toLowerCase` and `localeCompare` are function parameters too.
  - The name orderings are proved under the hypothesis that `localeCompare(a, b) <= 0`
    is a total preorder.
- `productdetail.dfy` (`ProductDetail`): the handlers as transitions on a state value,
  with lemmas over any run of events.
  - The `ProductDetailScreen` class updates its two fields exactly as those
    transitions say.

## Model

| member | source | states |
|---|---|---|
| Builtins.Filter | src/api/api.ts:35-38 | the result is no longer than the input and holds only kept elements of the input |
| Builtins.FilterCounts | src/hooks/useCart.tsx:64 | filtering keeps every occurrence of a kept element and none of a dropped one |
| Builtins.FilterAppend | src/api/api.ts:35-38 | filtering a concatenation is the concatenation of the filtered parts, so input order is kept |
| Builtins.FilterKeepsAll | src/api/api.ts:35-38 | when every element is kept, the filter returns its input |
| Builtins.FilterKeepsNone | src/hooks/useCart.tsx:64 | when no element is kept, the filter returns the empty list |
| Builtins.FilterIdempotent | src/api/api.ts:35-38 | filtering twice by the same test equals filtering once |
| Builtins.Map | src/hooks/useCart.tsx:74-76 | same length, and each position holds the function applied to the input at that position |
| Builtins.FindIndex | src/hooks/useCart.tsx:51 | -1 exactly when no element matches, otherwise the first matching position |
| Builtins.Includes | src/api/api.ts:36-37 | true exactly when the term occurs at some position of the text |
| Builtins.Join | src/api/api.ts:22 | the first part starts the joined string and the separator follows it; `SplitJoin` is the all-inputs inverse |
| Builtins.Split | src/api/api.ts:22 | the reader `Join` is proved against (the source itself never splits); it yields at least one part |
| Builtins.SplitJoin | src/api/api.ts:22 | splitting the `&`-joined parameters on `&` gives back the parameters when none contains `&` |
| Builtins.FilterSplice | src/hooks/useCart.tsx:64 | when exactly one element is dropped, the filter cuts out that element and keeps the others in order |
| Builtins.Insert | src/api/api.ts:98-104 | one insertion step of the sort: one element longer; its meaning is stated by `InsertPermutes` and `InsertSorted` |
| Builtins.Sort | src/api/api.ts:98-104 | the sort keeps the length; `SortPermutes`, `SortSorted` and `SortStable` state what it returns |
| Builtins.InsertPermutes | src/api/api.ts:98 | inserting one element adds exactly that element to the multiset |
| Builtins.SortPermutes | src/api/api.ts:98 | the sort returns a permutation of its input |
| Builtins.SortSorted | src/api/api.ts:98 | under a total preorder the sort's output is ordered by the comparator |
| Builtins.SortStable | src/api/api.ts:98 | the elements tied with any given element appear in the output in their input order |
| Builtins.SortOfSorted | src/api/api.ts:98 | sorting an already ordered list returns it unchanged |
| Cart.IndexOf | src/hooks/useCart.tsx:51 | -1 exactly when no line has the id, otherwise the first line that has it |
| Cart.AddItem | src/hooks/useCart.tsx:49-60 | a new product is appended with the given quantity; an existing line keeps its product snapshot and position and gains the quantity; other lines are unchanged |
| Cart.AddNewAppends | src/hooks/useCart.tsx:58 | adding an absent product grows the cart by one line at the end and keeps the earlier lines |
| Cart.AddExistingMerges | src/hooks/useCart.tsx:51-56 | adding a present product merges into its line instead of adding a duplicate row |
| Cart.AddKeepsWellFormed | src/hooks/useCart.tsx:49-60 | ids stay unique, and quantities stay positive when the added quantity is at least 1 |
| Cart.RemoveItem | src/hooks/useCart.tsx:63-65 | no remaining line has the id, every remaining line comes from the cart, and removing an absent id changes nothing |
| Cart.RemoveKeepsUnique | src/hooks/useCart.tsx:64 | removal keeps ids unique |
| Cart.RemoveKeepsWellFormed | src/hooks/useCart.tsx:64 | removal keeps ids unique and quantities positive |
| Cart.RemoveIdempotent | src/hooks/useCart.tsx:64 | removing twice equals removing once |
| Cart.RemoveCounts | src/hooks/useCart.tsx:64 | removal drops every line with the id and keeps every other line as often as before |
| Cart.RemoveSplices | src/hooks/useCart.tsx:64 | in a cart with unique ids, removal cuts out exactly the line with the id and keeps the order of the rest |
| Cart.SetQuantity | src/hooks/useCart.tsx:73-77 | same lines in the same order with the same products; the line with the id gets the new quantity, the others keep theirs |
| Cart.SetQuantityAbsent | src/hooks/useCart.tsx:73-77 | setting the quantity of an absent id changes nothing |
| Cart.SetQuantityAt | src/hooks/useCart.tsx:73-77 | in a cart with unique ids, only the line with the id changes, and only its quantity |
| Cart.SetQuantityKeepsWellFormed | src/hooks/useCart.tsx:73-77 | ids stay unique, and quantities stay positive for a quantity of at least 1 |
| Cart.LineTotal | src/hooks/useCart.tsx:85 | a line's total is non-negative for a non-negative price and quantity, and 0 for quantity 0 |
| Cart.Total | src/hooks/useCart.tsx:84-86 | the left fold of line totals from 0 is non-negative when every price and quantity is |
| Cart.ItemCount | src/hooks/useCart.tsx:88-90 | the left fold of quantities from 0 is non-negative when every quantity is |
| Cart.TotalsAppend | src/hooks/useCart.tsx:84-90 | total price and item count add up over a concatenation |
| Cart.TotalsReplace | src/hooks/useCart.tsx:84-90 | replacing one line changes the total and the count by that line's difference |
| Cart.ItemCountAtLeastLines | src/hooks/useCart.tsx:88-90 | with positive quantities, the item count is at least the number of lines |
| Cart.AddItemTotals | src/hooks/useCart.tsx:49-60 | adding raises the item count by the quantity and the total by the quantity times the price of the line's product snapshot |
| Cart.RemoveItemTotals | src/hooks/useCart.tsx:63-65 | removing a line lowers the count by its quantity and the total by its line total |
| Cart.SetQuantityTotals | src/hooks/useCart.tsx:67-78 | changing a line's quantity shifts the count by the difference and the total by the price times the difference |
| Cart.Save | src/hooks/useCart.tsx:37-47 | the stored snapshot reads back as the cart (persist-then-restore round trip), and other keys are untouched |
| Cart.Restore | src/hooks/useCart.tsx:25-28 | a missing entry restores the empty cart; writing a restored cart back leaves storage as it was |
| Cart.CartProvider.constructor | src/hooks/useCart.tsx:19-47 | the cart is the stored snapshot, or empty when none is stored; afterwards storage holds the cart |
| Cart.CartProvider.LoadCart | src/hooks/useCart.tsx:22-35 | replaces the cart by the stored snapshot when one exists, otherwise keeps it |
| Cart.CartProvider.SaveCart | src/hooks/useCart.tsx:37-47 | writes the full current snapshot under the cart key |
| Cart.CartProvider.AddToCart | src/hooks/useCart.tsx:49-61 | the new cart is AddItem of the old one and is persisted; a well-formed cart stays well-formed for a quantity of at least 1 |
| Cart.CartProvider.RemoveFromCart | src/hooks/useCart.tsx:63-65 | the new cart is RemoveItem of the old one and is persisted; well-formedness is kept |
| Cart.CartProvider.UpdateQuantity | src/hooks/useCart.tsx:67-78 | a quantity of at most 0 removes the line; otherwise the line's quantity is set; the result is persisted and well-formedness is kept |
| Cart.CartProvider.ClearCart | src/hooks/useCart.tsx:80-82 | the cart becomes empty and the empty cart is persisted; the total and the item count are then 0 |
| Cart.CartProvider.GetCartTotal | src/hooks/useCart.tsx:84-86 | the loop returns the sum of price times quantity over all lines |
| Cart.CartProvider.GetItemCount | src/hooks/useCart.tsx:88-90 | the loop returns the sum of the quantities |
| Catalog.DecimalText | src/api/api.ts:12 | a non-empty numeral of decimal digits without a leading zero |
| Catalog.DecimalRoundTrip | src/api/api.ts:12 | reading the printed numeral back gives the number |
| Catalog.IntText | src/api/api.ts:12 | the printed category id uses only digits and a minus sign, and reads back as the id (after the sign for a negative id) |
| Catalog.CentsText | src/api/api.ts:15 | the printed price bound uses only digits, a sign and a point; it starts with `-` exactly for a negative amount, and a whole-dollar amount prints as its plain numeral |
| Catalog.FractionText | src/api/api.ts:15 | the cents part prints as nothing exactly when it is 0, otherwise as a point and one or two digits |
| Catalog.CentsRoundTrip | src/api/api.ts:15 | reading the printed amount back (whole part, then tenths and hundredths after the point, negated after a `-`) gives the amount in cents, for every amount |
| Catalog.HasSearch | src/api/api.ts:9 | a search field is truthy: present and not the empty string |
| Catalog.HasCategory | src/api/api.ts:11 | a category id is truthy: present and not 0 |
| Catalog.HasMinPrice | src/api/api.ts:14 | a minimum price is truthy: a price range is present and its minimum is not 0 |
| Catalog.HasMaxPrice | src/api/api.ts:18 | a maximum price is truthy and not `Infinity`: present, finite and not 0 |
| Catalog.SentFor | src/api/api.ts:5-20 | the reference for the query: offset and limit first, keys in push order, only numeric `key=value` entries, no search key, and each conditional key present exactly when its field is truthy, with its printed value |
| Catalog.BuildProductsUrl | src/api/api.ts:5-23 | offset=0 and limit=50 come first; the parameters are in push order; the search term is never sent; each of categoryId, price_min and price_max is present exactly when its field is truthy (a max of Infinity counts as absent), with its printed value; the URL is the products endpoint, `?`, and the `&`-joined entries, which split back into the entries |
| Catalog.AllPushesSent | src/api/api.ts:5-20 | the pushes of the query builder give exactly the parameters the filter calls for, in push order, each with its printed value |
| Catalog.UrlSplitsBack | src/api/api.ts:22 | the part of the URL after the endpoint and `?` splits back into the entries |
| Catalog.QuerySplitsBack | src/api/api.ts:22 | a `&`-joined list of numeric parameters splits back into its `key=value` entries |
| Catalog.SearchTerm | src/api/api.ts:34 | the filter's search text, lowercased (defined only when the search is truthy) |
| Catalog.Matches | src/api/api.ts:35-37 | a product matches when its lowercased title or its lowercased description contains the term |
| Catalog.SearchFilter | src/api/api.ts:33-39 | without a non-empty search term the list is unchanged; with one, every kept product contains the lowercased term in its lowercased title or description and comes from the input |
| Catalog.SearchCounts | src/api/api.ts:33-39 | the search keeps every occurrence of a matching product and drops every product that does not match |
| Catalog.SearchKeepsOrder | src/api/api.ts:35-38 | the search keeps input order (it distributes over concatenation) |
| Catalog.SearchIdempotent | src/api/api.ts:33-39 | searching a searched list changes nothing |
| Catalog.PriceAscending | src/api/api.ts:98 | the comparator is at most 0 exactly when the first price is at most the second, and 0 exactly on equal prices |
| Catalog.PriceDescending | src/api/api.ts:100 | the comparator is at most 0 exactly when the second price is at most the first; it is price-asc with the arguments swapped |
| Catalog.TitleAscending | src/api/api.ts:102 | the comparator is at most 0 exactly when `localeCompare` of the first title against the second is |
| Catalog.TitleDescending | src/api/api.ts:104 | the comparator is name-asc with the arguments swapped |
| Catalog.ComparatorFor | src/api/api.ts:96-104 | each of the four recognised keys selects its comparator |
| Catalog.SortProducts | src/api/api.ts:93-108 | the result is a permutation of the input, and an unknown sort key returns the list as it is |
| Catalog.ComparatorIsPreorder | src/api/api.ts:97-104 | each of the four comparators is a total preorder, the name ones when `localeCompare` is one |
| Catalog.SortProductsByPrice | src/api/api.ts:97-100 | price-asc gives non-decreasing prices and price-desc non-increasing prices |
| Catalog.SortProductsByName | src/api/api.ts:101-104 | name-asc orders titles by `localeCompare` and name-desc in reverse |
| Catalog.SortProductsStable | src/api/api.ts:93-108 | products that compare equal keep their input order |
| Catalog.ComparatorsConsistent | src/api/api.ts:97-104 | the price comparators give opposite signs (or both 0) when their arguments are swapped, and the name comparators do whenever `localeCompare` does |
| Catalog.PriceTiesAreEqualPrices | src/api/api.ts:98-100 | for the price sorts, the products tied with one another are exactly those with equal price |
| Catalog.HasSortBy | src/api/api.ts:41 | a sort key is present in the filter |
| Catalog.Refine | src/api/api.ts:33-45 | the returned products are a sub-multiset of the response; with a search term every one matches; without one nothing is dropped; with neither search nor sort the response is returned as it is |
| Catalog.RefineCounts | src/api/api.ts:33-43 | under a search, every matching product of the response is returned exactly as often as it occurs, and no other product is |
| Catalog.RefineSorted | src/api/api.ts:41-43 | with a sort key, the returned list is ordered by that key's comparator (for a name key, when `localeCompare` is a total preorder) |
| Catalog.SortProductsIdempotent | src/api/api.ts:93-108 | sorting a sorted list again by the same key changes nothing (for the name keys, when `localeCompare` is a total preorder) |
| Catalog.RefinedPassesSearch | src/api/api.ts:33-39 | applying the search filter to a refined list changes nothing: every refined product matches |
| Catalog.RefineIdempotent | src/api/api.ts:33-45 | refining an already refined list changes nothing (for a name sort, when `localeCompare` is a total preorder) |
| Catalog.FetchProducts | src/api/api.ts:3-50 | requests the products endpoint with a query that meets the query builder's guarantees for the filter; fails exactly when the request fails; otherwise returns the refined response |
| ProductDetail.Initial | src/screens/ProductDetailScreen.tsx:25-26 | the initial state is within bounds for every product, loaded or not |
| ProductDetail.Step | src/screens/ProductDetailScreen.tsx:35-58 | the quantity handlers leave the image index alone and the image handlers leave the quantity alone; Increase raises the quantity; Decrease keeps it at or below its old value, or sets it to 1 |
| ProductDetail.Run | src/screens/ProductDetailScreen.tsx:35-58 | a run of quantity presses leaves the image index alone, and a run of image presses leaves the quantity alone |
| ProductDetail.InitialInBounds | src/screens/ProductDetailScreen.tsx:25-26 | the initial state is image 0 and quantity 1, within bounds |
| ProductDetail.StepKeepsBounds | src/screens/ProductDetailScreen.tsx:35-58 | every handler keeps the quantity at least 1 and the index at 0 or inside the gallery |
| ProductDetail.RunKeepsBounds | src/screens/ProductDetailScreen.tsx:35-58 | any sequence of handler events keeps the bounds |
| ProductDetail.ReachableIndexInGallery | src/screens/ProductDetailScreen.tsx:47-58 | with a non-empty gallery, every reachable index is a valid image position and the quantity is at least 1 |
| ProductDetail.DecreaseUndoesIncrease | src/screens/ProductDetailScreen.tsx:35-36 | decreasing after increasing restores the state |
| ProductDetail.DecreaseClamps | src/screens/ProductDetailScreen.tsx:36 | decreasing lowers the quantity by one above 1 and leaves it at 1 otherwise |
| ProductDetail.NextPrevInverse | src/screens/ProductDetailScreen.tsx:47-58 | a Prev undoes a Next that moved, and a Next undoes a Prev that moved |
| ProductDetail.NavigationMovesIff | src/screens/ProductDetailScreen.tsx:47-58 | Next moves exactly when a later image exists; Prev moves exactly when the index is above 0 |
| ProductDetail.DisplayedImage | src/screens/ProductDetailScreen.tsx:86 | the main image is the current gallery entry when it exists and is non-empty, and exactly the placeholder otherwise; it is never empty |
| ProductDetail.ProductDetailScreen.constructor | src/screens/ProductDetailScreen.tsx:25-26 | starts at image 0 with quantity 1 |
| ProductDetail.ProductDetailScreen.IncreaseQuantity | src/screens/ProductDetailScreen.tsx:35 | raises the quantity by exactly 1 and keeps the bounds |
| ProductDetail.ProductDetailScreen.DecreaseQuantity | src/screens/ProductDetailScreen.tsx:36 | lowers the quantity by one but never below 1 |
| ProductDetail.ProductDetailScreen.NextImage | src/screens/ProductDetailScreen.tsx:47-51 | moves to the next image only for a loaded product with a later image |
| ProductDetail.ProductDetailScreen.PrevImage | src/screens/ProductDetailScreen.tsx:54-58 | moves to the previous image only when the index is above 0 |
| ProductDetail.ProductDetailScreen.SelectThumbnail | src/screens/ProductDetailScreen.tsx:115-124 | a rendered thumbnail's press selects that image, which lies inside the gallery |
| ProductDetail.ProductDetailScreen.HandleAddToCart | src/screens/ProductDetailScreen.tsx:39-44 | with a loaded product, adds it with the current quantity (at least 1) and navigates to the cart; with none, leaves the cart alone and does not navigate |

## Left out

- Prices are integer cents, not floating-point numbers. `toFixed(2)` formatting and
  rounding of fractional cents are not modelled, and neither is the 53-bit width of
  JavaScript numbers: integers here are unbounded.
- JSON encoding of the cart and AsyncStorage itself are not modelled. Storage is a
  map from key to cart snapshot. Read and write failures are also left out; the
  source only logs them.
- The asynchronous timing of the two effects is not modelled, including the order in
  which the mount-time load and the first save complete. The constructor loads first,
  then saves.
- `cartItems` is only ever mutated through the provider's operations, the only route
  the source offers.
- `addToCart` mutates the existing line object in place through a shallow copy (`+=`),
  so the previous state's array observes the change too. The model has value
  semantics, so this aliasing is not captured.
- `toLowerCase` and `localeCompare` are parameters. Unicode case mapping and locale
  collation are not modelled. The name sorts are proved ordered only for a
  `localeCompare` whose `<= 0` is a total preorder.
- `Array.prototype.sort` is modelled as a stable insertion sort. Any conforming
  stable sort returns the same result when the comparator is a total preorder and
  is consistent: `cmp(a, b)` and `cmp(b, a)` have opposite signs or are both 0.
  The price comparators are consistent by construction. For a `localeCompare`
  that is not consistent, ECMA-262 leaves the order implementation-defined, and
  the model's order is only one of the permitted ones.
- The network is a function parameter. Status codes, cancellation and the thrown
  error's message are not modelled; a failed request is `None`.
- `fetchProductById`, `fetchProductBySlug` and `fetchCategories` (src/api/api.ts:51-92)
  are not part of this model. They only request one URL and return the parsed body.
- The detail screen is modelled for a fixed query outcome (`product` is a constant
  `Option`). The loading-to-loaded transition of the query and refetches are not
  modelled.
- Rendering is not modelled, apart from the main image's URI: styles, the image
  counter and the button labels are left out.
- `useCart`'s guard, which throws outside a `CartProvider`, is not modelled.
- `decreaseQuantity`'s clamp at 1 is in the model. `addToCart` and `updateQuantity`
  are not validated by the source and are not validated here either. A cart stays
  well-formed only when the callers pass positive quantities, as the detail screen
  does.
