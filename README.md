# Storefront core, modelled in Dafny

This project models the logic of a small React storefront in Dafny and proves
properties of that model. The storefront sells shoes and apparel: a catalog
page, featured-product strips, a paginated product grid, an image carousel, a
sidebar filter panel, a product detail page, a header with a cart badge, and a
cart kept in the browser's local storage.

The model covers:

- **Cart store** (`CartStore`). It holds the cart lines and the storage slot they are saved to. `Cart` is a class whose methods add, remove, update and clear lines. Each method is proved equal to a pure function of the old lines (`Added`, `Removed`, `Updated`), and lemmas about those functions state what the store promises:
  - merge or append;
  - at most one line per product id;
  - positive quantities;
  - exact removal;
  - how the total changes.
- **Catalog pipeline** (`Catalog`). `Filtered` narrows a local list stage by stage, then sorts it by price. It is proved equal to "the matching products, arranged". The facet lists and the selection toggles are pure functions.
- **Stable sort** (`StableSort`). ECMAScript requires `Array.prototype.sort` to be stable, so the model uses a stable insertion sort, `SortBy`. The `Sort` method computes it with loops. Lemmas prove the result is sorted, is a permutation, and keeps elements with equal keys in their original order.
- **Featured strip** (`FeaturedProducts`): filter by audience, newest first, then the first `limit` products.
- **Product grid** (`ProductGrid`): page count, page slices, page buttons and the sale badge.
- **Image carousel** (`ProductImages`): the image list and a `Carousel` class stepped cyclically.
- **Sidebar filter** (`SidebarFilter`): a filter record updated one key at a time, check-box toggles, and a log of the records sent to the change listener.
- **Product detail** (`ProductDetail`): related products, the page's load outcome, the stock label and button, and the quantity stepper.
- **Header** (`Header`): the cart item count, the badge, and navigation highlighting.
- **Shared pieces:**
  - `Seqs`: JavaScript `filter`, `map`, `flatMap`, `slice`, `reduce`-sums and `Array.from(new Set(...))`.
  - `Text`: ASCII lower-casing, whitespace, `startsWith` and `includes`.
  - `Types`: the product and cart-line records.
  - `Wrappers`: `Option`.

Modelling choices:

- Prices, compare prices, stock and creation times are integers. Prices are in whole currency units (fractional prices are not modelled) and `create_at` is a timestamp.
- A field the code reads through `??`, `?.` or a truthiness test is an `Option`.
- A product's `gender` is a string, an array of strings, or absent.
- Asynchronous fetches, local storage and the router are inputs. The fetched catalog, the stored slot, the route id and the path are parameters.

Catalog.PageTitle follows the catalog page, which names the men's and women's collections for the gender props `"men"` and `"women"`. The router in `src/App.tsx` (lines 20-21) mounts the page with `"male"` and `"female"` instead, so in the running app both sections are titled "All Collections". The same props reach the exact gender filter (`Catalog.GenderIs`), which matches only products tagged `"male"` or `"female"`.

ProductGrid keeps its current page when its list of products changes. So if the current page is 2 and the list shrinks to between one and nine products, the grid shows no products and no page buttons (`ProductGrid.StalePageIsEmpty`). Nothing on screen leads back to page 1 until the list grows again.

Cart lines are keyed by product id alone. `addToCart` matches an existing line by `product.id` only, ignores colour and size, and never clamps the quantity. The model follows the code on each of these points, not a design where the key also includes colour and size.

## Model

| member | source | states |
|---|---|---|
| CartStore.Load | src/contexts/CartContext.tsx:20-27 | A stored, parseable list is loaded as is; an absent or unparseable entry loads as the empty cart |
| CartStore.Save | src/contexts/CartContext.tsx:29-31 | Loading what was saved gives back exactly the saved lines |
| CartStore.FirstIndex | src/contexts/CartContext.tsx:35-37 | No index exactly when no line has the id; otherwise the first line with that id |
| CartStore.FindLine | src/contexts/CartContext.tsx:35-37 | The `findIndex` loop returns the first matching index, or -1 when there is none |
| CartStore.Added | src/contexts/CartContext.tsx:33-45 | `addToCart` on the list: the product is in the cart afterwards; the length stays when it was already there and grows by one otherwise |
| CartStore.Removed | src/contexts/CartContext.tsx:47-49 | `removeFromCart` on the list: no line with the id is left, and the list does not grow |
| CartStore.WithQty | src/contexts/CartContext.tsx:53-55 | The `map` of `updateQty` keeps the length |
| CartStore.Updated | src/contexts/CartContext.tsx:51-56 | `updateQty` on the list never grows it; a positive qty keeps the length; a missing or non-positive one leaves no line with the id |
| CartStore.Total | src/contexts/CartContext.tsx:61 | The `reduce` sum of price times qty over the lines; its behaviour under each operation is stated by TotalAfterAdd, TotalAfterRemove, TotalAfterSetQty (with UpdateNonPositiveRemoves for a non-positive qty) and Cart.Clear |
| CartStore.AddMerges | src/contexts/CartContext.tsx:38-41 | When a line has the id, adding grows that line's qty by `qty`; length and every other line are unchanged |
| CartStore.AddAppends | src/contexts/CartContext.tsx:43 | When no line has the id, adding appends `{product, qty}` after the unchanged earlier lines |
| CartStore.AddKeepsUniqueIds | src/contexts/CartContext.tsx:33-45 | Adding keeps "at most one line per product id", and the product is in the cart afterwards |
| CartStore.AddTwiceMerges | src/contexts/CartContext.tsx:33-45 | Adding the same product twice equals adding it once with the summed quantity |
| CartStore.AddKeepsPositive | src/contexts/CartContext.tsx:33-45 | Adding a positive quantity keeps every line's quantity positive |
| CartStore.RemoveDropsExactly | src/contexts/CartContext.tsx:47-49 | Removal keeps exactly the lines with another id, in their order, and no line with the id remains |
| CartStore.RemoveAbsentIsNoop | src/contexts/CartContext.tsx:48 | Removing an id that no line has leaves the lines unchanged |
| CartStore.RemoveKeepsUniqueIds | src/contexts/CartContext.tsx:48 | Removal keeps "at most one line per product id" |
| CartStore.RemoveKeepsPositive | src/contexts/CartContext.tsx:48 | Removal keeps every quantity positive |
| CartStore.WithQtyAt | src/contexts/CartContext.tsx:53-55 | Setting a quantity keeps the length; a line with the id gets the new qty, every other line is unchanged |
| CartStore.UpdateNonPositiveRemoves | src/contexts/CartContext.tsx:52 | `updateQty` with a missing, zero or negative qty is `removeFromCart`, and the id is gone |
| CartStore.UpdateKeepsPositive | src/contexts/CartContext.tsx:51-56 | Updating keeps every quantity positive |
| CartStore.UpdateKeepsUniqueIds | src/contexts/CartContext.tsx:51-56 | Updating keeps "at most one line per product id" |
| CartStore.TotalAfterAdd | src/contexts/CartContext.tsx:33-61 | Adding raises the total by `qty` times the price of the merged line, or of the new product |
| CartStore.TotalAfterSetQty | src/contexts/CartContext.tsx:51-61 | Setting the quantity of the lines with an id to `q` makes the total that of the other lines plus `q` times the prices of the lines with the id |
| CartStore.TotalAfterRemove | src/contexts/CartContext.tsx:47-61 | Removing lowers the total by the sum of the amounts of the dropped lines |
| CartStore.Cart.constructor | src/contexts/CartContext.tsx:20-27 | The store starts with the loaded lines and a slot consistent with them |
| CartStore.Cart.AddToCart | src/contexts/CartContext.tsx:33-45 | The copy-and-overwrite update leaves `Added(old lines, product, qty)` (qty defaults to 1) and saves it |
| CartStore.Cart.RemoveFromCart | src/contexts/CartContext.tsx:47-49 | The new lines are `Removed(old lines, id)`, and they are saved |
| CartStore.Cart.UpdateQty | src/contexts/CartContext.tsx:51-56 | The new lines are `Updated(old lines, id, qty)`, and they are saved |
| CartStore.Cart.Clear | src/contexts/CartContext.tsx:59-61 | The cart becomes empty and its total 0 |
| CartStore.ReloadRestores | src/contexts/CartContext.tsx:20-31 | After any store operation, reloading the slot gives back the current lines |
| Catalog.Matching | src/components/pages/Catalog.tsx:61-84 | Every kept product passes every active filter; every product that passes them all is kept; catalog order is preserved |
| Catalog.Matches | src/components/pages/Catalog.tsx:63-84 | The conjunction of the active stages: exact gender when non-empty, title search when the query is not blank, any selected category, size or colour when a selection exists, and inclusive price bounds |
| Catalog.TitleHas | src/components/pages/Catalog.tsx:64-67 | The lower-cased title includes the lower-cased, untrimmed query |
| Catalog.TitleHasIgnoresCase | src/components/pages/Catalog.tsx:64-67 | Changing the letter case of the query or of the title never changes whether the title matches |
| Catalog.Arranged | src/components/pages/Catalog.tsx:86-87 | The list itself under relevance, the stable sort by price under `asc`, and by negated price under `desc`; its properties are stated by ArrangedPermutes, ArrangedOrdered and ArrangedStable |
| Catalog.Filtered | src/components/pages/Catalog.tsx:60-89 | The stage-by-stage narrowing and in-place sort equal the matching products arranged by the chosen sort |
| Catalog.SortStep | src/components/pages/Catalog.tsx:86-87 | The in-place price sort computes the stable ascending or descending arrangement |
| Catalog.FilteredMeaning | src/components/pages/Catalog.tsx:60-89 | A product is in the result exactly when it is in the catalog and matches; under relevance the result is a subsequence of the catalog |
| Catalog.ArrangedPermutes | src/components/pages/Catalog.tsx:86-87 | Sorting is a permutation, and relevance leaves the order alone |
| Catalog.ArrangedOrdered | src/components/pages/Catalog.tsx:86-87 | `asc` gives non-decreasing prices and `desc` non-increasing ones |
| Catalog.ArrangedStable | src/components/pages/Catalog.tsx:86-87 | Products with equal prices keep their relative order |
| Catalog.Categories | src/components/pages/Catalog.tsx:44-47 | `Array.from(new Set(all.map(p => p.category)))`; stated by FacetsMeaning |
| Catalog.Sizes | src/components/pages/Catalog.tsx:48-51 | `Array.from(new Set(all.flatMap(p => p.size ?? [])))`; stated by FacetsMeaning |
| Catalog.Colors | src/components/pages/Catalog.tsx:52-55 | `Array.from(new Set(all.flatMap(p => p.colors ?? [])))`; stated by FacetsMeaning |
| Catalog.FacetsMeaning | src/components/pages/Catalog.tsx:44-55 | The category, size and colour facets are duplicate-free, list exactly the catalog's values (a missing list counts as empty), and follow the order of first occurrence in the catalog |
| Catalog.Toggle | src/components/pages/Catalog.tsx:102-113 | The shared toggle of the three selections; stated by ToggleMeaning and ToggleTwice |
| Catalog.ToggleMeaning | src/components/pages/Catalog.tsx:102-113 | Toggling adds an absent value at the end and removes every occurrence of a present one, in order, keeping every other value with its multiplicity (the length drops by the number of occurrences); other values keep their membership |
| Catalog.ToggleTwice | src/components/pages/Catalog.tsx:102-113 | Toggling twice restores membership, and restores the list exactly when the value was absent |
| Catalog.PageTitle | src/components/pages/Catalog.tsx:37-41 | "Men's Collection" for men, "Women's Collection" for women, "All Collections" otherwise |
| StableSort.InsertPermutes | src/components/pages/Catalog.tsx:86-87 | Inserting adds exactly the element to the multiset |
| StableSort.SortByPermutes | src/components/pages/Catalog.tsx:86-87 | Sorting is a permutation |
| StableSort.InsertSorted | src/components/pages/Catalog.tsx:86-87 | Inserting into a sorted list keeps it sorted |
| StableSort.SortBySorted | src/components/pages/Catalog.tsx:86-87 | The result is sorted by key |
| StableSort.NoneWithSmallerKey | src/components/pages/Catalog.tsx:86-87 | A sorted list holds no element with a key below its first |
| StableSort.InsertStable | src/components/pages/Catalog.tsx:86-87 | Inserting does not reorder the elements of any one key |
| StableSort.SortByStable | src/components/pages/Catalog.tsx:86-87 | Elements with equal keys keep their relative order |
| StableSort.InsertAt | src/components/pages/Catalog.tsx:86-87 | Insertion places the element before the first strictly greater key |
| StableSort.SortBy | src/components/pages/Catalog.tsx:86-87 | The stable sort by key keeps the length; sorted, permutation and stability are stated by SortBySorted, SortByPermutes and SortByStable |
| StableSort.Sort | src/components/pages/Catalog.tsx:86-87 | The insertion-sort loops compute the stable sort |
| Seqs.Filter | src/components/pages/Catalog.tsx:63-84 | `filter` keeps at most the input's length, and exactly the input's elements that pass the test |
| Seqs.Map | src/components/pages/Catalog.tsx:44-47 | `map` keeps the length and applies the function at each position |
| Seqs.FlatMap | src/components/pages/Catalog.tsx:48-55 | `flatMap` holds exactly the values of the lists produced for the input's elements |
| Seqs.Sum | src/contexts/CartContext.tsx:61 | The `reduce` sum from zero; stated by SumAppend, SumPartition and SumReplace |
| Seqs.Slice | src/components/FeatureProducts.tsx:48 | `slice` with negative positions counted from the end and clamped, never longer than its input; stated by SliceTake and SliceFromStart |
| Seqs.FilterIsSubseq | src/components/pages/Catalog.tsx:63-84 | `filter` keeps a subsequence of its input |
| Seqs.FilterAppend | src/components/pages/Catalog.tsx:63-84 | `filter` distributes over concatenation |
| Seqs.FilterAllPass | src/components/FeatureProducts.tsx:34 | `filter` with a test every element passes is the identity |
| Seqs.NarrowStep | src/components/pages/Catalog.tsx:63-77 | A conditional filter stage narrows a filtered list to the filter of the conjoined test |
| Seqs.SumAppend | src/contexts/CartContext.tsx:61 | A `reduce` sum over a concatenation is the sum of the parts |
| Seqs.SumPartition | src/contexts/CartContext.tsx:47-61 | The sums over the elements that pass a test and over those that fail it add up to the sum over the whole list |
| Seqs.FilterPartition | src/contexts/CartContext.tsx:48 | Filtering by a test and by its negation splits the list's multiset, and its length, in two |
| Seqs.SumReplace | src/contexts/CartContext.tsx:39-61 | Replacing one element changes a `reduce` sum by the difference of its terms |
| Seqs.SliceTake | src/components/FeatureProducts.tsx:48 | `slice(0, k)` keeps the first `min(k, n)` elements |
| Seqs.SliceFromStart | src/components/FeatureProducts.tsx:48 | `slice(0, end)` is a prefix, whatever `end` is |
| Seqs.Dedup | src/components/pages/Catalog.tsx:44-55 | `Array.from(new Set(s))` has no duplicates and the same members as `s` |
| Seqs.DedupFirstOccurrenceOrder | src/components/pages/Catalog.tsx:44-55 | De-duplicated values appear in the order of their first occurrence |
| Seqs.PrefixIsSubseq | src/components/pages/ProductDetail.tsx:30-32 | A prefix of a subsequence is a subsequence, so `filter` then `slice(0, k)` keeps order |
| Text.LowerChar | src/components/pages/Catalog.tsx:66 | A capital A-Z becomes the letter 32 code points above it, any other character stays, and the result is never a capital |
| Text.Lower | src/components/pages/Catalog.tsx:66 | `toLowerCase` keeps the length, maps each capital to its lower-case letter, keeps every other character, and leaves no capital |
| Text.LowerIdempotent | src/components/pages/Catalog.tsx:66 | Lower-casing twice is lower-casing once |
| Text.SameUpToCaseLower | src/components/pages/Catalog.tsx:66 | Strings that differ only in letter case lower-case to the same string |
| Text.IsBlank | src/components/pages/Catalog.tsx:64 | `trim()` leaves nothing: every character is ECMAScript white space or a line terminator |
| Text.Includes | src/components/pages/Catalog.tsx:66 | `includes`: a prefix match here or further on; stated by IncludesAt |
| Text.StartsWith | src/components/Header.tsx:23 | `startsWith`: the string's first characters are the prefix |
| Text.IncludesAt | src/components/pages/Catalog.tsx:66 | `includes` holds exactly when the needle occurs at some position |
| FeaturedProducts.NoGenderKeepsAll | src/components/FeatureProducts.tsx:34 | With no audience, every product is a candidate |
| FeaturedProducts.GenderPasses | src/components/FeatureProducts.tsx:33-44 | No or empty gender passes everything; a string tag passes when equal ignoring case; an array tag when some element is; a missing tag never |
| FeaturedProducts.Featured | src/components/FeatureProducts.tsx:24-48 | Filter by audience, stable sort newest first, then `slice(0, limit)` with limit 5 by default; stated by FeaturedMeaning, FeaturedLength and CutOffIsOlder |
| FeaturedProducts.FeaturedMeaning | src/components/FeatureProducts.tsx:32-48 | Every featured product is from the list and passes the audience test, and no product appears more often than among the audience matches; newest first |
| FeaturedProducts.FeaturedLength | src/components/FeatureProducts.tsx:24-48 | A non-negative limit keeps `min(limit, #matching)` products |
| FeaturedProducts.CutOffIsOlder | src/components/FeatureProducts.tsx:45-48 | No matching product left out by the limit is newer than a kept one |
| ProductGrid.TotalPages | src/components/ProductGrid.tsx:7-13 | The page count is the ceiling of n/9, and at least 1 when there are products |
| ProductGrid.PageItems | src/components/ProductGrid.tsx:14-18 | `products.slice(startIndex, startIndex + 9)`; stated by PageContents, PageBeyondEnd and PagesCoverProducts |
| ProductGrid.PageContents | src/components/ProductGrid.tsx:14-18 | Page p shows the products from `(p-1)*9` up to `min(p*9, n)`, at most 9 |
| ProductGrid.PageBeyondEnd | src/components/ProductGrid.tsx:14-18 | A page beyond the last is empty |
| ProductGrid.StalePageIsEmpty | src/components/ProductGrid.tsx:6-18 | For a non-empty list, a current page past the last renders an empty grid with the usual buttons, and with no buttons at all when the list fits on one page |
| ProductGrid.FirstPagesPrefix | src/components/ProductGrid.tsx:13-18 | The first k pages in order are the first `min(9k, n)` products |
| ProductGrid.PagesCoverProducts | src/components/ProductGrid.tsx:13-18 | Pages 1 to the page count, in order, give back the list exactly |
| ProductGrid.PageButtons | src/components/ProductGrid.tsx:77-82 | Buttons numbered 1 to the page count, and none for a single page |
| ProductGrid.Render | src/components/ProductGrid.tsx:9-82 | An empty list shows "No products found." and nothing else; otherwise the page's items and the buttons |
| ProductGrid.OnSale | src/components/ProductGrid.tsx:25 | `compare_price && compare_price > price`; stated by OnSaleWhenHigher |
| ProductGrid.OnSaleWhenHigher | src/components/ProductGrid.tsx:25 | For a non-negative price the sale badge shows exactly when the compare price is higher |
| ProductImages.Images | src/components/ProductImages.tsx:11-13 | The variant images when present, else the image or the placeholder as a single image |
| ProductImages.NextIndex | src/components/ProductImages.tsx:19-21 | The following index, wrapping from the last to the first, within range |
| ProductImages.PrevIndex | src/components/ProductImages.tsx:15-17 | The preceding index, wrapping from the first to the last, within range |
| ProductImages.PrevUndoesNext | src/components/ProductImages.tsx:15-21 | Previous undoes next and next undoes previous |
| ProductImages.NextTimesIsShift | src/components/ProductImages.tsx:19-21 | Up to n presses of next move k images on, wrapping once |
| ProductImages.NextCycles | src/components/ProductImages.tsx:19-21 | n presses of next return to the starting image |
| ProductImages.Carousel.constructor | src/components/ProductImages.tsx:9-13 | The carousel starts on image 0 of the product's image list |
| ProductImages.Carousel.Prev | src/components/ProductImages.tsx:15-41 | The left arrow, shown for more than one image, moves to the preceding index |
| ProductImages.Carousel.Next | src/components/ProductImages.tsx:19-51 | The right arrow, shown for more than one image, moves to the following index |
| ProductImages.Carousel.Select | src/components/ProductImages.tsx:55-65 | A thumbnail click, with thumbnails shown for more than one image, selects that image |
| ProductImages.Carousel.Current | src/components/ProductImages.tsx:28 | The large image is the one at the index; there is none for an empty list |
| SidebarFilter.Apply | src/components/SidebarFilter.tsx:37 | The spread update writes the given key and keeps every other key |
| SidebarFilter.ApplyLastWins | src/components/SidebarFilter.tsx:37 | A second update of the same key overrides the first |
| SidebarFilter.ApplyCommutes | src/components/SidebarFilter.tsx:37 | Updates of different keys commute |
| SidebarFilter.ApplyUnique | src/components/SidebarFilter.tsx:37 | The updated record is the only one that differs in that key alone and holds the value |
| SidebarFilter.Toggled | src/components/SidebarFilter.tsx:42-49 | A toggle replaces only the array key, with the missing array treated as empty |
| SidebarFilter.Checked | src/components/SidebarFilter.tsx:122-150 | A check-box is ticked when the key's array is present and holds the value |
| SidebarFilter.AllCategoriesChecked | src/components/SidebarFilter.tsx:78 | "All Categories" is ticked when the category is missing or empty |
| SidebarFilter.ToggledMeaning | src/components/SidebarFilter.tsx:42-49 | The toggled box flips and every other box keeps its state; an absent value is appended, a present one removed in order with every other value kept at its multiplicity |
| SidebarFilter.ToggledTwice | src/components/SidebarFilter.tsx:42-49 | Ticking and unticking restores every box and leaves the other keys alone |
| SidebarFilter.Sidebar.constructor | src/components/SidebarFilter.tsx:20-23 | Empty filters, empty facets, nothing reported |
| SidebarFilter.Sidebar.Loaded | src/components/SidebarFilter.tsx:25-34 | The facet lists become the de-duplicated categories, colours and sizes of the catalog |
| SidebarFilter.Sidebar.UpdateFilter | src/components/SidebarFilter.tsx:36-40 | The record becomes the updated one, and a listener receives exactly that record |
| SidebarFilter.Sidebar.ToggleArrayFilter | src/components/SidebarFilter.tsx:42-49 | The record becomes the toggled one and is reported |
| SidebarFilter.Sidebar.ChooseAllCategories | src/components/SidebarFilter.tsx:78-79 | The category becomes undefined, so "All Categories" is ticked and no category is, with other keys kept |
| ProductDetail.RelatedMeaning | src/components/pages/ProductDetail.tsx:29-33 | Related products are the first four catalog products of the same category with another id, in catalog order, never the product itself |
| ProductDetail.Related | src/components/pages/ProductDetail.tsx:29-33 | Same category, another id, first four; stated by RelatedMeaning |
| ProductDetail.InStock | src/components/pages/ProductDetail.tsx:83 | `stock && stock > 0`; stated by StockIndicators |
| ProductDetail.AddDisabled | src/components/pages/ProductDetail.tsx:137-141 | `stock === 0`; stated by StockIndicators |
| ProductDetail.Fetched | src/components/pages/ProductDetail.tsx:18-38 | No route id keeps loading, a missing product is the "Product not found" error, and a found product is shown with its related products |
| ProductDetail.StockIndicators | src/components/pages/ProductDetail.tsx:83-141 | "In Stock" exactly for a known positive stock; a disabled button implies "Out of Stock", but an unknown or negative stock reads "Out of Stock" with the button enabled |
| ProductDetail.ClickAdd | src/components/pages/ProductDetail.tsx:136-138 | A disabled button does nothing; an enabled one adds one unit, whatever the stepper shows |
| ProductDetail.QuantityStepper.constructor | src/components/pages/ProductDetail.tsx:16 | The quantity starts at 1 |
| ProductDetail.QuantityStepper.Decrement | src/components/pages/ProductDetail.tsx:117 | − lowers the quantity by one, but never below 1 |
| ProductDetail.QuantityStepper.Increment | src/components/pages/ProductDetail.tsx:126 | + raises the quantity by one and keeps it at least 1 |
| ProductDetail.Decremented | src/components/pages/ProductDetail.tsx:117 | `max(1, q - 1)` is at least 1 and is `q - 1` whenever q exceeds 1 |
| ProductDetail.DecrementUndoesIncrement | src/components/pages/ProductDetail.tsx:117-126 | + then − returns to the same quantity |
| Header.CountAtLeastLines | src/components/Header.tsx:9 | With positive quantities the item count is at least the number of lines |
| Header.ItemCount | src/components/Header.tsx:9 | The `reduce` sum of qty over the lines; stated by CountAtLeastLines, BadgeMeaning and CountAfterAdd |
| Header.BadgeShown | src/components/Header.tsx:46 | `count > 0`; stated by BadgeMeaning and BadgeAfterAdd |
| Header.MenActive | src/components/Header.tsx:23 | The path starts with `/men`; stated by NavHighlight |
| Header.WomenActive | src/components/Header.tsx:29-30 | The path starts with `/women`; stated by NavHighlight |
| Header.BadgeMeaning | src/components/Header.tsx:9-46 | An empty cart counts 0 and shows no badge; with positive quantities the badge shows exactly when the cart has a line |
| Header.CountAfterAdd | src/components/Header.tsx:9 | Adding q of a product raises the item count by exactly q |
| Header.BadgeAfterAdd | src/components/Header.tsx:46 | After adding a positive quantity, the badge shows |
| Header.NavHighlight | src/components/Header.tsx:23-30 | MEN and WOMEN are never underlined together; each is underlined under its own path, and "/women..." does not underline MEN |

## Left out

- Rendering, hooks, context and routing: component state is modelled as class fields or as parameters.
- Local storage and JSON. The stored entry is a value with three cases: absent, unparseable, or a parsed list. The `console.log` of the lines is dropped.
- CartStore.Save: serialisation is taken as lossless, so a saved list loads back unchanged. In the source `JSON.stringify`/`JSON.parse` turn the `create_at` date into a string, which the model does not capture.
- CartStore.Load: a stored entry that parses but is not a list (for example `null`) is not modelled. In the source it becomes the cart's lines, and the next `findIndex` or `reduce` on it throws.
- Fetching: `fetchProducts` and `fetchProductById` are asynchronous network calls in `src/api/products.ts`, which is not part of this model. Their results are parameters:
  - the catalog given to `Catalog.Filtered`, `SidebarFilter.Sidebar.Loaded` and `ProductDetail.Fetched`;
  - the looked-up product given to `ProductDetail.Fetched`.

  Their rejections are not modelled. Neither is the numeric coercion between route ids and product ids: ids are strings throughout, and `removeFromCart`/`updateQty` compare them with plain equality.
- The search debounce: the debounced query is the query itself.
- Scroll state and scroll buttons of the featured strip, which depend on the DOM.
- Floating point and formatting: the discount percentage, `toLocaleString`/`toFixed`, and `Math.min`/`Math.max` over the catalog prices (±Infinity on an empty catalog). Prices are integers.
- Date parsing of `create_at`: it is an integer timestamp.
- Text: `toLowerCase` folds ASCII letters only, and `trim` uses the ECMAScript whitespace and line-terminator set.
- Price bounds are taken already parsed. Reading them from the number inputs is not modelled: the sidebar parses with `e.target.value ? Number(e.target.value) : undefined` (src/components/SidebarFilter.tsx:98 and 110), the catalog page with `e.target.value === "" ? "" : Number(e.target.value)` (src/components/pages/Catalog.tsx:211 and 227).
- CartStore.Cart.UpdateQty: the qty is an optional integer. A `NaN` qty, which `!qty` also treats as missing, is not modelled.
- Cart line colour and size: `addToCart` never sets them, so new lines carry none.
- ProductImages.Carousel: the image list is fixed when the carousel is made. The source keeps the index when the product changes, and that is not modelled.
- The Catalog page's "Clear filters" button and its "Filtered (n)" / "All products (n)" label are presentation over the same state and are not modelled.
- ProductGrid: the current page is an input. Its reset when the product list changes is not in the source and is not modelled.
