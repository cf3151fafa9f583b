# Tiendadezapatos core in Dafny

This project models the client-side logic of a sneaker shop written in TypeScript and React, and proves properties of that model. It covers these pieces:

- The shopping-cart store (`CartProvider`). Its lines are identified by the triple (id, size, colour). It has add, remove, quantity-update, clear and open/close operations, a subtotal, and the navbar badge count.
- The catalogue normalisation `transformProduct`. It orders images with the main image first, deduplicates and sorts sizes, deduplicates colours, sums stock, and applies the brand, sale-price and placeholder fallbacks.
- The storefront listing (`ShopBrowser`). It maps products to cards, filters them by category, search text and selected brands, toggles brands, and sorts them in place by price.
- The best-sellers carousel. It pages four products at a time and moves between pages with wrap-around.
- The admin pages:
  - inventory: search, stock tabs, out/low counters, the status label, and the local update after a stock edit;
  - brands: slug generation, the save payload, and the local removal after a delete;
  - products: search, category filter, category options, main image, total stock, stock badge, and the local removal after a delete;
  - orders: the customer-name fallback chain, and the status tabs and search.

Module layout follows the source files:

| module | file |
|---|---|
| `Cart` | `src/context/CartContext.tsx` |
| `Catalog` | `src/services/products.ts` |
| `BestSellers` | `src/components/ui/BestSellers.tsx` |
| `Shop` | `src/components/shop/ShopBrowser.tsx` |
| `Inventory` | `src/app/admin/inventory/page.tsx` |
| `Brands` | `src/app/admin/brands/page.tsx` |
| `AdminProducts` | `src/app/admin/products/page.tsx` |
| `Orders` | `src/app/admin/orders/page.tsx` |

Shared modules model the JavaScript library behaviour the code relies on:

- `Wrappers` models `Option`, JavaScript truthiness of optional strings, and `a || b`.
- `Seqs` models `filter`, `map`, a left-fold `reduce`, `new Set` (keeping first occurrences), and a stable sort by a comparator.
- `Text` models ASCII `toLowerCase`, `String.prototype.includes`, and the default string order of `Array.prototype.sort`.

State that the source keeps in React `useState` is a Dafny `class`. Its fields are reassigned by methods, and each method's `ensures` gives the whole new state in terms of pure functions. The properties are proved as lemmas about those functions. The shop's in-place `Array.prototype.sort` is an array method (`Shop.SortInPlace`), proved equal to the stable functional sort that the listing lemmas are about.

## Model

| member | source | states |
|---|---|---|
| Cart.AddLine | src/context/CartContext.tsx:49-66 | `addItem` on the list: specified by `Cart.AddExisting` (a present identity merges by summing quantities) and `Cart.AddNew` (a new one is appended) |
| Cart.AddExisting | src/context/CartContext.tsx:51-60 | adding an identity already present keeps the length, sums the quantities on that line, keeps its name, price and image, and changes no other line |
| Cart.AddNew | src/context/CartContext.tsx:63 | adding a new identity appends it at the end; earlier lines are unchanged and the length grows by one |
| Cart.AddKeepsUnique | src/context/CartContext.tsx:51-63 | unique identities stay unique after `addItem` |
| Cart.AddKeepsPositive | src/context/CartContext.tsx:51-63 | with a positive quantity added, every line keeps a positive quantity |
| Cart.AddTwiceMerges | src/context/CartContext.tsx:49-66 | adding the same new identity twice gives one appended line with the summed quantity |
| Cart.AddItemCount | src/components/ui/Navbar.tsx:14 | the badge count (sum of quantities) grows by exactly the added quantity, whether the line merges or is appended |
| Cart.AddSubtotalExisting | src/context/CartContext.tsx:88 | merging into a line raises the subtotal by that line's own price times the added quantity |
| Cart.AddSubtotalNew | src/context/CartContext.tsx:88 | appending raises the subtotal by the new price times its quantity |
| Cart.RemoveLines | src/context/CartContext.tsx:68-72 | `removeItem` on the list: specified by `Cart.RemoveSpec` and `Cart.RemoveExisting` (exactly the lines with the identity go, the rest keep their order) |
| Cart.RemoveSpec | src/context/CartContext.tsx:68-72 | after removal no line has the identity; the others are kept in order; nothing changes when nothing matches |
| Cart.ConsUnique | src/context/CartContext.tsx:70 | a line put in front of a cart lacking its identity keeps identities unique |
| Cart.FilterKeepsUnique | src/context/CartContext.tsx:70 | filtering a cart with unique identities keeps them unique |
| Cart.NoMatchKeepsAll | src/context/CartContext.tsx:70 | removing an identity no line has keeps the whole list |
| Cart.RemoveBetween | src/context/CartContext.tsx:70 | removing the identity of the only line carrying it leaves the lines before and after it |
| Cart.RemoveExisting | src/context/CartContext.tsx:68-72 | with unique identities, removing line i's identity deletes exactly position i |
| Cart.RemoveTotals | src/context/CartContext.tsx:88 | removing line i lowers the subtotal by its line total and the badge count by its quantity |
| Cart.SetQuantity | src/context/CartContext.tsx:74-82 | `updateQuantity` on the list: specified by `Cart.SetQuantitySpec` (matching lines get `Math.max(1, q)`, nothing else changes) |
| Cart.AtLeastOne | src/context/CartContext.tsx:78 | `Math.max(1, q)`: at least 1 and at least q, and equal to one of the two |
| Cart.SetQuantitySpec | src/context/CartContext.tsx:74-82 | matching lines get quantity max(1, q), never below 1; identities, other fields and other lines are unchanged; nothing changes when nothing matches |
| Cart.SetQuantityKeepsInvariants | src/context/CartContext.tsx:74-82 | unique identities and positive quantities are preserved |
| Cart.SetQuantitySubtotal | src/context/CartContext.tsx:88 | setting line i changes the subtotal by its price times the quantity change |
| Cart.DecrementStopsAtOne | src/components/ui/CartDrawer.tsx:108-110 | the minus button lowers the quantity by one but stops at 1 and never removes the line |
| Cart.Subtotal | src/context/CartContext.tsx:88 | the `reduce` of price times quantity: specified by `Cart.AddSubtotalExisting`, `Cart.AddSubtotalNew`, `Cart.RemoveTotals`, `Cart.SetQuantitySubtotal` and `Cart.SubtotalNonNegative` |
| Cart.ItemCount | src/components/ui/Navbar.tsx:14 | the badge `reduce` of quantities: specified by `Cart.AddItemCount` and `Cart.RemoveTotals` |
| Cart.SubtotalNonNegative | src/context/CartContext.tsx:88 | with non-negative prices and quantities the subtotal is non-negative |
| Cart.ScenarioMerge | src/context/CartContext.tsx:49-66 | worked example: adding a shoe and then the same shoe with quantity 2 gives one line of 3, with subtotals 10000 and 30000 |
| Cart.ScenarioAppend | src/context/CartContext.tsx:63 | worked example: adding the same shoe in another size appends a second line, subtotal 40000 |
| Cart.ScenarioEdits | src/context/CartContext.tsx:68-82 | worked example: setting a quantity to -5 clamps it to 1 (subtotal 20000), and removing the second line leaves the first (subtotal 10000) |
| Cart.CartStore.constructor | src/context/CartContext.tsx:31-32 | a fresh store is empty with the drawer closed |
| Cart.CartStore.AddItem | src/context/CartContext.tsx:49-66 | the items become the merged or appended list, identities stay unique, and the drawer opens |
| Cart.CartStore.RemoveItem | src/context/CartContext.tsx:68-72 | the items become the filtered list; `isOpen` is unchanged |
| Cart.CartStore.UpdateQuantity | src/context/CartContext.tsx:74-82 | the items become the updated list; `isOpen` is unchanged |
| Cart.CartStore.ClearCart | src/context/CartContext.tsx:84 | the items become empty; `isOpen` is unchanged |
| Cart.CartStore.OpenCart | src/context/CartContext.tsx:85 | `isOpen` becomes true; the items are unchanged |
| Cart.CartStore.CloseCart | src/context/CartContext.tsx:86 | `isOpen` becomes false; the items are unchanged |
| Catalog.ImageLeTotal | src/services/products.ts:134-137 | the order the image comparator induces is total, so the sort is well defined |
| Catalog.ImageOrderFacts | src/services/products.ts:134-137 | in a sorted image list, after a non-main image only non-main images follow, in non-decreasing display order (null read as 0) |
| Catalog.SortImages | src/services/products.ts:134-137 | the image sort, a missing list read as empty: specified by `Catalog.SortImagesSpec` and `Catalog.ImageOrderFacts` |
| Catalog.SortImagesSpec | src/services/products.ts:134-138 | the sorted images are a permutation of the input; a main image, if any, is first; non-main images follow in non-decreasing display order |
| Catalog.SortedSizes | src/services/products.ts:141 | `new Set` of the sizes, then `.sort()`: specified by `Catalog.SortedSizesSpec` |
| Catalog.SortedSizesSpec | src/services/products.ts:141 | sizes hold every variant size exactly once, in ascending string order |
| Catalog.StrLeChain | src/services/products.ts:141 | in a list sorted by the default string order every earlier element precedes every later one |
| Catalog.DistinctColors | src/services/products.ts:142 | `new Set` of the truthy colours: specified by `Catalog.DistinctColorsSpec` |
| Catalog.DistinctColorsSpec | src/services/products.ts:142 | colours hold every non-empty variant colour exactly once, in first-occurrence order, and nothing else |
| Catalog.TotalStock | src/services/products.ts:143 | the stock `reduce` with `|| 0` fallbacks: specified by `Catalog.TotalStockSpec` and `AdminProducts.StockSumsAgree` |
| Catalog.TotalStockSpec | src/services/products.ts:143 | stock is 0 without variants and grows by each variant's stock, a missing value counting as 0; it is non-negative when every stock is |
| Catalog.SalePrice | src/services/products.ts:151 | `p.sale_price ? Number(p.sale_price) : null`: specified by `Catalog.TransformProduct` (null exactly when absent or 0, otherwise the value) |
| Catalog.TransformProduct | src/services/products.ts:145-166 | id, name, slug, description, price, category and the featured and drop flags are copied; images are never empty and are the placeholder alone when there are none; the sale price is null exactly when absent or 0; the brand is "Unknown" without a name; there are four features |
| Catalog.TransformImages | src/services/products.ts:134-138 | the images are the URLs of the sorted image rows, with the main image's URL first when there is one |
| Catalog.TransformVariants | src/services/products.ts:141-143 | stock, sizes and colours are the variant aggregates, and 0 stock without variants |
| BestSellers.TotalPages | src/components/ui/BestSellers.tsx:20-24 | `ceil(count / 4)`: the smallest page count whose pages hold every product; positive exactly when there are products |
| BestSellers.PageItems | src/components/ui/BestSellers.tsx:25 | the `slice` of one page: specified by `BestSellers.PageItemsSpec`, `BestSellers.FirstPages` and `BestSellers.PagesPartition` |
| BestSellers.PageItemsSpec | src/components/ui/BestSellers.tsx:25 | a page shows at most four products, the products from position 4p on, in order, and is non-empty exactly for pages below the page count; `BestSellers.FirstPages` gives the exact slice |
| BestSellers.FirstPages | src/components/ui/BestSellers.tsx:25 | the first k pages laid end to end are the first `min(4k, n)` products |
| BestSellers.PagesPartition | src/components/ui/BestSellers.tsx:25 | all pages laid end to end are the product list: each product appears once, in order |
| BestSellers.ModOfSmall | src/components/ui/BestSellers.tsx:27-28 | the remainder of a value below twice the page count is the value, or the value minus the count |
| BestSellers.NextPage | src/components/ui/BestSellers.tsx:27 | `(p + 1) % totalPages`: specified by `BestSellers.PageStepsSpec` |
| BestSellers.PrevPage | src/components/ui/BestSellers.tsx:28 | `(p - 1 + totalPages) % totalPages`: specified by `BestSellers.PageStepsSpec` |
| BestSellers.PageStepsSpec | src/components/ui/BestSellers.tsx:27-28 | next and previous keep the page in range, step by one with wrap-around in both directions, and undo each other |
| BestSellers.Carousel.constructor | src/components/ui/BestSellers.tsx:23 | the carousel starts on page 0 |
| BestSellers.Carousel.CurrentProducts | src/components/ui/BestSellers.tsx:25 | the current page shows between one and four products, the ones at positions `4*page + k` |
| BestSellers.Carousel.Next | src/components/ui/BestSellers.tsx:27 | the page becomes `(p + 1) % totalPages` and stays valid |
| BestSellers.Carousel.Prev | src/components/ui/BestSellers.tsx:28 | the page becomes `(p - 1 + totalPages) % totalPages` and stays valid |
| BestSellers.Carousel.GoTo | src/components/ui/BestSellers.tsx:83-86 | a pagination dot sets the page to its index |
| Shop.ToShopItem | src/components/shop/ShopBrowser.tsx:42-47 | the card image is the first image or "/placeholder.jpg" when there is none or it is empty; the category defaults to "General"; the sale price and the product are kept |
| Shop.Matches | src/components/shop/ShopBrowser.tsx:56-59 | the three-way filter condition on one card: characterised by `Shop.FilteredSpec` |
| Shop.Filtered | src/components/shop/ShopBrowser.tsx:55-60 | the card filter: specified by `Shop.FilteredSpec` and `Shop.NoFilterListsAll` |
| Shop.FilteredSpec | src/components/shop/ShopBrowser.tsx:55-60 | a card is shown iff the category is "All" or its own, its lower-cased name contains the lower-cased query, and no brand is selected or its brand is; the result is an order-preserving subsequence |
| Shop.NoFilterListsAll | src/components/shop/ShopBrowser.tsx:31-35 | with the initial controls ("All", empty query, no brands) every product is listed |
| Shop.Toggle | src/components/shop/ShopBrowser.tsx:49-53 | `toggleBrand` on the selection: specified by `Shop.ToggleSpec`, `Shop.ToggleKeepsNoDup` and `Shop.ToggleTwice` |
| Shop.ToggleSpec | src/components/shop/ShopBrowser.tsx:49-53 | the toggled brand flips between selected and not; other brands are unaffected; an absent brand is appended; removal keeps the order |
| Shop.ToggleKeepsNoDup | src/components/shop/ShopBrowser.tsx:49-53 | the selection never holds a brand twice |
| Shop.ToggleTwice | src/components/shop/ShopBrowser.tsx:49-53 | toggling twice restores the selected set, and the list itself when the brand was not selected |
| Shop.PriceLe | src/components/shop/ShopBrowser.tsx:63-64 | the two price comparators: specified by `Shop.PriceLeTotal` and `Shop.PricesOrdered` |
| Shop.PriceLeTotal | src/components/shop/ShopBrowser.tsx:63-64 | both price comparators induce a total order |
| Shop.InsertAt | src/components/shop/ShopBrowser.tsx:63-64 | inserting into a sorted list places the element before the first element it may precede |
| Shop.InsertAtTail | src/components/shop/ShopBrowser.tsx:63-64 | the induction step of `InsertAt`: in the tail the insertion point is one place earlier |
| Shop.SplitAfterHead | src/components/shop/ShopBrowser.tsx:63-64 | the split of `InsertAt` is preserved when a head element is put in front |
| Shop.FindSlot | src/components/shop/ShopBrowser.tsx:63-64 | the inner loop shifts left, by one, the elements after `i` that the inserted element may not precede, stops at the first it may precede, and changes nothing else |
| Shop.SplicedAt | src/components/shop/ShopBrowser.tsx:63-64 | a sequence agreeing with `s` before `m`, holding `x` at `m` and `s` shifted after it is `s` with `x` inserted at `m` |
| Shop.InsertStep | src/components/shop/ShopBrowser.tsx:63-64 | one pass of the in-place sort inserts `a[i]` into the sorted suffix and leaves the prefix alone |
| Shop.SortInPlace | src/components/shop/ShopBrowser.tsx:63-64 | sorting the array in place leaves exactly the stable sort of its old contents |
| Shop.SortFromCons | src/components/shop/ShopBrowser.tsx:63-64 | the sort of a suffix is the insertion of its head into the sort of its tail |
| Shop.PricesOrdered | src/components/shop/ShopBrowser.tsx:63-64 | a list sorted by a price comparator has prices ordered between every pair of positions |
| Shop.Listing | src/components/shop/ShopBrowser.tsx:55-64 | the filtered and sorted listing: specified by `Shop.ListingSpec` and computed in place by `Shop.ShopBrowser.VisibleProducts` |
| Shop.ListingSpec | src/components/shop/ShopBrowser.tsx:55-64 | the listing is a permutation of the filtered cards; "price-asc" gives non-decreasing prices, "price-desc" non-increasing, and any other order the filtered list as is |
| Shop.ShopBrowser.constructor | src/components/shop/ShopBrowser.tsx:31-47 | the products are the mapped cards; controls start at "All", "", "newest" and no brands |
| Shop.ShopBrowser.SetCategory | src/components/shop/ShopBrowser.tsx:138 | sets the category only |
| Shop.ShopBrowser.SetSearchQuery | src/components/shop/ShopBrowser.tsx:94 | sets the query only |
| Shop.ShopBrowser.SetSortBy | src/components/shop/ShopBrowser.tsx:101 | sets the sort order only |
| Shop.ShopBrowser.ToggleBrand | src/components/shop/ShopBrowser.tsx:171 | toggles the brand only and keeps the selection free of duplicates |
| Shop.ShopBrowser.VisibleProducts | src/components/shop/ShopBrowser.tsx:55-64 | filtering into an array and sorting it in place yields the listing |
| Inventory.MatchesSearch | src/app/admin/inventory/page.tsx:35 | the optional-chained name-or-SKU search: characterised by `Inventory.FilteredSpec` and `Inventory.EmptySearch` |
| Inventory.MatchesStock | src/app/admin/inventory/page.tsx:36-39 | the tab condition: characterised by `Inventory.FilteredSpec` |
| Inventory.Filtered | src/app/admin/inventory/page.tsx:34-41 | the row filter: specified by `Inventory.FilteredSpec` |
| Inventory.FilteredSpec | src/app/admin/inventory/page.tsx:34-41 | a row is shown iff its name or SKU matches the search and it passes the tab ("out": stock 0; "low": 0 < stock < 10; anything else: no constraint); order is kept |
| Inventory.EmptySearch | src/app/admin/inventory/page.tsx:35 | the empty search keeps exactly the rows with a product name or a SKU |
| Inventory.TotalOut | src/app/admin/inventory/page.tsx:43 | the count of rows with stock 0: specified by `Inventory.CountersDisjoint` and `Inventory.CountersMatchTabs` |
| Inventory.TotalLow | src/app/admin/inventory/page.tsx:44 | the count of rows with stock in 1..9: specified by `Inventory.CountersDisjoint` and `Inventory.CountersMatchTabs` |
| Inventory.CountersDisjoint | src/app/admin/inventory/page.tsx:43-44 | no row is both out and low, so the two counters together never exceed the row count |
| Inventory.CountersMatchTabs | src/app/admin/inventory/page.tsx:34-44 | provided every row has a product name or a SKU, with an empty search the "out" and "low" tabs list as many rows as the counters say (a row with neither is hidden by the empty search but still counted) |
| Inventory.StatusLabel | src/app/admin/inventory/page.tsx:139 | the status label: specified by `Inventory.StatusLabelSpec` |
| Inventory.StatusLabelSpec | src/app/admin/inventory/page.tsx:137-139 | "Agotado" exactly for stock 0, "OK" exactly from 10 up, "Bajo" exactly for counted low stock when stock is non-negative; negative stock reads "Bajo" but is not counted |
| Inventory.SaveStock | src/app/admin/inventory/page.tsx:30 | the local stock update: specified by `Inventory.SaveStockSpec` and `Inventory.SaveStockOneRow` |
| Inventory.SaveStockSpec | src/app/admin/inventory/page.tsx:30 | only the stock of rows with that id changes; length, order and other fields stay; an unknown id changes nothing; a later save of the same id wins |
| Inventory.SaveStockOneRow | src/app/admin/inventory/page.tsx:30 | with unique ids a save replaces exactly one row |
| Inventory.InventoryPage.constructor | src/app/admin/inventory/page.tsx:10-24 | the loaded rows, or none when the query returned nothing; empty search, "all" tab, editor closed |
| Inventory.InventoryPage.StartEdit | src/app/admin/inventory/page.tsx:128 | opens the editor on that row with its current stock |
| Inventory.InventoryPage.SetEditValue | src/app/admin/inventory/page.tsx:117 | sets only the edited value |
| Inventory.InventoryPage.CancelEdit | src/app/admin/inventory/page.tsx:120 | closes the editor only |
| Inventory.InventoryPage.SaveStockEdit | src/app/admin/inventory/page.tsx:28-32 | the rows get the local stock update and the editor closes |
| Inventory.InventoryPage.SetSearch | src/app/admin/inventory/page.tsx:60 | sets the search only |
| Inventory.InventoryPage.SetFilter | src/app/admin/inventory/page.tsx:65 | sets the tab only |
| Inventory.InventoryPage.Summary | src/app/admin/inventory/page.tsx:34-44 | the shown rows and both counters, whose sum is at most the row count |
| Brands.StripMarks | src/app/admin/brands/page.tsx:41 | `replace(/[\u0300-\u036f]/g, "")`: specified by `Brands.StripMarksKeepsAlnums` |
| Brands.Collapse | src/app/admin/brands/page.tsx:41 | `replace(/[^a-z0-9]+/g, "-")`: specified by `Brands.CollapseShape` and `Brands.CollapseKeepsAlnums` |
| Brands.TrimDashes | src/app/admin/brands/page.tsx:41 | `replace(/(^-\|-$)/g, "")`: specified by `Brands.TrimDashesShape` and `Brands.TrimKeepsAlnums` |
| Brands.GenerateSlug | src/app/admin/brands/page.tsx:40-42 | `generateSlug`: specified by `Brands.GenerateSlugShape`, `Brands.GenerateSlugAlnums` and `Brands.GenerateSlugEmpty` |
| Brands.SkipRun | src/app/admin/brands/page.tsx:41 | drops exactly the leading run of characters outside `[a-z0-9]` |
| Brands.CollapseShape | src/app/admin/brands/page.tsx:41 | after replacing runs by `-`: only slug characters, no `--`, non-empty iff the input is, and a leading `-` exactly when the input starts outside `[a-z0-9]` |
| Brands.DropLeadingDash | src/app/admin/brands/page.tsx:41 | removing one leading `-` leaves slug characters, no `--`, and no leading `-` |
| Brands.DropTrailingDash | src/app/admin/brands/page.tsx:41 | removing one trailing `-` from such a string leaves neither a leading nor a trailing `-` |
| Brands.TrimDashesShape | src/app/admin/brands/page.tsx:41 | the final trim turns a collapsed string into one that neither starts nor ends with `-` |
| Brands.GenerateSlugShape | src/app/admin/brands/page.tsx:41 | the slug holds only `a-z`, `0-9` and `-`, never `--`, and neither starts nor ends with `-` |
| Brands.CollapseKeepsAlnums | src/app/admin/brands/page.tsx:41 | replacing runs keeps the `[a-z0-9]` characters in order |
| Brands.SkipRunDropsNoAlnum | src/app/admin/brands/page.tsx:41 | skipping a run loses no `[a-z0-9]` character |
| Brands.TrimKeepsAlnums | src/app/admin/brands/page.tsx:41 | trimming dashes keeps the `[a-z0-9]` characters in order |
| Brands.StripMarksKeepsAlnums | src/app/admin/brands/page.tsx:41 | removing combining marks keeps the `[a-z0-9]` characters in order |
| Brands.LowerAlnums | src/app/admin/brands/page.tsx:41 | lower-casing turns the ASCII letters and digits into the `[a-z0-9]` characters, in order |
| Brands.GenerateSlugAlnums | src/app/admin/brands/page.tsx:41 | the slug's letters and digits are the name's ASCII letters and digits, lower-cased, in their original order |
| Brands.GenerateSlugEmpty | src/app/admin/brands/page.tsx:41 | the slug is empty exactly when the name has no ASCII letter or digit |
| Brands.SavePayload | src/app/admin/brands/page.tsx:46 | the name is copied; the slug is the form's slug or else the generated one; an empty logo is saved as null and a non-empty one as itself |
| Brands.SavedSlugNonEmpty | src/app/admin/brands/page.tsx:46 | the saved slug is non-empty when the form has a slug or the name has a letter or digit |
| Brands.BrandsPage.constructor | src/app/admin/brands/page.tsx:11-24 | the loaded brands, or none; modal closed, no edit, no pending delete, empty form |
| Brands.BrandsPage.OpenCreate | src/app/admin/brands/page.tsx:28-32 | opens the modal with an empty form and no brand being edited |
| Brands.BrandsPage.OpenEdit | src/app/admin/brands/page.tsx:34-38 | opens the modal on the brand with its fields, a missing logo as empty text |
| Brands.BrandsPage.EditName | src/app/admin/brands/page.tsx:124 | typing a name regenerates the slug from it |
| Brands.BrandsPage.EditSlug | src/app/admin/brands/page.tsx:129 | sets the slug field only |
| Brands.BrandsPage.EditLogo | src/app/admin/brands/page.tsx:134 | sets the logo field only |
| Brands.BrandsPage.CloseModal | src/app/admin/brands/page.tsx:115 | closes the modal only |
| Brands.BrandsPage.HandleSave | src/app/admin/brands/page.tsx:44-55 | sends an update of the edited brand or an insert, with the save payload, and closes the modal |
| Brands.BrandsPage.AskDelete | src/app/admin/brands/page.tsx:99 | records the brand awaiting confirmation |
| Brands.BrandsPage.CancelDelete | src/app/admin/brands/page.tsx:148 | clears the pending delete |
| Brands.BrandsPage.HandleDelete | src/app/admin/brands/page.tsx:57-64 | a no-op, with no request and the pending id kept, unless the pending id is truthy (present and non-empty); otherwise deletes that id, drops only the brands with it (order kept) and clears the pending id |
| Seqs.WithoutKeySpec | src/app/admin/brands/page.tsx:61 | the local removal keeps exactly the entries with another id, in order, and is a no-op when no entry has the id |
| AdminProducts.Matches | src/app/admin/products/page.tsx:43-45 | the filter lambda on one row (lower-cased name contains the lower-cased search, and "all" or the row's category): characterised by `AdminProducts.FilteredSpec` |
| AdminProducts.Filtered | src/app/admin/products/page.tsx:42-46 | the row filter: specified by `AdminProducts.FilteredSpec` |
| AdminProducts.FilteredSpec | src/app/admin/products/page.tsx:42-46 | a row is shown iff its lower-cased name contains the lower-cased search and the filter is "all" or its category; order is kept |
| AdminProducts.Categories | src/app/admin/products/page.tsx:48 | `[...new Set(map(category))]`: specified by `AdminProducts.CategoriesSpec` and `AdminProducts.CategoryOptionShowsRows` |
| AdminProducts.CategoriesSpec | src/app/admin/products/page.tsx:48 | the options hold each row's category exactly once, nothing else, in first-occurrence order |
| AdminProducts.CategoryOptionShowsRows | src/app/admin/products/page.tsx:42-48 | choosing a named option with no search text shows at least one row |
| AdminProducts.FindMain | src/app/admin/products/page.tsx:106 | finds the first main image, or reports that there is none |
| AdminProducts.MainImage | src/app/admin/products/page.tsx:106 | the main image URL: specified by `AdminProducts.MainImageSpec` |
| AdminProducts.MainImageSpec | src/app/admin/products/page.tsx:106 | the first main image's URL when non-empty, else (no main image, or the first main image's URL empty) the first image's URL, else nothing; always one of the row's own URLs |
| AdminProducts.AdminTotalStock | src/app/admin/products/page.tsx:107 | the row stock `reduce` with `|| 0`: specified by `AdminProducts.AdminTotalStockSpec` |
| AdminProducts.AdminTotalStockSpec | src/app/admin/products/page.tsx:107 | 0 without variants, otherwise the sum, which equals the storefront's stock for the same variants |
| AdminProducts.StockSumsAgree | src/app/admin/products/page.tsx:107 | summing the mapped stock values equals summing the variants' stock |
| AdminProducts.StockBadge | src/app/admin/products/page.tsx:138 | the badge colour: specified by `AdminProducts.StockBadgeSpec` |
| AdminProducts.StockBadgeSpec | src/app/admin/products/page.tsx:138 | red exactly for 0, yellow for below 10 except 0, green from 10 up |
| AdminProducts.ProductsPage.constructor | src/app/admin/products/page.tsx:14-29 | the loaded rows, or none; empty search, "all" category, no pending delete |
| AdminProducts.ProductsPage.SetSearch | src/app/admin/products/page.tsx:70 | sets the search only |
| AdminProducts.ProductsPage.SetFilterCat | src/app/admin/products/page.tsx:76 | sets the category filter only |
| AdminProducts.ProductsPage.AskDelete | src/app/admin/products/page.tsx:148 | records the row awaiting confirmation |
| AdminProducts.ProductsPage.CancelDelete | src/app/admin/products/page.tsx:163 | clears the pending delete |
| AdminProducts.ProductsPage.HandleDelete | src/app/admin/products/page.tsx:33-40 | a no-op, with no request and the pending id kept, unless the pending id is truthy (present and non-empty); otherwise deletes that id, drops only the rows with it and clears the pending id |
| AdminProducts.ProductsPage.View | src/app/admin/products/page.tsx:42-48 | the shown rows and the category options, which never repeat |
| Orders.StatusName | src/types/database.types.ts:167 | a status's name is never the "all" tab |
| Orders.StatusNameInjective | src/app/admin/orders/page.tsx:11 | each tab other than "all" selects exactly one status |
| Orders.CustomerName | src/app/admin/orders/page.tsx:32-43 | the customer-name chain: specified by `Orders.CustomerNameSpec` |
| Orders.CustomerNameSpec | src/app/admin/orders/page.tsx:32-43 | a registered customer is named by the profile or "Cliente"; a guest by `full_name`, else "firstName lastName" when both are present, else "Invitado"; never empty; a registered name ignores the shipping details and a guest's ignores the profile |
| Orders.WithNames | src/app/admin/orders/page.tsx:29-48 | one entry per loaded order, in order, and none when the query returned nothing; each entry carries the customer name that `Orders.CustomerNameSpec` characterises for its row and profile, which is never empty |
| Orders.Matches | src/app/admin/orders/page.tsx:54-56 | the filter lambda on one order (status tab, then name or id search): characterised by `Orders.FilteredSpec` |
| Orders.Filtered | src/app/admin/orders/page.tsx:53-57 | the order filter: specified by `Orders.FilteredSpec` and `Orders.FilteredCoverage` |
| Orders.FilteredSpec | src/app/admin/orders/page.tsx:53-57 | an order is shown iff the tab is "all" or its status, and the lower-cased search is in its lower-cased name or the search is in its id; order is kept |
| Orders.FilteredCoverage | src/app/admin/orders/page.tsx:53-57 | "all" with an empty search lists every order; searching an order's own id under a tab admitting it finds it |
| Orders.OrdersPage.constructor | src/app/admin/orders/page.tsx:16-48 | the named order list; "all" tab and empty search |
| Orders.OrdersPage.SetFilter | src/app/admin/orders/page.tsx:66 | sets the tab only |
| Orders.OrdersPage.SetSearch | src/app/admin/orders/page.tsx:77 | sets the search only |
| Orders.OrdersPage.Shown | src/app/admin/orders/page.tsx:53-57 | the filtered orders |

## Left out

- Cart persistence: reading and writing `localStorage` and the `JSON.parse` on load (`src/context/CartContext.tsx:35-47`) are browser I/O. The store starts empty. The parse of a corrupt saved cart is unguarded in the source, and that failure is not modelled.
- Backend access: every query, update, insert and delete is a foreign service. Examples are `loadInventory`, `loadBrands`, `loadProducts`, `loadOrders`, the profile lookup, and the update after a stock edit. Each page's constructor takes the query result as a parameter. The order profile lookup is a function parameter, and write requests are returned as values. Only the local list effects are modelled.
- Brands.BrandsPage.HandleSave: the list reload that follows a save is a backend query, so the method leaves `brands` unchanged. The method's precondition `form.name != ""` stands for the disabled save button (`src/app/admin/brands/page.tsx:140`).
- Unicode: `toLowerCase` is modelled on ASCII letters only, and `normalize("NFD")` is taken as already applied to the name. The code-unit order of the default `Array.prototype.sort` is modelled as the order of Dafny characters, and UTF-16 surrogate pairs are not modelled.
- Numbers: JavaScript numbers are modelled as unbounded integers. Fractional prices, NaN and floating-point rounding are not represented. `Number(...)` conversions are identities on these integers.
- Catalog.SortImagesSpec: the source comparator returns -1 whenever its first argument is main, so it is inconsistent when two images are main. The model treats main images as tied, and the order among several main images is not determined by the source.
- Sorting algorithm: `Array.prototype.sort` is modelled as a stable insertion sort. Any stable sort gives the same result for a consistent comparator. Stability itself is not stated as a separate lemma.
- BestSellers.Carousel: the source pages a constant list of eight products. The model takes any non-empty list, which the constructor requires.
- Orders.CustomerName: the `shipping_details` column is untyped JSON (`src/types/database.types.ts:170`), and the model assumes its `firstName`, `lastName` and `full_name` fields are strings or absent. A number or other non-string value in those fields, which the source would concatenate or print as is, is not modelled.
- Rendering and UI-only state: JSX, animations, `showFilters`, the `loading`/`saving`/`deleting` flags, `customerEmail`, `statusLabels`, and `formatCLP` currency formatting.
