/** The shop page's listing (src/components/shop/ShopBrowser.tsx): the card mapping of
    the catalogue, the category / search / brand filter, the brand toggle and the
    in-place price sort. */
module Shop {
  import opened Wrappers
  import opened Seqs
  import opened Text
  import Catalog

  const AllCategories: string := "All"
  const GeneralCategory: string := "General"
  const PriceAscending: string := "price-asc"
  const PriceDescending: string := "price-desc"
  const Newest: string := "newest"

  /** A product as the card grid sees it: the catalogue record plus `image` and a
      defaulted `category`. */
  datatype ShopItem = ShopItem(product: Catalog.Product, image: string, salePrice: Option<int>, category: string)

  /** The `initialProducts.map(...)`: `images[0] || "/placeholder.jpg"`, `salePrice ?? undefined`
      (both absent values are `None`) and `category || "General"`. */
  function ToShopItem(p: Catalog.Product): (r: ShopItem)
    ensures r.product == p && r.salePrice == p.salePrice
    ensures |p.images| > 0 && p.images[0] != "" ==> r.image == p.images[0]
    ensures |p.images| == 0 || p.images[0] == "" ==> r.image == Catalog.Placeholder
    ensures Truthy(p.category) ==> r.category == p.category.value
    ensures !Truthy(p.category) ==> r.category == GeneralCategory
  {
    var image := if |p.images| > 0 && p.images[0] != "" then p.images[0] else Catalog.Placeholder;
    ShopItem(p, image, p.salePrice, OrElse(p.category, GeneralCategory))
  }

  // ----------------------------------------------------------------- filter

  /** The three conditions of `filteredProducts`. */
  predicate Matches(item: ShopItem, category: string, query: string, brands: seq<string>) {
    (category == AllCategories || item.category == category)
    && MatchesQuery(item.product.name, query)
    && (|brands| == 0 || item.product.brand in brands)
  }

  function Filtered(items: seq<ShopItem>, category: string, query: string, brands: seq<string>): seq<ShopItem> {
    Filter(items, x => Matches(x, category, query, brands))
  }

  /** A card is listed iff it is one of the products and passes all three conditions, and the
      listing keeps the products' order. */
  lemma FilteredSpec(items: seq<ShopItem>, category: string, query: string, brands: seq<string>)
    ensures forall x :: x in Filtered(items, category, query, brands) <==>
      x in items
      && (category == AllCategories || x.category == category)
      && Contains(Lower(x.product.name), Lower(query))
      && (|brands| == 0 || x.product.brand in brands)
    ensures Subseq(Filtered(items, category, query, brands), items)
  {
    FilterIsSubseq(items, x => Matches(x, category, query, brands));
  }

  /** With the initial state ("All", no query, no brands) every product is listed. */
  lemma NoFilterListsAll(items: seq<ShopItem>)
    ensures Filtered(items, AllCategories, "", []) == items
  {
    assert Lower("") == "";
    forall x | x in items ensures Matches(x, AllCategories, "", []) {
      ContainsEmpty(Lower(x.product.name));
    }
    FilterKeepsAll(items, x => Matches(x, AllCategories, "", []));
  }

  // ----------------------------------------------------------------- brand toggle

  /** `toggleBrand`: drop every copy of a selected brand, or append one that is not selected. */
  function Toggle(brands: seq<string>, brand: string): seq<string> {
    if brand in brands then Filter(brands, b => b != brand) else brands + [brand]
  }

  /** The toggled brand flips between selected and not selected; every other brand keeps its
      selection, and an absent brand goes to the end. */
  lemma ToggleSpec(brands: seq<string>, brand: string)
    ensures brand in Toggle(brands, brand) <==> brand !in brands
    ensures forall b :: b != brand ==> (b in Toggle(brands, brand) <==> b in brands)
    ensures brand !in brands ==> Toggle(brands, brand) == brands + [brand]
    ensures brand in brands ==> Subseq(Toggle(brands, brand), brands)
  {
    if brand in brands {
      FilterIsSubseq(brands, b => b != brand);
    }
  }

  /** The selection never holds a brand twice. */
  lemma ToggleKeepsNoDup(brands: seq<string>, brand: string)
    requires NoDup(brands)
    ensures NoDup(Toggle(brands, brand))
  {
    if brand in brands {
      FilterKeepsNoDup(brands, b => b != brand);
    }
  }

  /** Toggling twice restores the selected set; starting from an unselected brand it restores
      the very same list. */
  lemma ToggleTwice(brands: seq<string>, brand: string)
    ensures forall b :: b in Toggle(Toggle(brands, brand), brand) <==> b in brands
    ensures brand !in brands ==> Toggle(Toggle(brands, brand), brand) == brands
  {
    ToggleSpec(brands, brand);
    ToggleSpec(Toggle(brands, brand), brand);
    if brand !in brands {
      var p := b => b != brand;
      FilterAppend(brands, [brand], p);
      FilterKeepsAll(brands, p);
      assert Filter([brand], p) == [];
    }
  }

  // ----------------------------------------------------------------- sort

  /** The comparators `a.price - b.price` and `b.price - a.price`: `a` may precede `b` when the
      comparator is not positive. */
  function PriceLe(descending: bool): (ShopItem, ShopItem) -> bool {
    (a: ShopItem, b: ShopItem) =>
      if descending then b.product.price - a.product.price <= 0 else a.product.price - b.product.price <= 0
  }

  lemma PriceLeTotal(descending: bool)
    ensures Total(PriceLe(descending))
  {
  }

  /** Inserting before the first element `x` is `le`: the split that the array sort's inner
      loop finds. */
  lemma {:induction false} InsertAt<T>(x: T, s: seq<T>, le: (T, T) -> bool, m: nat)
    requires m <= |s|
    requires forall k :: 0 <= k < m ==> !le(x, s[k])
    requires m == |s| || le(x, s[m])
    ensures Insert(x, s, le) == s[..m] + [x] + s[m..]
    decreases |s|, 1
  {
    if m == 0 {
      assert s[..0] + [x] + s[0..] == [x] + s;
    } else {
      InsertPastHead(x, s, le);
      InsertAtTail(x, s, le, m);
      SplitAfterHead(s[0], s[1..], x, m);
    }
  }

  /** `x` not `le` the head is inserted into the tail. */
  lemma InsertPastHead<T>(x: T, s: seq<T>, le: (T, T) -> bool)
    requires s != [] && !le(x, s[0])
    ensures Insert(x, s, le) == [s[0]] + Insert(x, s[1..], le)
    ensures [s[0]] + s[1..] == s
  {
  }

  /** The induction step of `InsertAt`: the insertion into the tail splits one place earlier. */
  lemma InsertAtTail<T>(x: T, s: seq<T>, le: (T, T) -> bool, m: nat)
    requires 0 < m <= |s|
    requires forall k :: 0 <= k < m ==> !le(x, s[k])
    requires m == |s| || le(x, s[m])
    ensures Insert(x, s[1..], le) == s[1..][..m - 1] + [x] + s[1..][m - 1..]
    decreases |s|, 0
  {
    var t := s[1..];
    forall k | 0 <= k < m - 1 ensures !le(x, t[k]) {
      assert t[k] == s[k + 1];
    }
    assert m - 1 == |t| || le(x, t[m - 1]);
    InsertAt(x, t, le, m - 1);
  }

  lemma SplitAfterHead<T>(h: T, t: seq<T>, x: T, m: nat)
    requires 0 < m <= |t| + 1
    ensures [h] + (t[..m - 1] + [x] + t[m - 1..]) == ([h] + t)[..m] + [x] + ([h] + t)[m..]
  {
    assert ([h] + t)[..m] == [h] + t[..m - 1];
    assert ([h] + t)[m..] == t[m - 1..];
  }

  /** The inner loop of one step: shifts left, one place, the elements after `i` that `x` may
      not precede, and returns the slot `j` left free for `x`. */
  method FindSlot<T>(a: array<T>, i: nat, x: T, le: (T, T) -> bool) returns (j: nat)
    requires i < a.Length
    modifies a
    ensures i <= j < a.Length
    ensures forall k :: 0 <= k < i ==> a[k] == old(a[k])
    ensures forall k :: i <= k < j ==> a[k] == old(a[k + 1])
    ensures forall k :: j < k < a.Length ==> a[k] == old(a[k])
    ensures forall k :: i < k <= j ==> !le(x, old(a[k]))
    ensures j + 1 == a.Length || le(x, old(a[j + 1]))
  {
    j := i;
    while j + 1 < a.Length && !le(x, a[j + 1])
      invariant i <= j < a.Length
      invariant forall k :: 0 <= k < i ==> a[k] == old(a[k])
      invariant forall k :: i <= k < j ==> a[k] == old(a[k + 1])
      invariant forall k :: j < k < a.Length ==> a[k] == old(a[k])
      invariant forall k :: i < k <= j ==> !le(x, old(a[k]))
    {
      a[j] := a[j + 1];
      j := j + 1;
    }
  }

  /** One step of the sort: moves `a[i]` right past the elements it is not `le`, into the
      sorted part `a[i + 1..]`. */
  method InsertStep<T>(a: array<T>, i: nat, le: (T, T) -> bool)
    requires i < a.Length
    modifies a
    ensures a[..i] == old(a[..i])
    ensures a[i..] == Insert(old(a[i]), old(a[i + 1..]), le)
  {
    ghost var sorted := a[i + 1..];
    var x := a[i];
    var j := FindSlot(a, i, x, le);
    a[j] := x;
    ghost var m := j - i;
    forall k | 0 <= k < m ensures !le(x, sorted[k]) {
      assert sorted[k] == old(a[i + 1 + k]);
    }
    InsertAt(x, sorted, le, m);
    assert a[..i] == old(a[..i]);
    ghost var r := a[i..];
    forall k | 0 <= k < m ensures r[k] == sorted[k] {
      assert r[k] == a[i + k] == old(a[i + k + 1]);
    }
    forall k | m < k < |r| ensures r[k] == sorted[k - 1] {
      assert r[k] == a[i + k] == old(a[i + k]);
    }
    SplicedAt(r, sorted, x, m);
  }

  /** A sequence that agrees with `s` before `m`, holds `x` at `m` and agrees with `s` shifted by
      one after it is `s` with `x` inserted at `m`. */
  lemma SplicedAt<T>(r: seq<T>, s: seq<T>, x: T, m: nat)
    requires m <= |s| && |r| == |s| + 1
    requires forall k :: 0 <= k < m ==> r[k] == s[k]
    requires r[m] == x
    requires forall k :: m < k < |r| ==> r[k] == s[k - 1]
    ensures r == s[..m] + [x] + s[m..]
  {
    var t := s[..m] + [x] + s[m..];
    forall k | 0 <= k < |r| ensures r[k] == t[k] {
      if k < m {
        assert t[k] == s[k];
      } else if k > m {
        assert t[k] == s[m..][k - m - 1];
      }
    }
  }

  /** `Array.prototype.sort(compare)` on the array itself: a stable insertion sort, working from
      the right end, whose result is the functional `InsertionSort`. */
  method SortInPlace<T>(a: array<T>, le: (T, T) -> bool)
    modifies a
    ensures a[..] == InsertionSort(old(a[..]), le)
  {
    ghost var s := a[..];
    var i := a.Length;
    while i > 0
      invariant 0 <= i <= a.Length
      invariant a[..i] == s[..i]
      invariant a[i..] == InsertionSort(s[i..], le)
    {
      i := i - 1;
      assert a[..i] == s[..i] && a[i] == s[i] && a[i + 1..] == InsertionSort(s[i + 1..], le) by {
        assert a[..i + 1] == s[..i + 1];
        assert a[i + 1..] == a[i..][1..];
      }
      InsertStep(a, i, le);
      SortFromCons(s, i, le);
    }
    assert s[0..] == s;
  }

  lemma SortFromCons<T>(s: seq<T>, i: nat, le: (T, T) -> bool)
    requires i < |s|
    ensures InsertionSort(s[i..], le) == Insert(s[i], InsertionSort(s[i + 1..], le), le)
  {
    assert s[i..][1..] == s[i + 1..];
  }

  /** The cards shown: filtered, then sorted by price when a price order is chosen; any other
      `sortBy` (the default "newest") keeps the filtered order. */
  function Listing(items: seq<ShopItem>, category: string, query: string, brands: seq<string>, sortBy: string): seq<ShopItem> {
    var f := Filtered(items, category, query, brands);
    if sortBy == PriceAscending then InsertionSort(f, PriceLe(false))
    else if sortBy == PriceDescending then InsertionSort(f, PriceLe(true))
    else f
  }

  /** Adjacent order extends to every pair. */
  lemma {:induction false} PricesOrdered(s: seq<ShopItem>, descending: bool, i: nat, j: nat)
    requires SortedBy(s, PriceLe(descending))
    requires i <= j < |s|
    ensures descending ==> s[i].product.price >= s[j].product.price
    ensures !descending ==> s[i].product.price <= s[j].product.price
  {
    if i < j {
      PricesOrdered(s, descending, i, j - 1);
      assert PriceLe(descending)(s[j - 1], s[j]);
    }
  }

  /** The listing is a permutation of the filtered cards; "price-asc" gives non-decreasing and
      "price-desc" non-increasing prices; any other order is the filtered list itself. */
  lemma ListingSpec(items: seq<ShopItem>, category: string, query: string, brands: seq<string>, sortBy: string)
    ensures multiset(Listing(items, category, query, brands, sortBy)) == multiset(Filtered(items, category, query, brands))
    ensures sortBy == PriceAscending ==> forall i, j :: 0 <= i <= j < |Listing(items, category, query, brands, sortBy)| ==>
      Listing(items, category, query, brands, sortBy)[i].product.price <= Listing(items, category, query, brands, sortBy)[j].product.price
    ensures sortBy == PriceDescending ==> forall i, j :: 0 <= i <= j < |Listing(items, category, query, brands, sortBy)| ==>
      Listing(items, category, query, brands, sortBy)[i].product.price >= Listing(items, category, query, brands, sortBy)[j].product.price
    ensures sortBy != PriceAscending && sortBy != PriceDescending ==>
      Listing(items, category, query, brands, sortBy) == Filtered(items, category, query, brands)
  {
    var f := Filtered(items, category, query, brands);
    var r := Listing(items, category, query, brands, sortBy);
    if sortBy == PriceAscending || sortBy == PriceDescending {
      var descending := sortBy == PriceDescending;
      PriceLeTotal(descending);
      InsertionSortSorted(f, PriceLe(descending));
      forall i, j | 0 <= i <= j < |r|
        ensures descending ==> r[i].product.price >= r[j].product.price
        ensures !descending ==> r[i].product.price <= r[j].product.price
      {
        PricesOrdered(r, descending, i, j);
      }
    }
  }

  // ----------------------------------------------------------------- page state

  /** `ShopBrowser`'s state: the mapped products and the four filter controls. */
  class ShopBrowser {
    const products: seq<ShopItem>
    var selectedCategory: string
    var searchQuery: string
    var sortBy: string
    var selectedBrands: seq<string>

    ghost predicate Valid()
      reads this
    {
      NoDup(selectedBrands)
    }

    constructor (initialProducts: seq<Catalog.Product>)
      ensures Valid()
      ensures products == Map(initialProducts, ToShopItem)
      ensures selectedCategory == AllCategories && searchQuery == "" && sortBy == Newest && selectedBrands == []
    {
      products := Map(initialProducts, ToShopItem);
      selectedCategory := AllCategories;
      searchQuery := "";
      sortBy := Newest;
      selectedBrands := [];
    }

    method SetCategory(category: string)
      requires Valid()
      modifies this
      ensures Valid() && selectedCategory == category
      ensures searchQuery == old(searchQuery) && sortBy == old(sortBy) && selectedBrands == old(selectedBrands)
    {
      selectedCategory := category;
    }

    method SetSearchQuery(query: string)
      requires Valid()
      modifies this
      ensures Valid() && searchQuery == query
      ensures selectedCategory == old(selectedCategory) && sortBy == old(sortBy) && selectedBrands == old(selectedBrands)
    {
      searchQuery := query;
    }

    method SetSortBy(order: string)
      requires Valid()
      modifies this
      ensures Valid() && sortBy == order
      ensures selectedCategory == old(selectedCategory) && searchQuery == old(searchQuery) && selectedBrands == old(selectedBrands)
    {
      sortBy := order;
    }

    method ToggleBrand(brand: string)
      requires Valid()
      modifies this
      ensures Valid() && selectedBrands == Toggle(old(selectedBrands), brand)
      ensures selectedCategory == old(selectedCategory) && searchQuery == old(searchQuery) && sortBy == old(sortBy)
    {
      ToggleKeepsNoDup(selectedBrands, brand);
      selectedBrands := Toggle(selectedBrands, brand);
    }

    /** `filteredProducts` after the sort: filter into a fresh array, sort it in place when a
        price order is selected. */
    method VisibleProducts() returns (r: seq<ShopItem>)
      ensures r == Listing(products, selectedCategory, searchQuery, selectedBrands, sortBy)
    {
      var f := Filtered(products, selectedCategory, searchQuery, selectedBrands);
      if sortBy == PriceAscending || sortBy == PriceDescending {
        var a := new ShopItem[|f|](k requires 0 <= k < |f| => f[k]);
        assert a[..] == f;
        SortInPlace(a, PriceLe(sortBy == PriceDescending));
        r := a[..];
      } else {
        r := f;
      }
    }
  }
}
