/** The admin products list (src/app/admin/products/page.tsx): search and category filters,
    the category options, each row's main image, total stock and stock badge, and the local
    removal after a delete. */
module AdminProducts {
  import opened Wrappers
  import opened Seqs
  import opened Text
  import Catalog

  /** A joined `product_images(url, is_main)` row. */
  datatype AdminImage = AdminImage(url: string, isMain: bool)

  /** A `products` row with `product_variants(stock_quantity)` and `product_images(url, is_main)`
      joined; a join that came back missing is `None`. */
  datatype ProductRow = ProductRow(
    id: string,
    name: string,
    category: Option<string>,
    images: Option<seq<AdminImage>>,
    variantStock: Option<seq<int>>)

  // ----------------------------------------------------------------- filters

  /** `name` matches the search and the category is the selected one, or "all" is selected. */
  predicate Matches(p: ProductRow, search: string, filterCat: string) {
    MatchesQuery(p.name, search) && (filterCat == "all" || p.category == Some(filterCat))
  }

  function Filtered(products: seq<ProductRow>, search: string, filterCat: string): seq<ProductRow> {
    Filter(products, p => Matches(p, search, filterCat))
  }

  /** A row is listed iff its lower-cased name contains the lower-cased search and its category
      is the filter (or the filter is "all"); the listing keeps the loaded order. */
  lemma FilteredSpec(products: seq<ProductRow>, search: string, filterCat: string)
    ensures forall p :: p in Filtered(products, search, filterCat) <==>
      p in products && Contains(Lower(p.name), Lower(search))
      && (filterCat == "all" || p.category == Some(filterCat))
    ensures Subseq(Filtered(products, search, filterCat), products)
  {
    FilterIsSubseq(products, p => Matches(p, search, filterCat));
  }

  function Category(p: ProductRow): Option<string> { p.category }

  /** `[...new Set(products.map((p) => p.category))]`; a missing category is kept as `None`. */
  function Categories(products: seq<ProductRow>): seq<Option<string>> {
    Dedup(Map(products, Category))
  }

  /** The options hold every row's category exactly once, nothing else, in the order each first
      appears in the list. */
  lemma CategoriesSpec(products: seq<ProductRow>)
    ensures NoDup(Categories(products))
    ensures forall p :: p in products ==> p.category in Categories(products)
    ensures forall c :: c in Categories(products) ==> exists p :: p in products && p.category == c
    ensures forall i, j :: 0 <= i < j < |Categories(products)| ==>
      IndexOf(Map(products, Category), Categories(products)[i]) < IndexOf(Map(products, Category), Categories(products)[j])
  {
    var cs := Map(products, Category);
    forall p | p in products ensures p.category in Categories(products) {
      var k :| 0 <= k < |products| && products[k] == p;
      assert cs[k] == p.category;
    }
    forall c | c in Categories(products) ensures exists p :: p in products && p.category == c {
      var k :| 0 <= k < |cs| && cs[k] == c;
      assert products[k] in products;
    }
    DedupFirstOccurrenceOrder(cs);
  }

  /** With no search text, picking any named category from the options lists at least one row. */
  lemma CategoryOptionShowsRows(products: seq<ProductRow>, c: string)
    requires Some(c) in Categories(products)
    ensures Filtered(products, "", c) != []
  {
    CategoriesSpec(products);
    var p :| p in products && p.category == Some(c);
    assert Lower("") == "";
    ContainsEmpty(Lower(p.name));
    assert p in Filtered(products, "", c);
  }

  // ----------------------------------------------------------------- per row

  /** `images.find((i) => i.is_main)`. */
  function FindMain(images: seq<AdminImage>): (r: Option<nat>)
    ensures r.Some? ==> r.value < |images| && images[r.value].isMain
    ensures r.Some? ==> forall k :: 0 <= k < r.value ==> !images[k].isMain
    ensures r.None? ==> forall k :: 0 <= k < |images| ==> !images[k].isMain
  {
    if images == [] then None
    else if images[0].isMain then Some(0)
    else
      var rest := FindMain(images[1..]);
      if rest.Some? then Some(rest.value + 1) else None
  }

  /** `mainImg`: `find(is_main)?.url || product_images?.[0]?.url`. */
  function MainImage(images: Option<seq<AdminImage>>): Option<string> {
    match images
    case None => None
    case Some(s) =>
      var m := FindMain(s);
      if m.Some? && s[m.value].url != "" then Some(s[m.value].url)
      else if |s| > 0 then Some(s[0].url)
      else None
  }

  /** The first main image's URL when it is not empty; failing that (no main image, or an empty
      URL on the first one) the first image's URL;
      nothing when there are no images. Whatever is shown is one of the row's own URLs. */
  lemma MainImageSpec(images: Option<seq<AdminImage>>)
    ensures images.GetOr([]) == [] ==> MainImage(images) == None
    ensures forall i :: (0 <= i < |images.GetOr([])| && images.value[i].isMain && images.value[i].url != ""
      && (forall k :: 0 <= k < i ==> !images.value[k].isMain)) ==> MainImage(images) == Some(images.value[i].url)
    ensures images.GetOr([]) != [] && (forall k :: 0 <= k < |images.value| ==> !images.value[k].isMain) ==>
      MainImage(images) == Some(images.value[0].url)
    ensures images.GetOr([]) != [] && FindMain(images.value).Some? && images.value[FindMain(images.value).value].url == "" ==>
      MainImage(images) == Some(images.value[0].url)
    ensures MainImage(images).Some? ==> exists img :: img in images.GetOr([]) && img.url == MainImage(images).value
  {
    if images.Some? {
      var s := images.value;
      var m := FindMain(s);
      if m.Some? {
        forall i | 0 <= i < |s| && s[i].isMain && (forall k :: 0 <= k < i ==> !s[k].isMain)
          ensures m.value == i
        {
        }
        assert s[m.value] in s;
      }
      if s != [] {
        assert s[0] in s;
      }
    }
  }

  /** `product_variants?.reduce((s, v) => s + v.stock_quantity, 0) || 0`; `stock_quantity` is a
      non-null column, so the sum is never NaN. */
  function AdminTotalStock(variantStock: Option<seq<int>>): int {
    SumOf(variantStock.GetOr([]), (q: int) => q)
  }

  /** 0 without variants; otherwise the sum of the variants' stock, so it matches the
      storefront's `stock` for the same variants. */
  lemma AdminTotalStockSpec(vs: seq<Catalog.RawVariant>)
    ensures AdminTotalStock(None) == 0 && AdminTotalStock(Some([])) == 0
    ensures AdminTotalStock(Some(Map(vs, Catalog.StockOrZero))) == Catalog.TotalStock(Some(vs))
  {
    assert AdminTotalStock(Some([])) == 0;
    StockSumsAgree(vs);
  }

  lemma {:induction false} StockSumsAgree(vs: seq<Catalog.RawVariant>)
    ensures SumOf(Map(vs, Catalog.StockOrZero), (q: int) => q) == SumOf(vs, Catalog.StockOrZero)
  {
    if vs != [] {
      var n := |vs| - 1;
      assert Map(vs, Catalog.StockOrZero)[..n] == Map(vs[..n], Catalog.StockOrZero);
      StockSumsAgree(vs[..n]);
    }
  }

  datatype Badge = Red | Yellow | Green

  /** The stock cell's colour. */
  function StockBadge(totalStock: int): Badge {
    if totalStock == 0 then Red else if totalStock < 10 then Yellow else Green
  }

  /** Red for no stock, yellow for 1 to 9 units, green from 10 up; a negative total shows
      yellow. */
  lemma StockBadgeSpec(totalStock: int)
    ensures StockBadge(totalStock) == Red <==> totalStock == 0
    ensures StockBadge(totalStock) == Yellow <==> totalStock < 10 && totalStock != 0
    ensures StockBadge(totalStock) == Green <==> totalStock >= 10
  {
  }

  function RowId(p: ProductRow): string { p.id }

  /** The page state. */
  class ProductsPage {
    var products: seq<ProductRow>
    var search: string
    var filterCat: string
    var deleteId: Option<string>

    /** After `loadProducts`: `setProducts(data || [])`. */
    constructor (loaded: Option<seq<ProductRow>>)
      ensures products == loaded.GetOr([]) && search == "" && filterCat == "all" && deleteId == None
    {
      products := loaded.GetOr([]);
      search := "";
      filterCat := "all";
      deleteId := None;
    }

    method SetSearch(query: string)
      modifies this
      ensures search == query
      ensures products == old(products) && filterCat == old(filterCat) && deleteId == old(deleteId)
    {
      search := query;
    }

    method SetFilterCat(category: string)
      modifies this
      ensures filterCat == category
      ensures products == old(products) && search == old(search) && deleteId == old(deleteId)
    {
      filterCat := category;
    }

    /** The trash button of a row. */
    method AskDelete(id: string)
      modifies this
      ensures deleteId == Some(id)
      ensures products == old(products) && search == old(search) && filterCat == old(filterCat)
    {
      deleteId := Some(id);
    }

    method CancelDelete()
      modifies this
      ensures deleteId == None
      ensures products == old(products) && search == old(search) && filterCat == old(filterCat)
    {
      deleteId := None;
    }

    /** `handleDelete`: nothing unless the pending id is truthy (a missing or empty id returns
        early); otherwise the delete request for it, the rows with that id dropped from the
        local list, and a closed dialog. */
    method HandleDelete() returns (deleted: Option<string>)
      modifies this
      ensures !Truthy(old(deleteId)) ==> deleted == None && products == old(products) && deleteId == old(deleteId)
      ensures Truthy(old(deleteId)) ==> deleted == old(deleteId) && deleteId == None
      ensures Truthy(old(deleteId)) ==> products == WithoutKey(old(products), RowId, old(deleteId).value)
      ensures search == old(search) && filterCat == old(filterCat)
    {
      if !Truthy(deleteId) {
        return None;
      }
      deleted := deleteId;
      products := WithoutKey(products, RowId, deleteId.value);
      deleteId := None;
    }

    /** The rows shown and the category options. */
    method View() returns (rows: seq<ProductRow>, options: seq<Option<string>>)
      ensures rows == Filtered(products, search, filterCat)
      ensures options == Categories(products)
      ensures NoDup(options)
    {
      rows := Filtered(products, search, filterCat);
      options := Categories(products);
    }
  }
}
