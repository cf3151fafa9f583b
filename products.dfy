/** `transformProduct` (src/services/products.ts): turns a product row joined with
    its brand, images and variants into the storefront's `Product` record. */
module Catalog {
  import opened Wrappers
  import opened Seqs
  import opened Text

  /** A joined `product_images` row. */
  datatype RawImage = RawImage(url: string, isMain: bool, displayOrder: Option<int>)

  /** A joined `product_variants` row. */
  datatype RawVariant = RawVariant(size: string, color: Option<string>, stockQuantity: Option<int>)

  /** A `products` row with `brand:brands(name)`, `images` and `variants` joined; a join that
      came back missing is `None`. */
  datatype RawProduct = RawProduct(
    id: string,
    name: string,
    slug: string,
    description: Option<string>,
    price: int,
    salePrice: Option<int>,
    category: Option<string>,
    brandName: Option<string>,
    images: Option<seq<RawImage>>,
    isFeatured: bool,
    isDrop: bool,
    variants: Option<seq<RawVariant>>)

  /** The storefront's `Product`. */
  datatype Product = Product(
    id: string,
    name: string,
    slug: string,
    description: Option<string>,
    price: int,
    salePrice: Option<int>,
    category: Option<string>,
    brand: string,
    images: seq<string>,
    isFeatured: bool,
    isDrop: bool,
    stock: int,
    sizes: seq<string>,
    colors: seq<string>,
    features: seq<string>)

  const Placeholder: string := "/placeholder.jpg"
  const UnknownBrand: string := "Unknown"

  /** The four fixed feature lines, code point for code point as the source spells them. */
  const StaticFeatures: seq<string> := [
    "Parte superior de cuero",
    "Suela de goma duradera",
    "Amortiguaci\U{CE69}n c\U{CE69}moda",
    "Dise\U{CE68}o cl\U{CE58}sico"
  ]

  // ----------------------------------------------------------------- images

  /** `display_order || 0`. */
  function DisplayOrder(img: RawImage): int {
    img.displayOrder.GetOr(0)
  }

  /** The order the image comparator induces: a main image first, then by display order.
      Two main images tie (the source's comparator answers -1 both ways for them). */
  predicate ImageLe(a: RawImage, b: RawImage) {
    a.isMain || (!b.isMain && DisplayOrder(a) <= DisplayOrder(b))
  }

  lemma ImageLeTotal()
    ensures Total(ImageLe)
  {
  }

  /** `(p.images || []).sort(...)`, a stable sort. */
  function SortImages(images: Option<seq<RawImage>>): seq<RawImage> {
    InsertionSort(images.GetOr([]), ImageLe)
  }

  function ImageUrl(img: RawImage): string {
    img.url
  }

  /** A list sorted by `ImageLe` has its main images first and its other images in
      non-decreasing display order. */
  lemma {:induction false} ImageOrderFacts(s: seq<RawImage>)
    requires SortedBy(s, ImageLe)
    ensures forall i, j :: 0 <= i < j < |s| && !s[i].isMain ==>
      !s[j].isMain && DisplayOrder(s[i]) <= DisplayOrder(s[j])
  {
    if |s| > 1 {
      var t := s[1..];
      assert SortedBy(t, ImageLe) by {
        forall i | 0 <= i < |t| - 1 ensures ImageLe(t[i], t[i + 1]) {
          assert ImageLe(s[i + 1], s[i + 2]);
        }
      }
      ImageOrderFacts(t);
      forall i, j | 0 <= i < j < |s| && !s[i].isMain
        ensures !s[j].isMain && DisplayOrder(s[i]) <= DisplayOrder(s[j])
      {
        if i == 0 {
          assert ImageLe(s[0], s[1]);
          if j > 1 {
            assert t[0] == s[1] && t[j - 1] == s[j];
          }
        } else {
          assert t[i - 1] == s[i] && t[j - 1] == s[j];
        }
      }
    }
  }

  /** The sorted images are a permutation of the input; a main image, when there is one,
      comes first; no main image follows a non-main one; and the non-main images are in
      non-decreasing `display_order || 0`. */
  lemma SortImagesSpec(images: Option<seq<RawImage>>)
    ensures multiset(SortImages(images)) == multiset(images.GetOr([]))
    ensures (exists img :: img in images.GetOr([]) && img.isMain) ==> SortImages(images)[0].isMain
    ensures forall i, j :: 0 <= i < j < |SortImages(images)| && !SortImages(images)[i].isMain ==>
      !SortImages(images)[j].isMain
      && DisplayOrder(SortImages(images)[i]) <= DisplayOrder(SortImages(images)[j])
  {
    var s := SortImages(images);
    ImageLeTotal();
    InsertionSortSorted(images.GetOr([]), ImageLe);
    ImageOrderFacts(s);
    if exists img :: img in images.GetOr([]) && img.isMain {
      var img :| img in images.GetOr([]) && img.isMain;
      assert img in multiset(s);
      var j :| 0 <= j < |s| && s[j] == img;
    }
  }

  // ----------------------------------------------------- sizes, colours, stock

  function VariantSize(v: RawVariant): string {
    v.size
  }

  /** `Array.from(new Set(variants.map(v => v.size))).sort()`. */
  function SortedSizes(variants: seq<RawVariant>): seq<string> {
    InsertionSort(Dedup(Map(variants, VariantSize)), StrLe)
  }

  /** Each variant size appears exactly once, and the list is in ascending string order. */
  lemma SortedSizesSpec(variants: seq<RawVariant>)
    ensures forall x :: x in SortedSizes(variants) <==> exists v :: v in variants && v.size == x
    ensures NoDup(SortedSizes(variants))
    ensures forall i, j :: 0 <= i < j < |SortedSizes(variants)| ==>
      StrLe(SortedSizes(variants)[i], SortedSizes(variants)[j])
      && SortedSizes(variants)[i] != SortedSizes(variants)[j]
  {
    var names := Map(variants, VariantSize);
    var d := Dedup(names);
    var r := SortedSizes(variants);
    forall x ensures x in r <==> exists v :: v in variants && v.size == x {
      assert x in r <==> x in multiset(d);
      if x in names {
        var k :| 0 <= k < |names| && names[k] == x;
        assert variants[k] in variants;
      }
      if exists v :: v in variants && v.size == x {
        var v :| v in variants && v.size == x;
        var k :| 0 <= k < |variants| && variants[k] == v;
        assert names[k] == x;
      }
    }
    MultisetNoDup(r, d);
    forall a, b ensures StrLe(a, b) || StrLe(b, a) { StrLeTotal(a, b); }
    InsertionSortSorted(d, StrLe);
    StrLeChain(r);
  }

  /** In a list sorted by `StrLe` every earlier element is `StrLe` every later one. */
  lemma {:induction false} StrLeChain(s: seq<string>)
    requires SortedBy(s, StrLe)
    ensures forall i, j :: 0 <= i < j < |s| ==> StrLe(s[i], s[j])
  {
    if |s| > 1 {
      var t := s[1..];
      assert SortedBy(t, StrLe) by {
        forall i | 0 <= i < |t| - 1 ensures StrLe(t[i], t[i + 1]) {
          assert StrLe(s[i + 1], s[i + 2]);
        }
      }
      StrLeChain(t);
      forall i, j | 0 <= i < j < |s| ensures StrLe(s[i], s[j]) {
        if i == 0 {
          if j > 1 {
            assert t[0] == s[1] && t[j - 1] == s[j];
            assert StrLe(s[0], s[1]);
            StrLeTransitive(s[0], s[1], s[j]);
          }
        } else {
          assert t[i - 1] == s[i] && t[j - 1] == s[j];
        }
      }
    }
  }

  predicate HasColor(v: RawVariant) {
    Truthy(v.color)
  }

  function VariantColor(v: RawVariant): string {
    v.color.GetOr("")
  }

  /** `variants.map(v => v.color).filter(Boolean)`: the non-empty colours in variant order. */
  function ColorList(variants: seq<RawVariant>): seq<string> {
    Map(Filter(variants, HasColor), VariantColor)
  }

  /** `Array.from(new Set(ColorList(variants)))`. */
  function DistinctColors(variants: seq<RawVariant>): seq<string> {
    Dedup(ColorList(variants))
  }

  /** Each non-empty variant colour appears exactly once, in order of first occurrence;
      missing and empty colours are left out. */
  lemma DistinctColorsSpec(variants: seq<RawVariant>)
    ensures forall x :: x in DistinctColors(variants) <==>
      exists v :: v in variants && v.color == Some(x) && x != ""
    ensures NoDup(DistinctColors(variants))
    ensures forall i, j :: 0 <= i < j < |DistinctColors(variants)| ==>
      IndexOf(ColorList(variants), DistinctColors(variants)[i])
      < IndexOf(ColorList(variants), DistinctColors(variants)[j])
  {
    var f := Filter(variants, HasColor);
    var cs := ColorList(variants);
    forall x ensures x in cs <==> exists v :: v in variants && v.color == Some(x) && x != "" {
      if x in cs {
        var k :| 0 <= k < |cs| && cs[k] == x;
        assert f[k] in f;
      }
      if exists v :: v in variants && v.color == Some(x) && x != "" {
        var v :| v in variants && v.color == Some(x) && x != "";
        assert v in f;
        var k :| 0 <= k < |f| && f[k] == v;
        assert cs[k] == x;
      }
    }
    DedupFirstOccurrenceOrder(cs);
  }

  function StockOrZero(v: RawVariant): int {
    v.stockQuantity.GetOr(0)
  }

  /** `variants.reduce((acc, v) => acc + (v.stock_quantity || 0), 0) || 0`. */
  function TotalStock(variants: Option<seq<RawVariant>>): int {
    SumOf(variants.GetOr([]), StockOrZero)
  }

  /** The stock is the sum of the variants' stock with a missing value counted as 0:
      0 without variants, growing by each appended variant's stock. */
  lemma TotalStockSpec(vs: seq<RawVariant>, v: RawVariant)
    ensures TotalStock(None) == 0 && TotalStock(Some([])) == 0
    ensures TotalStock(Some(vs + [v])) == TotalStock(Some(vs)) + v.stockQuantity.GetOr(0)
    ensures (forall w :: w in vs ==> w.stockQuantity.GetOr(0) >= 0) ==> TotalStock(Some(vs)) >= 0
  {
    assert (vs + [v])[..|vs + [v]| - 1] == vs;
    if forall w :: w in vs ==> w.stockQuantity.GetOr(0) >= 0 {
      SumOfNonNegative(vs, StockOrZero);
    }
  }

  // -------------------------------------------------------------- the record

  /** `p.sale_price ? Number(p.sale_price) : null`. */
  function SalePrice(p: RawProduct): Option<int> {
    if p.salePrice.Some? && p.salePrice.value != 0 then p.salePrice else None
  }

  function TransformProduct(p: RawProduct): (r: Product)
    ensures r.id == p.id && r.name == p.name && r.slug == p.slug && r.price == p.price
    ensures r.description == p.description && r.category == p.category
    ensures r.isFeatured == p.isFeatured && r.isDrop == p.isDrop
    ensures r.images != []
    ensures p.images.GetOr([]) == [] ==> r.images == [Placeholder]
    ensures p.images.GetOr([]) != [] ==> |r.images| == |p.images.value|
    ensures r.salePrice.Some? <==> p.salePrice.Some? && p.salePrice.value != 0
    ensures r.salePrice.Some? ==> r.salePrice == p.salePrice
    ensures Truthy(p.brandName) ==> r.brand == p.brandName.value
    ensures !Truthy(p.brandName) ==> r.brand == UnknownBrand
    ensures |r.features| == 4
  {
    var urls := Map(SortImages(p.images), ImageUrl);
    Product(
      p.id, p.name, p.slug, p.description, p.price, SalePrice(p), p.category,
      OrElse(p.brandName, UnknownBrand),
      if |urls| > 0 then urls else [Placeholder],
      p.isFeatured, p.isDrop,
      TotalStock(p.variants),
      SortedSizes(p.variants.GetOr([])),
      DistinctColors(p.variants.GetOr([])),
      StaticFeatures)
  }

  /** The product's images are the URLs of its sorted image rows (main first, then by
      display order), or the placeholder alone when it has none. */
  lemma TransformImages(p: RawProduct)
    ensures p.images.GetOr([]) != [] ==>
      TransformProduct(p).images == Map(SortImages(p.images), ImageUrl)
    ensures p.images.GetOr([]) != [] && (exists img :: img in p.images.value && img.isMain) ==>
      exists img :: img in p.images.value && img.isMain && TransformProduct(p).images[0] == img.url
  {
    if p.images.GetOr([]) != [] && exists img :: img in p.images.value && img.isMain {
      SortImagesSpec(p.images);
      var s := SortImages(p.images);
      assert s[0] in multiset(p.images.value);
    }
  }

  /** `stock`, `sizes` and `colors` are the variant aggregates. */
  lemma TransformVariants(p: RawProduct)
    ensures TransformProduct(p).stock == SumOf(p.variants.GetOr([]), StockOrZero)
    ensures p.variants.GetOr([]) == [] ==>
      TransformProduct(p).stock == 0 && TransformProduct(p).sizes == [] && TransformProduct(p).colors == []
    ensures TransformProduct(p).sizes == SortedSizes(p.variants.GetOr([]))
    ensures TransformProduct(p).colors == DistinctColors(p.variants.GetOr([]))
  {
  }
}
