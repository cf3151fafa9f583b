/** The best-sellers carousel (src/components/ui/BestSellers.tsx): pages of four
    products, with next and previous buttons that wrap around. */
module BestSellers {

  const ItemsPerPage: nat := 4

  /** `Math.ceil(count / ITEMS_PER_PAGE)`. */
  function TotalPages(count: nat): (t: nat)
    ensures ItemsPerPage * t >= count
    ensures t > 0 ==> ItemsPerPage * (t - 1) < count
    ensures t > 0 <==> count > 0
  {
    (count + ItemsPerPage - 1) / ItemsPerPage
  }

  function Min(a: int, b: int): int {
    if a < b then a else b
  }

  /** `products.slice(page * 4, (page + 1) * 4)`; `slice` clamps both ends to the length. */
  function PageItems<T>(products: seq<T>, page: nat): seq<T> {
    products[Min(ItemsPerPage * page, |products|)..Min(ItemsPerPage * (page + 1), |products|)]
  }

  /** A page shows at most four products, exactly `products[4p .. 4p + |page|)`, and a page
      below `TotalPages` is never empty. */
  lemma PageItemsSpec<T>(products: seq<T>, page: nat)
    ensures |PageItems(products, page)| <= ItemsPerPage
    ensures forall k :: 0 <= k < |PageItems(products, page)| ==>
      PageItems(products, page)[k] == products[ItemsPerPage * page + k]
    ensures page < TotalPages(|products|) <==> PageItems(products, page) != []
  {
  }

  /** The pages `0 .. TotalPages` laid end to end. */
  function Concat<T>(pages: seq<seq<T>>): seq<T> {
    if pages == [] then [] else Concat(pages[..|pages| - 1]) + pages[|pages| - 1]
  }

  /** The page list the pagination dots offer. */
  function AllPages<T>(products: seq<T>): seq<seq<T>> {
    seq(TotalPages(|products|), p requires 0 <= p < TotalPages(|products|) => PageItems(products, p))
  }

  lemma {:induction false} FirstPages<T>(products: seq<T>, k: nat)
    requires k <= TotalPages(|products|)
    ensures Concat(AllPages(products)[..k]) == products[..Min(ItemsPerPage * k, |products|)]
  {
    if k > 0 {
      var pages := AllPages(products);
      assert pages[..k][..k - 1] == pages[..k - 1];
      FirstPages(products, k - 1);
      assert pages[..k][k - 1] == PageItems(products, k - 1);
    }
  }

  /** Read page by page, the carousel shows every product once, in order. */
  lemma PagesPartition<T>(products: seq<T>)
    ensures Concat(AllPages(products)) == products
  {
    var pages := AllPages(products);
    FirstPages(products, |pages|);
    assert pages[..|pages|] == pages;
  }

  /** `nextPage`: `(p + 1) % totalPages`. */
  function NextPage(p: nat, totalPages: nat): nat
    requires totalPages > 0
  {
    (p + 1) % totalPages
  }

  /** `prevPage`: `(p - 1 + totalPages) % totalPages`. */
  function PrevPage(p: nat, totalPages: nat): nat
    requires totalPages > 0 && p + totalPages >= 1
  {
    (p - 1 + totalPages) % totalPages
  }

  lemma ModOfSmall(a: int, t: int)
    requires t > 0 && 0 <= a < 2 * t
    ensures a % t == if a < t then a else a - t
  {
    if a >= t {
      assert (a - t) % t == a % t by {
        assert a == (a - t) + t;
      }
    }
  }

  /** Both buttons keep the page in range, they undo each other, the last page wraps to
      the first and the first to the last. */
  lemma PageStepsSpec(p: nat, totalPages: nat)
    requires p < totalPages
    ensures NextPage(p, totalPages) < totalPages && PrevPage(p, totalPages) < totalPages
    ensures NextPage(p, totalPages) == if p + 1 < totalPages then p + 1 else 0
    ensures PrevPage(p, totalPages) == if p > 0 then p - 1 else totalPages - 1
    ensures PrevPage(NextPage(p, totalPages), totalPages) == p
    ensures NextPage(PrevPage(p, totalPages), totalPages) == p
  {
    ModOfSmall(p + 1, totalPages);
    ModOfSmall(p - 1 + totalPages, totalPages);
    var n := NextPage(p, totalPages);
    var q := PrevPage(p, totalPages);
    ModOfSmall(n - 1 + totalPages, totalPages);
    ModOfSmall(q + 1, totalPages);
  }

  /** The carousel's `currentPage` state over a fixed, non-empty product list. */
  class Carousel<T> {
    const products: seq<T>
    var currentPage: nat

    ghost predicate Valid()
      reads this
    {
      currentPage < TotalPages(|products|)
    }

    constructor (products: seq<T>)
      requires |products| > 0
      ensures Valid() && this.products == products && currentPage == 0
    {
      this.products := products;
      currentPage := 0;
    }

    /** `currentProducts`: the slice for the current page, never empty and at most four long. */
    function CurrentProducts(): (r: seq<T>)
      reads this
      requires Valid()
      ensures 0 < |r| <= ItemsPerPage
      ensures ItemsPerPage * currentPage + |r| <= |products|
      ensures forall k :: 0 <= k < |r| ==> r[k] == products[ItemsPerPage * currentPage + k]
    {
      PageItemsSpec(products, currentPage);
      PageItems(products, currentPage)
    }

    method Next()
      requires Valid()
      modifies this
      ensures Valid() && currentPage == NextPage(old(currentPage), TotalPages(|products|))
    {
      PageStepsSpec(currentPage, TotalPages(|products|));
      currentPage := NextPage(currentPage, TotalPages(|products|));
    }

    method Prev()
      requires Valid()
      modifies this
      ensures Valid() && currentPage == PrevPage(old(currentPage), TotalPages(|products|))
    {
      PageStepsSpec(currentPage, TotalPages(|products|));
      currentPage := PrevPage(currentPage, TotalPages(|products|));
    }

    /** A pagination dot: `setCurrentPage(i)` for one of the `totalPages` dots. */
    method GoTo(i: nat)
      requires Valid() && i < TotalPages(|products|)
      modifies this
      ensures Valid() && currentPage == i
    {
      currentPage := i;
    }
  }
}
