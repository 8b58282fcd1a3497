/**
 * The product grid: nine products per page, the page count, the slice shown
 * for the current page, the page buttons, and the sale badge.
 */
module ProductGrid {
  import opened Wrappers
  import opened Types
  import opened Seqs

  const PerPage: nat := 9

  /** `Math.ceil(n / 9)`: the fewest pages of nine that hold `n` products. */
  function TotalPages(n: nat): (pages: nat)
    ensures pages * PerPage >= n
    ensures pages > 0 ==> (pages - 1) * PerPage < n
    ensures n > 0 ==> pages >= 1
  {
    (n + PerPage - 1) / PerPage
  }

  function StartIndex(page: int): int {
    (page - 1) * PerPage
  }

  /** `products.slice(startIndex, startIndex + 9)` for the current page. */
  function PageItems(products: seq<Product>, page: int): seq<Product> {
    Slice(products, StartIndex(page), StartIndex(page) + PerPage)
  }

  /** Page `p` (from 1) shows `products[(p-1)*9 .. min(p*9, n))`: at most nine products. */
  lemma PageContents(products: seq<Product>, page: int)
    requires page >= 1
    ensures var lo := (page - 1) * PerPage;
            PageItems(products, page) ==
              if lo < |products| then products[lo..Min(page * PerPage, |products|)] else []
    ensures |PageItems(products, page)| <= PerPage
  {
    SliceNonNegative(products, (page - 1) * PerPage, (page - 1) * PerPage + PerPage);
  }

  /** A page past the last one is empty. */
  lemma PageBeyondEnd(products: seq<Product>, page: int)
    requires page > TotalPages(|products|)
    ensures PageItems(products, page) == []
  {
    PageContents(products, page);
  }

  /** Pages `1..k`, concatenated in order. */
  function FirstPages(products: seq<Product>, k: nat): seq<Product> {
    if k == 0 then [] else FirstPages(products, k - 1) + PageItems(products, k)
  }

  lemma {:induction false} FirstPagesPrefix(products: seq<Product>, k: nat)
    ensures FirstPages(products, k) == products[..Min(k * PerPage, |products|)]
  {
    if k > 0 {
      FirstPagesPrefix(products, k - 1);
      PageContents(products, k);
      var n := |products|;
      var a := Min((k - 1) * PerPage, n);
      var b := Min(k * PerPage, n);
      if (k - 1) * PerPage < n {
        assert products[..a] + products[a..b] == products[..b];
      }
    }
  }

  /** Reading every page in order gives back the whole list, each product once. */
  lemma PagesCoverProducts(products: seq<Product>)
    ensures FirstPages(products, TotalPages(|products|)) == products
  {
    FirstPagesPrefix(products, TotalPages(|products|));
  }

  /** The numbered buttons: `1..totalPages`, shown only when there is more than one page. */
  function PageButtons(total: nat): (buttons: seq<nat>)
    ensures total > 1 ==> |buttons| == total && forall i :: 0 <= i < total ==> buttons[i] == i + 1
    ensures total <= 1 ==> buttons == []
  {
    if total > 1 then seq(total, i => i + 1) else []
  }

  datatype View = NoProducts | Grid(items: seq<Product>, buttons: seq<nat>)

  /** What the grid renders for a list and a current page. */
  function Render(products: seq<Product>, page: int): (v: View)
    ensures v.NoProducts? <==> products == []
    ensures v.Grid? ==> v.items == PageItems(products, page) && v.buttons == PageButtons(TotalPages(|products|))
    ensures v.Grid? && v.buttons != [] ==> |products| > PerPage
  {
    if products == [] then NoProducts
    else Grid(PageItems(products, page), PageButtons(TotalPages(|products|)))
  }

  /**
   * The current page is kept when the list shrinks, so a page past the new end
   * shows an empty grid; once the list fits on one page there are no buttons
   * either, and nothing on screen leads back to page 1.
   */
  lemma StalePageIsEmpty(products: seq<Product>, page: int)
    requires products != [] && page > TotalPages(|products|)
    ensures Render(products, page) == Grid([], PageButtons(TotalPages(|products|)))
    ensures |products| <= PerPage ==> Render(products, page) == Grid([], [])
  {
    PageBeyondEnd(products, page);
    if |products| <= PerPage {
      assert TotalPages(|products|) <= 1;
    }
  }

  /** `p.compare_price && p.compare_price > p.price`. */
  predicate OnSale(p: Product) {
    p.comparePrice.Some? && p.comparePrice.value != 0 && p.comparePrice.value > p.price
  }

  /** For a non-negative price the zero test adds nothing: on sale iff the compare price is higher. */
  lemma OnSaleWhenHigher(p: Product)
    requires p.price >= 0
    ensures OnSale(p) <==> p.comparePrice.Some? && p.comparePrice.value > p.price
  {
  }
}
