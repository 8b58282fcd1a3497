/**
 * The product detail page: loading the product and its related products,
 * the stock label and the add-to-cart button, and the quantity stepper.
 */
module ProductDetail {
  import opened Wrappers
  import opened Types
  import opened Seqs
  import CartStore

  /** How many related products the page shows at most. */
  const RelatedLimit := 4

  /** Another product of the same category. */
  function SameCategoryOther(p: Product): Product -> bool {
    (x: Product) => x.category == p.category && x.id != p.id
  }

  /** `all.filter(x => same category && other id).slice(0, 4)`. */
  function Related(all: seq<Product>, p: Product): seq<Product> {
    Slice(Filter(SameCategoryOther(p), all), 0, RelatedLimit)
  }

  /**
   * The related products are the first four catalog products of the same
   * category other than `p` itself, in catalog order.
   */
  lemma RelatedMeaning(all: seq<Product>, p: Product)
    ensures |Related(all, p)| == Min(RelatedLimit, Count(SameCategoryOther(p), all))
    ensures Related(all, p) == Filter(SameCategoryOther(p), all)[..|Related(all, p)|]
    ensures forall x :: x in Related(all, p) ==> x in all && x.category == p.category && x.id != p.id
    ensures p !in Related(all, p)
    ensures IsSubseq(Related(all, p), all)
  {
    var m := Filter(SameCategoryOther(p), all);
    SliceTake(m, RelatedLimit);
    FilterIsSubseq(SameCategoryOther(p), all);
    PrefixIsSubseq(m, all, Min(RelatedLimit, |m|));
  }

  /** What the page shows once loading has settled, or `Loading` while it has not. */
  datatype Page = Loading | Failed(message: string) | Shown(product: Product, related: seq<Product>)

  /**
   * The load effect, with the two fetch results as parameters: no route id
   * leaves the page loading, a missing product is an error, and otherwise
   * the product is shown with its related products.
   */
  function Fetched(id: string, found: Option<Product>, all: seq<Product>): (page: Page)
    ensures id == "" <==> page == Loading
    ensures id != "" && found.None? ==> page == Failed("Error: Product not found")
    ensures id != "" && found.Some? ==> page == Shown(found.value, Related(all, found.value))
    ensures page.Shown? ==> found == Some(page.product) && page.related == Related(all, page.product)
  {
    if id == "" then Loading
    else match found
      case None => Failed("Error: Product not found")
      case Some(p) => Shown(p, Related(all, p))
  }

  /** The green "In Stock" label: `product.stock && product.stock > 0`. */
  predicate InStock(p: Product) {
    p.stock.Some? && p.stock.value != 0 && p.stock.value > 0
  }

  /** The add-to-cart button is disabled, and reads "Out of stock": `product.stock === 0`. */
  predicate AddDisabled(p: Product) {
    p.stock == Some(0)
  }

  /**
   * The label says "In Stock" exactly for a known positive stock. A disabled
   * button always sits under "Out of Stock", but the converse fails: an
   * unknown or negative stock reads "Out of Stock" with the button enabled.
   */
  lemma StockIndicators(p: Product)
    ensures InStock(p) <==> p.stock.Some? && p.stock.value > 0
    ensures AddDisabled(p) ==> !InStock(p)
    ensures p.stock.None? ==> !InStock(p) && !AddDisabled(p)
    ensures (p.stock.Some? && p.stock.value < 0) ==> !InStock(p) && !AddDisabled(p)
  {
  }

  /**
   * A click on the add-to-cart button: a disabled button does nothing, an
   * enabled one adds one unit whatever quantity the stepper shows.
   */
  method ClickAdd(cart: CartStore.Cart, p: Product, quantity: int)
    requires cart.Valid()
    modifies cart
    ensures cart.Valid()
    ensures AddDisabled(p) ==> cart.lines == old(cart.lines)
    ensures !AddDisabled(p) ==> cart.lines == CartStore.Added(old(cart.lines), p, 1)
  {
    if !AddDisabled(p) {
      cart.AddToCart(p);
    }
  }

  /** The quantity shown between the − and + buttons. */
  class QuantityStepper {
    var quantity: int

    predicate Valid()
      reads this
    {
      quantity >= 1
    }

    constructor ()
      ensures Valid() && quantity == 1
    {
      quantity := 1;
    }

    /** The − button: `Math.max(1, q - 1)`. */
    method Decrement()
      requires Valid()
      modifies this
      ensures Valid()
      ensures quantity == Decremented(old(quantity))
    {
      quantity := if quantity - 1 >= 1 then quantity - 1 else 1;
    }

    /** The + button. */
    method Increment()
      requires Valid()
      modifies this
      ensures Valid()
      ensures quantity == old(quantity) + 1
    {
      quantity := quantity + 1;
    }
  }

  /** `Math.max(1, q - 1)`: one less, but never below 1. */
  function Decremented(q: int): (r: int)
    ensures r >= 1
    ensures r == q - 1 || r == 1
    ensures q > 1 ==> r == q - 1
  {
    if q - 1 >= 1 then q - 1 else 1
  }

  /** `+` then `−` returns to the same quantity, from any valid quantity. */
  lemma DecrementUndoesIncrement(q: int)
    requires q >= 1
    ensures Decremented(q + 1) == q
  {
  }
}
