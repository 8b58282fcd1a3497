/**
 * The site header: the cart badge with the number of items in the cart, and
 * the underline on the MEN and WOMEN links for the current path.
 */
module Header {
  import opened Wrappers
  import opened Types
  import opened Seqs
  import opened Text
  import CartStore

  function Qty(l: CartLine): int {
    l.qty
  }

  /** `lines.reduce((s, l) => s + l.qty, 0)`. */
  function ItemCount(lines: seq<CartLine>): int {
    Sum(Qty, lines)
  }

  /** The red badge on the cart icon is rendered: `count > 0`. */
  predicate BadgeShown(lines: seq<CartLine>) {
    ItemCount(lines) > 0
  }

  /** With positive quantities, every line contributes at least one item. */
  lemma {:induction false} CountAtLeastLines(lines: seq<CartLine>)
    requires CartStore.PositiveQtys(lines)
    ensures ItemCount(lines) >= |lines|
    decreases |lines|
  {
    if lines != [] {
      var init := lines[..|lines| - 1];
      assert CartStore.PositiveQtys(init) by {
        forall i | 0 <= i < |init| ensures init[i].qty > 0 {
          assert init[i] == lines[i];
        }
      }
      CountAtLeastLines(init);
    }
  }

  /**
   * An empty cart counts 0 items; a cart whose lines all have positive
   * quantities shows the badge exactly when it has a line.
   */
  lemma BadgeMeaning(lines: seq<CartLine>)
    ensures lines == [] ==> ItemCount(lines) == 0 && !BadgeShown(lines)
    ensures CartStore.PositiveQtys(lines) ==> (BadgeShown(lines) <==> lines != [])
  {
    if CartStore.PositiveQtys(lines) {
      CountAtLeastLines(lines);
    }
  }

  /** `addToCart(p, q)` raises the item count by exactly `q`, merged or appended. */
  lemma CountAfterAdd(lines: seq<CartLine>, product: Product, qty: int)
    ensures ItemCount(CartStore.Added(lines, product, qty)) == ItemCount(lines) + qty
  {
    match CartStore.FirstIndex(lines, product.id)
    case Some(k) =>
      SumReplace(Qty, lines, k, lines[k].(qty := lines[k].qty + qty));
    case None =>
      SumAppend(Qty, lines, [CartLine(product, qty, None, None)]);
  }

  /** After adding a positive quantity to a cart of positive lines the badge shows. */
  lemma BadgeAfterAdd(lines: seq<CartLine>, product: Product, qty: int)
    requires CartStore.PositiveQtys(lines) && qty > 0
    ensures BadgeShown(CartStore.Added(lines, product, qty))
  {
    CountAfterAdd(lines, product, qty);
    CountAtLeastLines(lines);
  }

  /** The MEN link is underlined: `pathname.startsWith("/men")`. */
  predicate MenActive(path: string) {
    StartsWith(path, "/men")
  }

  /** The WOMEN link is underlined: `pathname.startsWith("/women")`. */
  predicate WomenActive(path: string) {
    StartsWith(path, "/women")
  }

  /**
   * The two links are never underlined together; each is underlined on its
   * own section and every path below it, and "/womens" does not light MEN.
   */
  lemma NavHighlight(path: string, rest: string)
    ensures !(MenActive(path) && WomenActive(path))
    ensures MenActive("/men" + rest) && WomenActive("/women" + rest)
    ensures !MenActive("/women" + rest)
  {
    if MenActive(path) {
      assert path[1] == path[..4][1] == 'm';
    }
    assert ("/men" + rest)[..4] == "/men";
    assert ("/women" + rest)[..6] == "/women";
    assert ("/women" + rest)[1] == 'w';
  }
}
