/**
 * The storefront's records: a catalog product and a cart line.
 * Prices are integers in whole currency units, `create_at` is an integer timestamp, and every
 * field the code reads with `??`, `?.` or a truthiness test is an `Option`.
 */
module Types {
  import opened Wrappers

  type ProductId = string

  /** A product's audience tag: one string, an array of strings, or absent. */
  datatype Gender = One(name: string) | Many(names: seq<string>) | Unset

  datatype Product = Product(
    id: ProductId,
    title: string,
    price: int,
    comparePrice: Option<int>,
    gender: Gender,
    category: string,
    image: Option<string>,
    variantImages: Option<seq<string>>,
    colors: Option<seq<string>>,
    sizes: Option<seq<string>>,
    stock: Option<int>,
    createdAt: int)

  datatype CartLine = CartLine(product: Product, qty: int, color: Option<string>, size: Option<string>)
}
