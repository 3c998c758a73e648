/**
 * The catalogue records the storefront receives from the server and keeps
 * in its own state: product variants and the product they belong to.
 */
module Catalog {
  import opened Wrappers

  /** A purchasable variant of a product (`product.variants[i]`). */
  datatype Variant = Variant(
    id: int,
    color: string,
    size: string,
    price: real,
    stockQuantity: int,
    imageUrl: Option<string>)

  /** The product a variant is shown and bought under. */
  datatype Product = Product(name: string, brand: string, variants: seq<Variant>)
}
