/** src/components/products/ProductCard.tsx: a catalogue card. The variants
    come from the product's `variants` sub-collection and are `None` until
    they have loaded. */
module ProductCard {
  import opened Common
  import opened Types

  /** `variants.some(v => v.stock > 0)`, scanning left to right. */
  function AnyInStock(variants: seq<ProductVariant>): (r: bool)
    ensures r <==> exists v | v in variants :: v.stock > 0
    decreases |variants|
  {
    if |variants| == 0 then false
    else if variants[0].stock > 0 then true
    else
      assert forall v | v in variants && v != variants[0] :: v in variants[1..];
      AnyInStock(variants[1..])
  }

  /** `hasStock`: false while the variants are not loaded, then whether some
      variant has stock. */
  function HasStock(variants: Option<seq<ProductVariant>>): (r: bool)
    ensures variants.None? ==> !r
    ensures variants.Some? ==> (r <==> exists v | v in variants.value :: v.stock > 0)
  {
    if variants.Some? then AnyInStock(variants.value) else false
  }

  /** What the card renders that depends on data: its link and whether the
      "Out of Stock" badge shows. */
  datatype CardView = CardView(href: string, outOfStockBadge: bool)

  function Card(product: Product, variants: Option<seq<ProductVariant>>): (c: CardView)
    ensures c.href == "/products/" + product.slug
    ensures c.outOfStockBadge <==> variants.None? || forall v | v in variants.value :: v.stock <= 0
  {
    CardView("/products/" + product.slug, !HasStock(variants))
  }

  /** The link is `/products/` followed by the slug, so the slug is read back
      from it. */
  lemma CardLinkSlug(product: Product, variants: Option<seq<ProductVariant>>)
    ensures Card(product, variants).href[|"/products/"|..] == product.slug
  {
  }
}
