/** src/app/admin/products/page.tsx: the admin product list with its name
    search and stock badge. */
module AdminProducts {
  import opened Common
  import opened Text
  import opened Types
  import ProductCard
  import ProductForm

  /** The name test of the search box. */
  predicate NameMatches(p: Product, term: string)
    ensures term == "" ==> NameMatches(p, term)
    ensures NameMatches(p, term) ==> |term| <= |p.name|
  {
    assert OccursAt(Lower(p.name), Lower(""), 0);
    Contains(Lower(p.name), Lower(term))
  }

  /** `filteredProducts`: `undefined` while the products are unavailable,
      otherwise the products whose lower-cased name contains the lower-cased
      term, in order. */
  function FilteredProducts(products: Option<seq<Product>>, term: string): (r: Option<seq<Product>>)
    ensures r.Some? <==> products.Some?
    ensures r.Some? ==> forall p :: p in r.value <==> p in products.value && NameMatches(p, term)
  {
    if products.Some? then Some(Filter(products.value, p => NameMatches(p, term))) else None
  }

  /** The filtered list keeps the catalogue order, and an empty term keeps
      every product. */
  lemma FilteredProductsOrder(products: seq<Product>, term: string)
    ensures IsSublist(FilteredProducts(Some(products), term).value, products)
    ensures term == "" ==> FilteredProducts(Some(products), "").value == products
  {
    FilterSublist(products, p => NameMatches(p, term));
    if term == "" {
      forall p | p in products ensures NameMatches(p, "") {
        assert OccursAt(Lower(p.name), Lower(""), 0);
      }
      FilterAll(products, p => NameMatches(p, ""));
    }
  }

  /** What the table body shows. */
  datatype ListBody = Skeletons | Rows(products: seq<Product>) | NoProductsMessage

  function Body(isLoading: bool, filtered: Option<seq<Product>>): (b: ListBody)
    ensures b.NoProductsMessage? <==> !isLoading && (filtered.None? || |filtered.value| == 0)
    ensures b.Rows? ==> filtered == Some(b.products)
    ensures b.Skeletons? <==> isLoading
  {
    if isLoading then Skeletons
    else if filtered.Some? && |filtered.value| > 0 then Rows(filtered.value)
    else NoProductsMessage
  }

  /** The result of rendering the status badge of one row. */
  datatype BadgeResult = Badge(text: string) | TypeErrorThrown

  /** The badge as written: it reads the product document's own `variants`
      field, and calling `.some` on an absent field throws. */
  function StatusBadgeAsWritten(variantsField: Option<seq<ProductVariant>>): (b: BadgeResult)
    ensures variantsField.None? <==> b.TypeErrorThrown?
    ensures variantsField.Some? ==>
      b == Badge(if exists v | v in variantsField.value :: v.stock > 0 then "In Stock" else "Out of Stock")
  {
    if variantsField.None? then TypeErrorThrown
    else Badge(if ProductCard.AnyInStock(variantsField.value) then "In Stock" else "Out of Stock")
  }

  /** Every product the product form adds is written without a `variants`
      field (its variants go to the sub-collection), so listing it throws. */
  lemma FormProductBreaksList(values: ProductForm.FormValues, imageUrls: seq<string>, now: int)
    ensures var doc := ProductForm.ProductDocument(values, imageUrls, now);
      StatusBadgeAsWritten(doc.variantsField()) == TypeErrorThrown
  {
  }

  /** The badge over the product's variants as the storefront loads them:
      "In Stock" exactly when the product card would show no "Out of Stock"
      badge. */
  function StatusBadge(variants: seq<ProductVariant>): (badge: string)
    ensures badge == "In Stock" <==> ProductCard.HasStock(Some(variants))
    ensures badge == "In Stock" || badge == "Out of Stock"
  {
    if ProductCard.AnyInStock(variants) then "In Stock" else "Out of Stock"
  }

  /** The two agree wherever the document does carry the variants. */
  lemma StatusBadgeAgrees(variants: seq<ProductVariant>)
    ensures StatusBadgeAsWritten(Some(variants)) == Badge(StatusBadge(variants))
  {
  }
}
