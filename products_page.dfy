/** src/app/products/page.tsx: the storefront's product filters. The size
    filter's per-product variant queries are modelled by their result: the
    set of ids of products with a variant of a selected size in stock. */
module ProductsPage {
  import opened Common
  import opened Text
  import opened Types

  /** `SIZES` */
  const SIZES: seq<Size> := [S, M, L, XL, XXL]

  /** `toggleSize`: a selected size is removed (every occurrence), another
      one is appended. */
  function ToggleSize(prev: seq<Size>, size: Size): (next: seq<Size>)
    ensures size in next <==> size !in prev
    ensures forall t | t != size :: t in next <==> t in prev
  {
    if size in prev then Filter(prev, s => s != size) else prev + [size]
  }

  /** No size is selected twice. */
  predicate NoDuplicates(sizes: seq<Size>) {
    forall i, j | 0 <= i < j < |sizes| :: sizes[i] != sizes[j]
  }

  /** Toggling keeps the selection free of duplicates. */
  lemma {:induction false} ToggleKeepsNoDuplicates(prev: seq<Size>, size: Size)
    requires NoDuplicates(prev)
    ensures NoDuplicates(ToggleSize(prev, size))
  {
    if size in prev {
      FilteredNoDuplicates(prev, s => s != size);
    }
  }

  lemma {:induction false} FilteredNoDuplicates(xs: seq<Size>, keep: Size -> bool)
    requires NoDuplicates(xs)
    ensures NoDuplicates(Filter(xs, keep))
    decreases |xs|
  {
    if |xs| > 0 {
      FilteredNoDuplicates(xs[1..], keep);
      if keep(xs[0]) {
        var r := Filter(xs, keep);
        assert r == [xs[0]] + Filter(xs[1..], keep);
        assert xs[0] !in xs[1..];
        forall i, j | 0 <= i < j < |r| ensures r[i] != r[j] {
          if i == 0 {
            assert r[j] in Filter(xs[1..], keep);
          } else {
            assert r[i] == Filter(xs[1..], keep)[i - 1] && r[j] == Filter(xs[1..], keep)[j - 1];
          }
        }
      }
    }
  }

  /** Toggling the same size twice restores which sizes are selected; when
      the size was not selected before, it restores the list itself. */
  lemma ToggleTwice(prev: seq<Size>, size: Size)
    ensures forall t :: t in ToggleSize(ToggleSize(prev, size), size) <==> t in prev
    ensures size !in prev ==> ToggleSize(ToggleSize(prev, size), size) == prev
  {
    if size !in prev {
      FilterAll(prev, s => s != size);
      FilterAppendDropped(prev, size);
    }
  }

  lemma {:induction false} FilterAppendDropped(xs: seq<Size>, size: Size)
    requires size !in xs
    ensures Filter(xs + [size], s => s != size) == xs
    decreases |xs|
  {
    if |xs| == 0 {
      assert xs + [size] == [size];
    } else {
      assert (xs + [size])[1..] == xs[1..] + [size];
      FilterAppendDropped(xs[1..], size);
      assert xs == [xs[0]] + xs[1..];
    }
  }

  /** The ids the size filter keeps: `None` (no size filtering) when no size
      is selected, otherwise the products with a variant of a selected size
      and stock above 0. */
  function SizeFilterIds(products: seq<Product>, sizes: seq<Size>): (ids: Option<set<string>>)
    ensures |sizes| == 0 <==> ids.None?
    ensures ids.Some? ==> forall p | p in products ::
      p.id in ids.value <== HasSizeInStock(p, sizes)
  {
    if |sizes| == 0 then None
    else Some(set p | p in products && HasSizeInStock(p, sizes) :: p.id)
  }

  predicate HasSizeInStock(p: Product, sizes: seq<Size>)
    ensures |sizes| == 0 ==> !HasSizeInStock(p, sizes)
  {
    exists v | v in p.variants :: v.size in sizes && v.stock > 0
  }

  /** With product ids unique, a product passes the size filter exactly when
      it has a variant of a selected size in stock. */
  lemma SizeFilterExact(products: seq<Product>, sizes: seq<Size>, p: Product)
    requires forall i, j | 0 <= i < |products| && 0 <= j < |products| && products[i].id == products[j].id :: i == j
    requires |sizes| > 0 && p in products
    ensures p.id in SizeFilterIds(products, sizes).value <==> HasSizeInStock(p, sizes)
  {
    if p.id in SizeFilterIds(products, sizes).value {
      var q :| q in products && HasSizeInStock(q, sizes) && q.id == p.id;
      var i :| 0 <= i < |products| && products[i] == p;
      var j :| 0 <= j < |products| && products[j] == q;
    }
  }

  /** The category test: "all" (in any case) keeps everything, otherwise the
      lower-cased names must agree. */
  predicate CategoryMatches(p: Product, category: string)
    ensures category == "all" ==> CategoryMatches(p, category)
    ensures category == p.category.Name() ==> CategoryMatches(p, category)
  {
    Lower(category) == "all" || Lower(p.category.Name()) == Lower(category)
  }

  /** The search test: an empty term keeps everything, otherwise the term
      (lower-cased) occurs in the lower-cased name or a lower-cased tag. */
  predicate SearchMatches(p: Product, term: string)
    ensures term == "" ==> SearchMatches(p, term)
    ensures term == p.name ==> SearchMatches(p, term)
  {
    assert OccursAt(Lower(p.name), Lower(p.name), 0);
    term == "" || Contains(Lower(p.name), Lower(term))
    || exists tag | tag in p.tags :: Contains(Lower(tag), Lower(term))
  }

  /** The price test, inclusive at both ends. */
  predicate InPriceRange(p: Product, low: real, high: real)
    ensures low > high ==> !InPriceRange(p, low, high)
  {
    low <= p.price <= high
  }

  /** The size test on the ids the size filter produced. */
  predicate PassesSizeFilter(p: Product, ids: Option<set<string>>) {
    ids.None? || p.id in ids.value
  }

  /** `finalProducts`: category, then search, then price, then the size ids. */
  function FinalProducts(products: Option<seq<Product>>, category: string, term: string,
                         low: real, high: real, ids: Option<set<string>>): (r: seq<Product>)
    ensures products.None? ==> r == []
  {
    if products.None? then []
    else
      var list := Filter(products.value, p => CategoryMatches(p, category));
      var list := Filter(list, p => SearchMatches(p, term));
      var list := Filter(list, p => InPriceRange(p, low, high));
      if ids.Some? then Filter(list, p => PassesSizeFilter(p, ids)) else list
  }

  /** The products shown are exactly those passing all four tests, in the
      order of the catalogue. */
  lemma FinalProductsSpec(products: seq<Product>, category: string, term: string,
                          low: real, high: real, ids: Option<set<string>>)
    ensures var r := FinalProducts(Some(products), category, term, low, high, ids);
      && IsSublist(r, products)
      && forall p :: p in r <==> p in products && CategoryMatches(p, category) && SearchMatches(p, term)
                                    && InPriceRange(p, low, high) && PassesSizeFilter(p, ids)
  {
    var l1 := Filter(products, p => CategoryMatches(p, category));
    var l2 := Filter(l1, p => SearchMatches(p, term));
    var l3 := Filter(l2, p => InPriceRange(p, low, high));
    FilterSublist(products, p => CategoryMatches(p, category));
    FilterSublist(l1, p => SearchMatches(p, term));
    FilterSublist(l2, p => InPriceRange(p, low, high));
    SublistTrans(l2, l1, products);
    SublistTrans(l3, l2, products);
    if ids.Some? {
      FilterSublist(l3, p => PassesSizeFilter(p, ids));
      SublistTrans(Filter(l3, p => PassesSizeFilter(p, ids)), l3, products);
    }
  }

  /** With the filters at their reset values every product is shown. */
  lemma ResetShowsAll(products: seq<Product>)
    requires forall p | p in products :: 0.0 <= p.price <= 200.0
    ensures FinalProducts(Some(products), "all", "", 0.0, 200.0, SizeFilterIds(products, [])) == products
  {
    assert Lower("all") == "all";
    FilterAll(products, p => CategoryMatches(p, "all"));
    FilterAll(products, p => SearchMatches(p, ""));
    FilterAll(products, p => InPriceRange(p, 0.0, 200.0));
  }

  /** The filter controls. */
  class FilterState {
    var searchTerm: string
    var selectedSizes: seq<Size>
    var priceLow: real
    var priceHigh: real
    var category: string

    /** The page opens with the `category` query parameter, or "all" when it
        is absent or empty, and otherwise the reset values. */
    constructor (categoryParam: Option<string>)
      ensures category == (if categoryParam.Some? && categoryParam.value != "" then categoryParam.value else "all")
      ensures searchTerm == "" && selectedSizes == [] && priceLow == 0.0 && priceHigh == 200.0
    {
      category := if categoryParam.Some? && categoryParam.value != "" then categoryParam.value else "all";
      searchTerm := "";
      selectedSizes := [];
      priceLow := 0.0;
      priceHigh := 200.0;
    }

    method ToggleSizeSelection(size: Size)
      modifies this
      ensures selectedSizes == ToggleSize(old(selectedSizes), size)
      ensures NoDuplicates(old(selectedSizes)) ==> NoDuplicates(selectedSizes)
      ensures searchTerm == old(searchTerm) && priceLow == old(priceLow) && priceHigh == old(priceHigh)
      ensures category == old(category)
    {
      if NoDuplicates(selectedSizes) {
        ToggleKeepsNoDuplicates(selectedSizes, size);
      }
      selectedSizes := ToggleSize(selectedSizes, size);
    }

    /** `resetFilters` */
    method ResetFilters()
      modifies this
      ensures searchTerm == "" && selectedSizes == [] && priceLow == 0.0 && priceHigh == 200.0
      ensures category == "all"
    {
      searchTerm := "";
      selectedSizes := [];
      priceLow := 0.0;
      priceHigh := 200.0;
      category := "all";
    }

    /** The products shown for the current controls. */
    function Shown(products: Option<seq<Product>>): seq<Product>
      reads this
    {
      FinalProducts(products, category, searchTerm, priceLow, priceHigh,
                    if products.Some? then SizeFilterIds(products.value, selectedSizes) else None)
    }
  }
}
