/** src/app/admin/inventory/page.tsx: one row per product variant, with an
    editable stock. The `variants` sub-collection of each product is the
    parameter `variantsOf`: the variant documents (id and data) under a
    product id, in the order the query returns them. */
module Inventory {
  import opened Common
  import opened Text
  import opened Types

  /** A variant document: its id and its data. */
  datatype VariantEntry = VariantEntry(docId: string, variant: ProductVariant)

  /** `InventoryItem`: the variant's fields, its document id and its
      product's id, name and category. */
  datatype InventoryItem = InventoryItem(
    id: string,
    productId: string,
    productName: string,
    category: string,
    size: Size,
    stock: int,
    price: real)

  /** The row pushed for one variant document of product `p`. */
  function Row(p: Product, e: VariantEntry): InventoryItem {
    InventoryItem(e.docId, p.id, p.name, p.category.Name(), e.variant.size, e.variant.stock, e.variant.price)
  }

  /** The rows of one product, in the order of its variant documents. */
  function Rows(p: Product, entries: seq<VariantEntry>): (rows: seq<InventoryItem>)
    ensures |rows| == |entries|
    ensures forall j | 0 <= j < |entries| :: rows[j] == Row(p, entries[j])
  {
    seq(|entries|, j requires 0 <= j < |entries| => Row(p, entries[j]))
  }

  /** The flattened inventory: each product's rows, product after product. */
  function Flatten(products: seq<Product>, variantsOf: string -> seq<VariantEntry>): (items: seq<InventoryItem>)
    ensures |items| == VariantCount(products, variantsOf)
    decreases |products|
  {
    if |products| == 0 then []
    else Flatten(products[..|products| - 1], variantsOf) + Rows(products[|products| - 1], variantsOf(products[|products| - 1].id))
  }

  /** Number of variant documents over the products. */
  function VariantCount(products: seq<Product>, variantsOf: string -> seq<VariantEntry>): nat
    decreases |products|
  {
    if |products| == 0 then 0
    else VariantCount(products[..|products| - 1], variantsOf) + |variantsOf(products[|products| - 1].id)|
  }

  /** The flattening loop of `fetchAllVariants`: for each product, for each
      of its variant documents, push a row. */
  method FlattenInventory(products: seq<Product>, variantsOf: string -> seq<VariantEntry>)
    returns (allItems: seq<InventoryItem>)
    ensures allItems == Flatten(products, variantsOf)
  {
    allItems := [];
    for i := 0 to |products|
      invariant allItems == Flatten(products[..i], variantsOf)
    {
      var p := products[i];
      var entries := variantsOf(p.id);
      ghost var before := allItems;
      for j := 0 to |entries|
        invariant allItems == before + Rows(p, entries[..j])
      {
        allItems := allItems + [Row(p, entries[j])];
        assert Rows(p, entries[..j + 1]) == Rows(p, entries[..j]) + [Row(p, entries[j])];
      }
      assert entries[..|entries|] == entries;
      assert products[..i + 1][..i] == products[..i];
    }
    assert products[..|products|] == products;
  }

  /** Exactly one row per variant document: the inventory has as many rows as
      there are variant documents, and each row carries the variant's data
      and its own product's id, name and category. */
  lemma {:induction false} FlattenSpec(products: seq<Product>, variantsOf: string -> seq<VariantEntry>)
    ensures |Flatten(products, variantsOf)| == VariantCount(products, variantsOf)
    ensures forall r | r in Flatten(products, variantsOf) ::
      exists p, e | p in products && e in variantsOf(p.id) :: r == Row(p, e)
    ensures forall p, e | p in products && e in variantsOf(p.id) :: Row(p, e) in Flatten(products, variantsOf)
    decreases |products|
  {
    if |products| > 0 {
      var init := products[..|products| - 1];
      var last := products[|products| - 1];
      FlattenSpec(init, variantsOf);
      var rows := Rows(last, variantsOf(last.id));
      forall r | r in Flatten(products, variantsOf)
        ensures exists p, e | p in products && e in variantsOf(p.id) :: r == Row(p, e)
      {
        if r in rows {
          var j :| 0 <= j < |rows| && rows[j] == r;
          assert variantsOf(last.id)[j] in variantsOf(last.id);
        } else {
          assert r in Flatten(init, variantsOf);
          var p, e :| p in init && e in variantsOf(p.id) && r == Row(p, e);
          assert p in products;
        }
      }
      forall p, e | p in products && e in variantsOf(p.id)
        ensures Row(p, e) in Flatten(products, variantsOf)
      {
        if p == last {
          var j :| 0 <= j < |variantsOf(p.id)| && variantsOf(p.id)[j] == e;
          assert rows[j] == Row(p, e);
        } else {
          var k :| 0 <= k < |products| && products[k] == p;
          assert p in init by { assert k < |products| - 1 && init[k] == p; }
        }
      }
    }
  }

  /** Product order is kept: the rows of a longer product list extend those
      of its prefix with the next product's rows. */
  lemma FlattenGrouped(products: seq<Product>, p: Product, variantsOf: string -> seq<VariantEntry>)
    ensures Flatten(products + [p], variantsOf) == Flatten(products, variantsOf) + Rows(p, variantsOf(p.id))
  {
    assert (products + [p])[..|products|] == products;
  }

  /** The local update after a successful write: the row with that document
      id gets the new stock. */
  function SetStock(items: seq<InventoryItem>, variantId: string, newStock: int): (r: seq<InventoryItem>)
    ensures |r| == |items|
  {
    seq(|items|, i requires 0 <= i < |items| =>
      if items[i].id == variantId then items[i].(stock := newStock) else items[i])
  }

  /** Only the rows whose id is `variantId` change, and only in their stock. */
  lemma SetStockSpec(items: seq<InventoryItem>, variantId: string, newStock: int)
    ensures forall i | 0 <= i < |items| ::
      && (items[i].id == variantId ==> SetStock(items, variantId, newStock)[i] == items[i].(stock := newStock))
      && (items[i].id != variantId ==> SetStock(items, variantId, newStock)[i] == items[i])
    ensures SetStock(SetStock(items, variantId, newStock), variantId, newStock) == SetStock(items, variantId, newStock)
  {
  }

  /** The value the stock input hands over: `parseInt(value) || 0`. */
  function ParseStock(text: string): (n: int)
    ensures ParseInt(text).None? ==> n == 0
    ensures ParseInt(text).Some? ==> n == ParseInt(text).value
  {
    ParseInt(text).GetOr(0)
  }

  /** The input starts out showing the stock, which reads back unchanged;
      text with no digits reads as 0. */
  lemma ParseStockRoundTrip(n: int)
    ensures ParseStock(IntText(n)) == n
    ensures ParseStock("") == 0
  {
    ParseIntText(n);
  }

  /** The badge variant of the stock column. */
  function StockBadge(stock: int): (variant: string)
    ensures variant == "destructive" <==> stock == 0
    ensures variant == "outline" <==> stock != 0 && stock < 10
    ensures variant == "default" <==> stock >= 10
  {
    if stock == 0 then "destructive" else if stock < 10 then "outline" else "default"
  }

  // ---- Loading ---------------------------------------------------------------

  /** What one render of the page sees: the products the collection hook has
      delivered so far (`None` before its first snapshot), the hook's
      loading flag and whether the signed-in user is still loading. */
  datatype Render = Render(products: Option<seq<Product>>, productsLoading: bool, userLoading: bool)

  /** The page's `inventory` and `isLoading` state. */
  datatype PageState = PageState(inventory: seq<InventoryItem>, isLoading: bool)

  /** One run of the loading code: with the products and the database there,
      `fetchAllVariants` sets the flattened rows and stops loading; otherwise
      loading stops once the products hook has stopped loading; otherwise
      nothing changes. */
  function RunFetch(r: Render, hasDb: bool, variantsOf: string -> seq<VariantEntry>, s: PageState): (t: PageState)
    ensures r.products.Some? && hasDb ==> t == PageState(Flatten(r.products.value, variantsOf), false)
    ensures !(r.products.Some? && hasDb) ==> t.inventory == s.inventory
    ensures !(r.products.Some? && hasDb) && !r.productsLoading ==> !t.isLoading
    ensures !(r.products.Some? && hasDb) && r.productsLoading ==> t == s
  {
    if r.products.Some? && hasDb then PageState(Flatten(r.products.value, variantsOf), false)
    else if !r.productsLoading then s.(isLoading := false)
    else s
  }

  /** The table body: skeleton rows, the inventory rows, or the
      "No products found in inventory." message. */
  datatype TableBody = SkeletonRows | InventoryRows(items: seq<InventoryItem>) | NoProductsMessage

  function Body(s: PageState, userLoading: bool): (b: TableBody)
    ensures b.SkeletonRows? <==> s.isLoading || userLoading
    ensures b.InventoryRows? <==> !s.isLoading && !userLoading && |s.inventory| > 0
    ensures b.InventoryRows? ==> b.items == s.inventory
  {
    if s.isLoading || userLoading then SkeletonRows
    else if |s.inventory| > 0 then InventoryRows(s.inventory)
    else NoProductsMessage
  }

  /** The state at mount: no rows, loading. */
  const Initial := PageState([], true)

  /** The page as written: the loading code is the initializer of a
      `useState`, which React runs at the first render only, with what that
      render sees; later renders never run it again. The body shown is that
      of the latest render. */
  function BodyAsWritten(renders: seq<Render>, hasDb: bool, variantsOf: string -> seq<VariantEntry>): (b: TableBody)
    requires |renders| > 0
    ensures b == Body(RunFetch(renders[0], hasDb, variantsOf, Initial), renders[|renders| - 1].userLoading)
  {
    Body(RunFetch(renders[0], hasDb, variantsOf, Initial), renders[|renders| - 1].userLoading)
  }

  /** The state after the loading code has run on each render in turn, as an
      effect with these dependencies would run it. */
  function StateAfter(renders: seq<Render>, hasDb: bool, variantsOf: string -> seq<VariantEntry>): PageState
    decreases |renders|
  {
    if |renders| == 0 then Initial
    else RunFetch(renders[|renders| - 1], hasDb, variantsOf, StateAfter(renders[..|renders| - 1], hasDb, variantsOf))
  }

  /** The page as intended: the rows follow the latest products. Once the
      latest render has the products, the database and the user, their rows
      show (or the empty message when they have no variants); once neither
      hook is loading, the skeletons are gone. */
  function BodyIntended(renders: seq<Render>, hasDb: bool, variantsOf: string -> seq<VariantEntry>): (b: TableBody)
    requires |renders| > 0
    ensures var last := renders[|renders| - 1];
      last.products.Some? && hasDb && !last.userLoading ==>
        b == (if |Flatten(last.products.value, variantsOf)| > 0
              then InventoryRows(Flatten(last.products.value, variantsOf)) else NoProductsMessage)
    ensures var last := renders[|renders| - 1];
      !last.productsLoading && !last.userLoading ==> !b.SkeletonRows?
  {
    Body(StateAfter(renders, hasDb, variantsOf), renders[|renders| - 1].userLoading)
  }

  /** The products hook delivers nothing at the first render, so the page as
      written never shows a row: it stays on the skeletons or shows the
      empty message, whatever products arrive later. The intended page shows
      the rows of the products that arrived. */
  lemma RowsNeverShown(renders: seq<Render>, hasDb: bool, variantsOf: string -> seq<VariantEntry>)
    requires |renders| > 0 && renders[0].products.None?
    ensures BodyAsWritten(renders, hasDb, variantsOf) ==
      (if renders[0].productsLoading || renders[|renders| - 1].userLoading then SkeletonRows else NoProductsMessage)
    ensures var last := renders[|renders| - 1];
      last.products.Some? && hasDb && !last.userLoading && |Flatten(last.products.value, variantsOf)| > 0 ==>
        BodyIntended(renders, hasDb, variantsOf) == InventoryRows(Flatten(last.products.value, variantsOf))
  {
  }

  /** What a stock change reports. */
  datatype StockOutcome = Ignored | Updated | UpdateFailed

  class InventoryPage {
    var inventory: seq<InventoryItem>
    var isLoading: bool

    constructor ()
      ensures inventory == [] && isLoading
    {
      inventory := [];
      isLoading := true;
    }

    /** `setInventory(allItems)` once the variants have been fetched. */
    method Load(products: seq<Product>, variantsOf: string -> seq<VariantEntry>)
      modifies this
      ensures inventory == Flatten(products, variantsOf) && isLoading == old(isLoading)
    {
      inventory := FlattenInventory(products, variantsOf);
    }

    /** The loading code run for a render, as an effect on the products, the
        database and the loading flag would run it. */
    method OnRender(r: Render, hasDb: bool, variantsOf: string -> seq<VariantEntry>)
      modifies this
      ensures PageState(inventory, isLoading) == RunFetch(r, hasDb, variantsOf, old(PageState(inventory, isLoading)))
    {
      if r.products.Some? && hasDb {
        isLoading := true;
        Load(r.products.value, variantsOf);
        isLoading := false;
      } else if !r.productsLoading {
        isLoading := false;
      }
    }

    /** `handleStockChange`: without a database or with a negative stock
        nothing happens; a failed write leaves the list as it was; a
        successful one updates exactly the rows of that variant. */
    method HandleStockChange(hasDb: bool, productId: string, variantId: string, newStock: int, writeOk: bool)
      returns (outcome: StockOutcome)
      modifies this
      ensures isLoading == old(isLoading)
      ensures !hasDb || newStock < 0 ==> outcome == Ignored && inventory == old(inventory)
      ensures hasDb && newStock >= 0 && !writeOk ==> outcome == UpdateFailed && inventory == old(inventory)
      ensures hasDb && newStock >= 0 && writeOk ==>
        outcome == Updated && inventory == SetStock(old(inventory), variantId, newStock)
    {
      if !hasDb || newStock < 0 {
        return Ignored;
      }
      if !writeOk {
        return UpdateFailed;
      }
      inventory := SetStock(inventory, variantId, newStock);
      outcome := Updated;
    }
  }
}
