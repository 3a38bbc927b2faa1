/** src/context/CartContext.tsx: the shopper's cart, a list of lines keyed by
    (productId, size), its derived totals, and its mirror in local storage. */
module CartContext {
  import opened Common
  import opened Types

  /** The key that identifies a cart line. */
  function KeyOf(line: CartItem): (string, Size) {
    (line.productId, line.size)
  }

  /** The matching test used by every cart operation:
      `i.productId === productId && i.size === size`. */
  predicate IsLine(line: CartItem, productId: string, size: Size) {
    KeyOf(line) == (productId, size)
  }

  /** `prevCart.find(...)` succeeds. */
  predicate HasLine(cart: seq<CartItem>, productId: string, size: Size) {
    exists k | 0 <= k < |cart| :: IsLine(cart[k], productId, size)
  }

  /** No two lines share a (productId, size) key: no line's key occurs again
      further down the cart. */
  predicate KeysUnique(cart: seq<CartItem>)
    decreases |cart|
  {
    |cart| == 0
    || (!HasLine(cart[1..], cart[0].productId, cart[0].size) && KeysUnique(cart[1..]))
  }

  /** How `addToCart` and `updateQuantity` rewrite the matching line:
      `{ ...i, quantity: i.quantity + item.quantity }` or `{ ...i, quantity }`. */
  datatype QuantityChange = Increase(delta: int) | SetTo(quantity: int)

  function Changed(line: CartItem, change: QuantityChange): (r: CartItem)
    ensures KeyOf(r) == KeyOf(line) && r.price == line.price
  {
    match change
    case Increase(delta) => line.(quantity := line.quantity + delta)
    case SetTo(quantity) => line.(quantity := quantity)
  }

  /** The `prevCart.map(...)` shared by `addToCart` and `updateQuantity`: every
      line with the key is changed, every other line is kept as it is. */
  function ChangeLines(cart: seq<CartItem>, productId: string, size: Size, change: QuantityChange): (r: seq<CartItem>)
    ensures |r| == |cart|
    decreases |cart|
  {
    if |cart| == 0 then []
    else [if IsLine(cart[0], productId, size) then Changed(cart[0], change) else cart[0]]
         + ChangeLines(cart[1..], productId, size, change)
  }

  /** Line `k` is the one line of the cart with the key. */
  predicate SoleLine(cart: seq<CartItem>, productId: string, size: Size, k: int) {
    0 <= k < |cart| && IsLine(cart[k], productId, size)
    && forall j | 0 <= j < |cart| && j != k :: !IsLine(cart[j], productId, size)
  }

  /** In a cart with unique keys, a line with the key is the one line with it. */
  lemma {:induction false} UniqueKeysSoleLine(cart: seq<CartItem>, productId: string, size: Size, k: int)
    requires KeysUnique(cart)
    requires 0 <= k < |cart| && IsLine(cart[k], productId, size)
    ensures SoleLine(cart, productId, size, k)
    decreases |cart|
  {
    var tail := cart[1..];
    if k == 0 {
      assert cart[0].productId == productId && cart[0].size == size;
      forall j | 0 < j < |cart| ensures !IsLine(cart[j], productId, size) {
        assert cart[j] == tail[j - 1];
      }
    } else {
      assert tail[k - 1] == cart[k];
      assert !IsLine(cart[0], productId, size);
      UniqueKeysSoleLine(tail, productId, size, k - 1);
      forall j | 0 < j < |cart| && j != k ensures !IsLine(cart[j], productId, size) {
        assert cart[j] == tail[j - 1];
      }
    }
  }

  /** The state update of `addToCart`: a line with the item's key grows by
      the item's quantity; with no such line the item is appended. */
  function AddItem(cart: seq<CartItem>, item: CartItem): (r: seq<CartItem>)
    ensures HasLine(r, item.productId, item.size)
  {
    if HasLine(cart, item.productId, item.size) then
      var r := ChangeLines(cart, item.productId, item.size, Increase(item.quantity));
      ChangeLinesKeys(cart, item.productId, item.size, Increase(item.quantity));
      r
    else
      assert IsLine((cart + [item])[|cart|], item.productId, item.size);
      cart + [item]
  }

  /** The state update of `removeFromCart`: a `filter` that keeps the lines
      whose key differs. */
  function RemoveLine(cart: seq<CartItem>, productId: string, size: Size): (r: seq<CartItem>)
    ensures |r| <= |cart|
    decreases |cart|
  {
    if |cart| == 0 then []
    else (if IsLine(cart[0], productId, size) then [] else [cart[0]])
         + RemoveLine(cart[1..], productId, size)
  }

  /** The lines with a key: what the `removeFromCart` filter drops. */
  function KeepLine(cart: seq<CartItem>, productId: string, size: Size): seq<CartItem>
    decreases |cart|
  {
    if |cart| == 0 then []
    else (if IsLine(cart[0], productId, size) then [cart[0]] else [])
         + KeepLine(cart[1..], productId, size)
  }

  /** The state update of `updateQuantity`: a quantity of at most zero removes
      the line; a positive one replaces the quantity of the matching line and
      never inserts one. */
  function UpdateLine(cart: seq<CartItem>, productId: string, size: Size, quantity: int): (r: seq<CartItem>)
    ensures |r| <= |cart|
  {
    if quantity <= 0 then RemoveLineMembers(cart, productId, size); RemoveLine(cart, productId, size)
    else ChangeLines(cart, productId, size, SetTo(quantity))
  }

  /** `item.price * item.quantity` */
  function LineTotal(line: CartItem): (r: real)
    ensures line.price >= 0.0 && line.quantity >= 0 ==> r >= 0.0
    ensures line.quantity == 0 ==> r == 0.0
  {
    line.price * line.quantity as real
  }

  /** Every line has a non-negative price and quantity. */
  predicate NonNegativeLines(cart: seq<CartItem>) {
    forall i | 0 <= i < |cart| :: cart[i].price >= 0.0 && cart[i].quantity >= 0
  }

  /** Every line has a positive quantity. */
  predicate PositiveQuantities(cart: seq<CartItem>) {
    forall i | 0 <= i < |cart| :: cart[i].quantity > 0
  }

  /** `cartTotal`: the `reduce` of price times quantity over the lines. */
  function CartTotal(cart: seq<CartItem>): real
    decreases |cart|
  {
    if |cart| == 0 then 0.0 else LineTotal(cart[0]) + CartTotal(cart[1..])
  }

  /** With every quantity positive the count is at least the number of lines. */
  lemma {:induction false} ItemCountAtLeastLines(cart: seq<CartItem>)
    requires PositiveQuantities(cart)
    ensures ItemCount(cart) >= |cart|
    decreases |cart|
  {
    if |cart| > 0 {
      assert PositiveQuantities(cart[1..]) by {
        forall i | 0 <= i < |cart| - 1 ensures cart[1..][i].quantity > 0 {
          assert cart[1..][i] == cart[i + 1];
        }
      }
      ItemCountAtLeastLines(cart[1..]);
      assert cart[0].quantity > 0;
    }
  }

  /** With no negative price or quantity the total is not negative. */
  lemma {:induction false} CartTotalNonNegative(cart: seq<CartItem>)
    requires NonNegativeLines(cart)
    ensures CartTotal(cart) >= 0.0
    decreases |cart|
  {
    if |cart| > 0 {
      assert NonNegativeLines(cart[1..]) by {
        forall i | 0 <= i < |cart| - 1 ensures cart[1..][i].price >= 0.0 && cart[1..][i].quantity >= 0 {
          assert cart[1..][i] == cart[i + 1];
        }
      }
      CartTotalNonNegative(cart[1..]);
      assert cart[0].price >= 0.0 && cart[0].quantity >= 0;
    }
  }

  /** `itemCount`: the `reduce` of the quantities. */
  function ItemCount(cart: seq<CartItem>): (n: int)
    decreases |cart|
  {
    if |cart| == 0 then 0 else cart[0].quantity + ItemCount(cart[1..])
  }

  /** The total quantity held by the lines with one key. */
  function QuantityOf(cart: seq<CartItem>, productId: string, size: Size): int
    decreases |cart|
  {
    if |cart| == 0 then 0
    else (if IsLine(cart[0], productId, size) then cart[0].quantity else 0)
         + QuantityOf(cart[1..], productId, size)
  }

  /** Successive `addToCart` calls. */
  function AddAll(cart: seq<CartItem>, items: seq<CartItem>): seq<CartItem>
    decreases |items|
  {
    if |items| == 0 then cart else AddAll(AddItem(cart, items[0]), items[1..])
  }

  // ---------------------------------------------------------------------
  // Derived sums

  lemma {:induction false} SumsAppend(a: seq<CartItem>, b: seq<CartItem>)
    ensures CartTotal(a + b) == CartTotal(a) + CartTotal(b)
    ensures ItemCount(a + b) == ItemCount(a) + ItemCount(b)
    decreases |a|
  {
    if |a| == 0 {
      assert a + b == b;
    } else {
      assert (a + b)[1..] == a[1..] + b;
      SumsAppend(a[1..], b);
    }
  }

  lemma {:induction false} QuantityOfAppend(a: seq<CartItem>, b: seq<CartItem>, productId: string, size: Size)
    ensures QuantityOf(a + b, productId, size) == QuantityOf(a, productId, size) + QuantityOf(b, productId, size)
    decreases |a|
  {
    if |a| == 0 {
      assert a + b == b;
    } else {
      assert (a + b)[1..] == a[1..] + b;
      QuantityOfAppend(a[1..], b, productId, size);
    }
  }

  /** The line total is linear in the quantity. */
  lemma LineTotalGrows(line: CartItem, delta: int)
    ensures LineTotal(line.(quantity := line.quantity + delta)) == LineTotal(line) + line.price * delta as real
  {
    var q, d := line.quantity as real, delta as real;
    assert (line.quantity + delta) as real == q + d;
    assert line.price * (q + d) == line.price * q + line.price * d;
  }

  /** The total and the count split into the share of one key's lines and
      the share of the lines that `removeFromCart` keeps. */
  lemma {:induction false} SumsSplitByKey(cart: seq<CartItem>, productId: string, size: Size)
    ensures CartTotal(cart) == CartTotal(KeepLine(cart, productId, size)) + CartTotal(RemoveLine(cart, productId, size))
    ensures ItemCount(cart) == ItemCount(KeepLine(cart, productId, size)) + ItemCount(RemoveLine(cart, productId, size))
    decreases |cart|
  {
    if |cart| > 0 {
      SumsSplitByKey(cart[1..], productId, size);
      var head := if IsLine(cart[0], productId, size) then [cart[0]] else [];
      var other := if IsLine(cart[0], productId, size) then [] else [cart[0]];
      SumsAppend(head, KeepLine(cart[1..], productId, size));
      SumsAppend(other, RemoveLine(cart[1..], productId, size));
    }
  }

  // ---------------------------------------------------------------------
  // The shared map

  /** The map changes exactly the lines with the key, each in place. */
  lemma {:induction false} ChangeLinesAt(cart: seq<CartItem>, productId: string, size: Size, change: QuantityChange)
    ensures forall k | 0 <= k < |cart| ::
              ChangeLines(cart, productId, size, change)[k]
              == if IsLine(cart[k], productId, size) then Changed(cart[k], change) else cart[k]
    decreases |cart|
  {
    if |cart| > 0 {
      ChangeLinesAt(cart[1..], productId, size, change);
      var r := ChangeLines(cart, productId, size, change);
      forall k | 1 <= k < |cart|
        ensures r[k] == if IsLine(cart[k], productId, size) then Changed(cart[k], change) else cart[k]
      {
        assert r[k] == ChangeLines(cart[1..], productId, size, change)[k - 1];
        assert cart[1..][k - 1] == cart[k];
      }
    }
  }

  /** The map keeps every key where it was, so it keeps a key present or
      absent. */
  lemma ChangeLinesKeys(cart: seq<CartItem>, productId: string, size: Size, change: QuantityChange)
    ensures forall k | 0 <= k < |cart| :: KeyOf(ChangeLines(cart, productId, size, change)[k]) == KeyOf(cart[k])
    ensures forall p, z :: HasLine(ChangeLines(cart, productId, size, change), p, z) <==> HasLine(cart, p, z)
  {
    ChangeLinesAt(cart, productId, size, change);
    var r := ChangeLines(cart, productId, size, change);
    forall p, z ensures HasLine(r, p, z) <==> HasLine(cart, p, z) {
      if HasLine(r, p, z) {
        var k :| 0 <= k < |r| && IsLine(r[k], p, z);
        assert IsLine(cart[k], p, z);
      }
      if HasLine(cart, p, z) {
        var k :| 0 <= k < |cart| && IsLine(cart[k], p, z);
        assert IsLine(r[k], p, z);
      }
    }
  }

  /** ... and so it keeps the keys unique. */
  lemma {:induction false} ChangeLinesUnique(cart: seq<CartItem>, productId: string, size: Size, change: QuantityChange)
    requires KeysUnique(cart)
    ensures KeysUnique(ChangeLines(cart, productId, size, change))
    decreases |cart|
  {
    if |cart| > 0 {
      var r := ChangeLines(cart, productId, size, change);
      assert r[1..] == ChangeLines(cart[1..], productId, size, change);
      assert KeyOf(r[0]) == KeyOf(cart[0]);
      ChangeLinesKeys(cart[1..], productId, size, change);
      ChangeLinesUnique(cart[1..], productId, size, change);
    }
  }

  /** When line `k` is the one line with the key, the map rewrites that line
      and nothing else. */
  lemma ChangeUniqueLine(cart: seq<CartItem>, productId: string, size: Size, change: QuantityChange, k: int)
    requires SoleLine(cart, productId, size, k)
    ensures ChangeLines(cart, productId, size, change) == cart[k := Changed(cart[k], change)]
  {
    ChangeLinesAt(cart, productId, size, change);
    var r := ChangeLines(cart, productId, size, change);
    forall j | 0 <= j < |cart| && j != k ensures r[j] == cart[j] {
      assert !IsLine(cart[j], productId, size);
    }
  }

  /** With no line for the key there is nothing to keep. */
  lemma {:induction false} KeepAbsentLine(cart: seq<CartItem>, productId: string, size: Size)
    requires !HasLine(cart, productId, size)
    ensures KeepLine(cart, productId, size) == []
    decreases |cart|
  {
    if |cart| > 0 {
      assert !IsLine(cart[0], productId, size);
      assert !HasLine(cart[1..], productId, size) by {
        forall j | 0 <= j < |cart| - 1 ensures !IsLine(cart[1..][j], productId, size) {
          assert cart[1..][j] == cart[j + 1];
        }
      }
      KeepAbsentLine(cart[1..], productId, size);
    }
  }

  /** When line `k` is the one line with the key, the lines kept for the key
      are that line alone. */
  lemma {:induction false} KeepUniqueLine(cart: seq<CartItem>, productId: string, size: Size, k: int)
    requires SoleLine(cart, productId, size, k)
    ensures KeepLine(cart, productId, size) == [cart[k]]
    decreases |cart|
  {
    var tail := cart[1..];
    if k == 0 {
      assert !HasLine(tail, productId, size) by {
        forall j | 0 <= j < |tail| ensures !IsLine(tail[j], productId, size) {
          assert tail[j] == cart[j + 1];
        }
      }
      KeepAbsentLine(tail, productId, size);
    } else {
      assert !IsLine(cart[0], productId, size);
      assert SoleLine(tail, productId, size, k - 1) by {
        forall j | 0 <= j < |tail| ensures tail[j] == cart[j + 1] {
        }
      }
      KeepUniqueLine(tail, productId, size, k - 1);
    }
  }

  /** The map changes only lines that `removeFromCart` of the same key drops. */
  lemma {:induction false} RemoveChangedLines(cart: seq<CartItem>, productId: string, size: Size, change: QuantityChange)
    ensures RemoveLine(ChangeLines(cart, productId, size, change), productId, size) == RemoveLine(cart, productId, size)
    decreases |cart|
  {
    if |cart| > 0 {
      var r := ChangeLines(cart, productId, size, change);
      assert r[1..] == ChangeLines(cart[1..], productId, size, change);
      RemoveChangedLines(cart[1..], productId, size, change);
    }
  }

  /** When line `k` is the one line with the key, changing it moves the count and the total by exactly that line's change. */
  lemma ChangeUniqueSums(cart: seq<CartItem>, productId: string, size: Size, change: QuantityChange, k: int)
    requires SoleLine(cart, productId, size, k)
    ensures ItemCount(ChangeLines(cart, productId, size, change))
            == ItemCount(cart) - cart[k].quantity + Changed(cart[k], change).quantity
    ensures CartTotal(ChangeLines(cart, productId, size, change))
            == CartTotal(cart) - LineTotal(cart[k]) + LineTotal(Changed(cart[k], change))
  {
    var r := ChangeLines(cart, productId, size, change);
    ChangeLinesAt(cart, productId, size, change);
    assert SoleLine(r, productId, size, k) by {
      forall j | 0 <= j < |r| && j != k ensures !IsLine(r[j], productId, size) {
        assert r[j] == cart[j];
      }
    }
    KeepUniqueLine(cart, productId, size, k);
    KeepUniqueLine(r, productId, size, k);
    RemoveChangedLines(cart, productId, size, change);
    SumsSplitByKey(cart, productId, size);
    SumsSplitByKey(r, productId, size);
  }

  // ---------------------------------------------------------------------
  // Removing a key

  /** `removeFromCart` keeps exactly the lines with another key, so the key is
      gone afterwards and nothing is added. */
  lemma {:induction false} RemoveLineMembers(cart: seq<CartItem>, productId: string, size: Size)
    ensures forall x :: x in RemoveLine(cart, productId, size) <==> x in cart && !IsLine(x, productId, size)
    ensures !HasLine(RemoveLine(cart, productId, size), productId, size)
    ensures |RemoveLine(cart, productId, size)| <= |cart|
    decreases |cart|
  {
    if |cart| > 0 {
      RemoveLineMembers(cart[1..], productId, size);
      assert cart == [cart[0]] + cart[1..];
      var r := RemoveLine(cart, productId, size);
      forall k | 0 <= k < |r| ensures !IsLine(r[k], productId, size) {
        assert r[k] in r;
      }
    }
  }

  /** Removing a key that is absent leaves the cart as it was. */
  lemma {:induction false} RemoveAbsentLine(cart: seq<CartItem>, productId: string, size: Size)
    requires !HasLine(cart, productId, size)
    ensures RemoveLine(cart, productId, size) == cart
    decreases |cart|
  {
    if |cart| > 0 {
      assert !IsLine(cart[0], productId, size);
      assert !HasLine(cart[1..], productId, size) by {
        forall k | 0 <= k < |cart| - 1 ensures !IsLine(cart[1..][k], productId, size) {
          assert cart[1..][k] == cart[k + 1];
        }
      }
      RemoveAbsentLine(cart[1..], productId, size);
      assert cart == [cart[0]] + cart[1..];
    }
  }

  /** The filter distributes over concatenation, so it keeps the order of the
      lines it keeps. */
  lemma {:induction false} RemoveLineAppend(a: seq<CartItem>, b: seq<CartItem>, productId: string, size: Size)
    ensures RemoveLine(a + b, productId, size) == RemoveLine(a, productId, size) + RemoveLine(b, productId, size)
    decreases |a|
  {
    if |a| == 0 {
      assert a + b == b;
    } else {
      assert (a + b)[1..] == a[1..] + b;
      RemoveLineAppend(a[1..], b, productId, size);
    }
  }

  /** When line `k` is the one line with the key, removing the key drops exactly
      that line and keeps the others in order. */
  lemma RemoveUniqueLine(cart: seq<CartItem>, productId: string, size: Size, k: int)
    requires SoleLine(cart, productId, size, k)
    ensures RemoveLine(cart, productId, size) == cart[..k] + cart[k + 1..]
  {
    var pre, post := cart[..k], cart[k + 1..];
    assert cart == pre + [cart[k]] + post;
    assert !HasLine(pre, productId, size) by {
      forall j | 0 <= j < |pre| ensures !IsLine(pre[j], productId, size) {
        assert pre[j] == cart[j];
      }
    }
    assert !HasLine(post, productId, size) by {
      forall j | 0 <= j < |post| ensures !IsLine(post[j], productId, size) {
        assert post[j] == cart[k + 1 + j];
      }
    }
    RemoveAbsentLine(pre, productId, size);
    RemoveAbsentLine(post, productId, size);
    RemoveLineAppend(pre + [cart[k]], post, productId, size);
    RemoveLineAppend(pre, [cart[k]], productId, size);
    assert RemoveLine([cart[k]], productId, size) == [];
  }

  /** When line `k` is the one line with the key, `removeFromCart` of the key
      lowers the total and the count by that line's share. */
  lemma RemoveUniqueLineSums(cart: seq<CartItem>, productId: string, size: Size, k: int)
    requires SoleLine(cart, productId, size, k)
    ensures CartTotal(RemoveLine(cart, productId, size)) == CartTotal(cart) - LineTotal(cart[k])
    ensures ItemCount(RemoveLine(cart, productId, size)) == ItemCount(cart) - cart[k].quantity
  {
    KeepUniqueLine(cart, productId, size, k);
    SumsSplitByKey(cart, productId, size);
  }

  /** Removing a key keeps the keys unique. */
  lemma {:induction false} RemovePreservesUnique(cart: seq<CartItem>, productId: string, size: Size)
    requires KeysUnique(cart)
    ensures KeysUnique(RemoveLine(cart, productId, size))
    decreases |cart|
  {
    if |cart| > 0 {
      var tail := cart[1..];
      RemovePreservesUnique(tail, productId, size);
      var rest := RemoveLine(tail, productId, size);
      if !IsLine(cart[0], productId, size) {
        RemoveLineMembers(tail, productId, size);
        var r := [cart[0]] + rest;
        assert r[1..] == rest;
        assert !HasLine(rest, cart[0].productId, cart[0].size) by {
          forall j | 0 <= j < |rest| ensures !IsLine(rest[j], cart[0].productId, cart[0].size) {
            assert rest[j] in rest;
            var m :| 0 <= m < |tail| && tail[m] == rest[j];
          }
        }
      } else {
        assert RemoveLine(cart, productId, size) == rest;
      }
    }
  }

  /** Removing a line and adding the same key again yields one fresh line at
      the end holding only the newly added quantity. */
  lemma RemoveThenAdd(cart: seq<CartItem>, item: CartItem)
    ensures AddItem(RemoveLine(cart, item.productId, item.size), item)
            == RemoveLine(cart, item.productId, item.size) + [item]
  {
    RemoveLineMembers(cart, item.productId, item.size);
  }

  // ---------------------------------------------------------------------
  // Adding an item

  /** Appending a line whose key is absent keeps the keys unique. */
  lemma {:induction false} AppendNewUnique(cart: seq<CartItem>, item: CartItem)
    requires KeysUnique(cart) && !HasLine(cart, item.productId, item.size)
    ensures KeysUnique(cart + [item])
    decreases |cart|
  {
    if |cart| > 0 {
      var tail := cart[1..];
      assert (cart + [item])[1..] == tail + [item];
      assert !IsLine(cart[0], item.productId, item.size);
      assert !HasLine(tail, item.productId, item.size) by {
        forall j | 0 <= j < |tail| ensures !IsLine(tail[j], item.productId, item.size) {
          assert tail[j] == cart[j + 1];
        }
      }
      AppendNewUnique(tail, item);
      assert !HasLine(tail + [item], cart[0].productId, cart[0].size) by {
        forall j | 0 <= j < |tail| + 1 ensures !IsLine((tail + [item])[j], cart[0].productId, cart[0].size) {
          if j < |tail| {
            assert (tail + [item])[j] == tail[j];
          }
        }
      }
    } else {
      assert ([] + [item])[1..] == [];
    }
  }

  /** Adding keeps the keys unique. */
  lemma AddPreservesUnique(cart: seq<CartItem>, item: CartItem)
    requires KeysUnique(cart)
    ensures KeysUnique(AddItem(cart, item))
  {
    if HasLine(cart, item.productId, item.size) {
      ChangeLinesUnique(cart, item.productId, item.size, Increase(item.quantity));
    } else {
      AppendNewUnique(cart, item);
    }
  }

  /** When line `k` is the one line with the item's key, adding the item
      changes only that line's quantity, by the item's quantity. */
  lemma AddToExistingLine(cart: seq<CartItem>, item: CartItem, k: int)
    requires SoleLine(cart, item.productId, item.size, k)
    ensures AddItem(cart, item) == cart[k := cart[k].(quantity := cart[k].quantity + item.quantity)]
  {
    ChangeUniqueLine(cart, item.productId, item.size, Increase(item.quantity), k);
  }

  /** ... and the count grows by the item's quantity and the total by the
      line's own price (not the item's) times that quantity. */
  lemma AddToExistingLineSums(cart: seq<CartItem>, item: CartItem, k: int)
    requires SoleLine(cart, item.productId, item.size, k)
    ensures ItemCount(AddItem(cart, item)) == ItemCount(cart) + item.quantity
    ensures CartTotal(AddItem(cart, item)) == CartTotal(cart) + cart[k].price * item.quantity as real
  {
    ChangeUniqueSums(cart, item.productId, item.size, Increase(item.quantity), k);
    LineTotalGrows(cart[k], item.quantity);
  }

  /** Adding an item with a new key appends it; the count grows by its
      quantity and the total by its line total. */
  lemma AddNewLine(cart: seq<CartItem>, item: CartItem)
    requires !HasLine(cart, item.productId, item.size)
    ensures AddItem(cart, item) == cart + [item]
    ensures |AddItem(cart, item)| == |cart| + 1 && AddItem(cart, item)[..|cart|] == cart
    ensures ItemCount(AddItem(cart, item)) == ItemCount(cart) + item.quantity
    ensures CartTotal(AddItem(cart, item)) == CartTotal(cart) + LineTotal(item)
  {
    SumsAppend(cart, [item]);
    assert (cart + [item])[..|cart|] == cart;
  }

  /** In a cart with unique keys the quantity held under a key is that of its
      one line, or zero when there is none. */
  lemma {:induction false} QuantityOfUnique(cart: seq<CartItem>, productId: string, size: Size)
    requires KeysUnique(cart)
    ensures !HasLine(cart, productId, size) ==> QuantityOf(cart, productId, size) == 0
    ensures forall k | 0 <= k < |cart| && IsLine(cart[k], productId, size) ::
              QuantityOf(cart, productId, size) == cart[k].quantity
    decreases |cart|
  {
    if |cart| > 0 {
      var tail := cart[1..];
      QuantityOfUnique(tail, productId, size);
      if IsLine(cart[0], productId, size) {
        assert cart[0].productId == productId && cart[0].size == size;
      } else {
        forall k | 0 <= k < |cart| && IsLine(cart[k], productId, size)
          ensures QuantityOf(cart, productId, size) == cart[k].quantity
        {
          assert tail[k - 1] == cart[k];
        }
        if !HasLine(cart, productId, size) {
          assert !HasLine(tail, productId, size) by {
            forall j | 0 <= j < |tail| ensures !IsLine(tail[j], productId, size) {
              assert tail[j] == cart[j + 1];
            }
          }
        }
      }
    }
  }

  /** Adding an item to a cart with unique keys raises the quantity held under
      its key by exactly the item's quantity. */
  lemma AddRaisesQuantity(cart: seq<CartItem>, item: CartItem)
    requires KeysUnique(cart)
    ensures QuantityOf(AddItem(cart, item), item.productId, item.size)
            == QuantityOf(cart, item.productId, item.size) + item.quantity
  {
    var r := AddItem(cart, item);
    AddPreservesUnique(cart, item);
    QuantityOfUnique(cart, item.productId, item.size);
    QuantityOfUnique(r, item.productId, item.size);
    if HasLine(cart, item.productId, item.size) {
      var k :| 0 <= k < |cart| && IsLine(cart[k], item.productId, item.size);
      ChangeLinesAt(cart, item.productId, item.size, Increase(item.quantity));
      assert IsLine(r[k], item.productId, item.size);
    } else {
      assert IsLine(r[|cart|], item.productId, item.size);
    }
  }

  /** Any number of `addToCart` calls with one key leave a single line for it
      (keys stay unique) whose quantity is the old one plus the sum of the
      added quantities. */
  lemma {:induction false} RepeatedAdds(cart: seq<CartItem>, items: seq<CartItem>, productId: string, size: Size)
    requires KeysUnique(cart)
    requires forall i | 0 <= i < |items| :: IsLine(items[i], productId, size)
    ensures KeysUnique(AddAll(cart, items))
    ensures QuantityOf(AddAll(cart, items), productId, size) == QuantityOf(cart, productId, size) + ItemCount(items)
    ensures |items| > 0 ==> HasLine(AddAll(cart, items), productId, size)
    decreases |items|
  {
    if |items| > 0 {
      var next := AddItem(cart, items[0]);
      AddPreservesUnique(cart, items[0]);
      AddRaisesQuantity(cart, items[0]);
      RepeatedAdds(next, items[1..], productId, size);
    }
  }

  // ---------------------------------------------------------------------
  // Updating a quantity

  /** When line `k` is the one line with the key, a positive quantity for the key
      replaces that line's quantity (it does not add to it). */
  lemma UpdateUniqueLine(cart: seq<CartItem>, productId: string, size: Size, quantity: int, k: int)
    requires SoleLine(cart, productId, size, k)
    requires quantity > 0
    ensures UpdateLine(cart, productId, size, quantity) == cart[k := cart[k].(quantity := quantity)]
  {
    ChangeUniqueLine(cart, productId, size, SetTo(quantity), k);
  }

  /** ... so the count moves by the difference of the quantities, and in the
      total the line's old share gives way to its price times the new
      quantity. */
  lemma UpdateUniqueLineSums(cart: seq<CartItem>, productId: string, size: Size, quantity: int, k: int)
    requires SoleLine(cart, productId, size, k)
    requires quantity > 0
    ensures ItemCount(UpdateLine(cart, productId, size, quantity)) == ItemCount(cart) - cart[k].quantity + quantity
    ensures CartTotal(UpdateLine(cart, productId, size, quantity))
            == CartTotal(cart) - LineTotal(cart[k]) + cart[k].price * quantity as real
  {
    ChangeUniqueSums(cart, productId, size, SetTo(quantity), k);
  }

  /** Updating a key that is absent leaves the cart as it was, whatever the quantity. */
  lemma UpdateAbsentLine(cart: seq<CartItem>, productId: string, size: Size, quantity: int)
    requires !HasLine(cart, productId, size)
    ensures UpdateLine(cart, productId, size, quantity) == cart
  {
    if quantity <= 0 {
      RemoveAbsentLine(cart, productId, size);
    } else {
      ChangeLinesAt(cart, productId, size, SetTo(quantity));
      var r := UpdateLine(cart, productId, size, quantity);
      forall j | 0 <= j < |cart| ensures r[j] == cart[j] {
        assert !IsLine(cart[j], productId, size);
      }
    }
  }

  /** Updating a quantity keeps the keys unique, and a positive quantity
      neither adds nor drops the key; a quantity of at most zero drops it. */
  lemma UpdatePreservesUnique(cart: seq<CartItem>, productId: string, size: Size, quantity: int)
    requires KeysUnique(cart)
    ensures KeysUnique(UpdateLine(cart, productId, size, quantity))
    ensures quantity > 0 ==> (HasLine(UpdateLine(cart, productId, size, quantity), productId, size) <==> HasLine(cart, productId, size))
    ensures quantity <= 0 ==> !HasLine(UpdateLine(cart, productId, size, quantity), productId, size)
  {
    if quantity <= 0 {
      RemovePreservesUnique(cart, productId, size);
      RemoveLineMembers(cart, productId, size);
    } else {
      ChangeLinesKeys(cart, productId, size, SetTo(quantity));
      ChangeLinesUnique(cart, productId, size, SetTo(quantity));
    }
  }

  // ---------------------------------------------------------------------
  // Local storage

  /** The mirror effect: the "cart" entry holds the cart when it is non-empty
      and is removed when it is empty. */
  function Mirror(cart: seq<CartItem>): (stored: Option<seq<CartItem>>)
    ensures stored.Some? <==> |cart| > 0
    ensures stored.Some? ==> stored.value == cart
  {
    if |cart| > 0 then Some(cart) else None
  }

  /** The hydrate effect: a present entry replaces the initial empty cart. */
  function Hydrate(stored: Option<seq<CartItem>>): (cart: seq<CartItem>)
    ensures stored.Some? ==> cart == stored.value
    ensures stored.None? ==> cart == []
  {
    stored.GetOr([])
  }

  /** Reloading from what the mirror stored reproduces the cart, including the
      empty cart that left no entry. */
  lemma HydrateMirror(cart: seq<CartItem>)
    ensures Hydrate(Mirror(cart)) == cart
  {
  }

  /** The `CartProvider` state: the cart and the "cart" entry of local storage. */
  class CartStore {
    var cart: seq<CartItem>
    var stored: Option<seq<CartItem>>

    /** The storage entry always mirrors the cart. */
    ghost predicate Valid()
      reads this
    {
      stored == Mirror(cart)
    }

    /** Mounting the provider: the cart starts empty, the hydrate effect loads a
        present stored entry, and the mirror effect then rewrites storage. */
    constructor (storage: Option<seq<CartItem>>)
      ensures Valid()
      ensures cart == Hydrate(storage)
    {
      var hydrated := Hydrate(storage);
      cart := hydrated;
      stored := Mirror(hydrated);
    }

    /** `cartTotal` */
    function Total(): real
      reads this
    {
      CartTotal(cart)
    }

    /** `itemCount` */
    function Count(): int
      reads this
    {
      ItemCount(cart)
    }

    method AddToCart(item: CartItem)
      requires Valid()
      modifies this
      ensures Valid() && cart == AddItem(old(cart), item)
      ensures KeysUnique(old(cart)) ==> KeysUnique(cart)
    {
      if KeysUnique(cart) {
        AddPreservesUnique(cart, item);
      }
      cart := AddItem(cart, item);
      stored := Mirror(cart);
    }

    method RemoveFromCart(productId: string, size: Size)
      requires Valid()
      modifies this
      ensures Valid() && cart == RemoveLine(old(cart), productId, size)
      ensures KeysUnique(old(cart)) ==> KeysUnique(cart)
    {
      if KeysUnique(cart) {
        RemovePreservesUnique(cart, productId, size);
      }
      cart := RemoveLine(cart, productId, size);
      stored := Mirror(cart);
    }

    method UpdateQuantity(productId: string, size: Size, quantity: int)
      requires Valid()
      modifies this
      ensures Valid() && cart == UpdateLine(old(cart), productId, size, quantity)
      ensures KeysUnique(old(cart)) ==> KeysUnique(cart)
    {
      if KeysUnique(cart) {
        UpdatePreservesUnique(cart, productId, size, quantity);
      }
      cart := UpdateLine(cart, productId, size, quantity);
      stored := Mirror(cart);
    }

    method ClearCart()
      requires Valid()
      modifies this
      ensures Valid() && cart == [] && stored == None
      ensures KeysUnique(cart) && Total() == 0.0 && Count() == 0
    {
      cart := [];
      stored := Mirror(cart);
    }
  }

  /** What `useCart` yields: the context, or the error it throws. */
  datatype Hook<T> = Provided(value: T) | Thrown(message: string)

  /** `useCart` outside a `CartProvider` throws; inside, it returns the context. */
  function UseCart<T>(context: Option<T>): (r: Hook<T>)
    ensures context.Some? <==> r.Provided?
    ensures context.Some? ==> r.value == context.value
    ensures context.None? ==> r.message == "useCart must be used within a CartProvider"
  {
    match context
    case Some(c) => Provided(c)
    case None => Thrown("useCart must be used within a CartProvider")
  }
}
