/** src/components/cart/CartSheet.tsx: the slide-over cart. Its buttons choose
    which cart operation to call and with which arguments; `handleCheckout`
    hands over from the sheet to the checkout dialog. */
module CartSheet {
  import opened Types
  import opened CartContext

  /** A call into the cart context made by one of the sheet's buttons. */
  datatype CartCall =
    | UpdateQuantityCall(productId: string, size: Size, quantity: int)
    | RemoveFromCartCall(productId: string, size: Size)

  /** The minus button: `updateQuantity(productId, size, quantity - 1)`. */
  function MinusCall(line: CartItem): (c: CartCall)
    ensures c.UpdateQuantityCall? && IsLine(line, c.productId, c.size) && c.quantity == line.quantity - 1
  {
    UpdateQuantityCall(line.productId, line.size, line.quantity - 1)
  }

  /** The plus button: `updateQuantity(productId, size, quantity + 1)`. */
  function PlusCall(line: CartItem): (c: CartCall)
    ensures c.UpdateQuantityCall? && IsLine(line, c.productId, c.size) && c.quantity == line.quantity + 1
  {
    UpdateQuantityCall(line.productId, line.size, line.quantity + 1)
  }

  /** The trash button: `removeFromCart(productId, size)`. */
  function TrashCall(line: CartItem): (c: CartCall)
    ensures c.RemoveFromCartCall? && IsLine(line, c.productId, c.size)
  {
    RemoveFromCartCall(line.productId, line.size)
  }

  /** The new cart once the context has carried out a call. No button adds a
      line, and unique keys stay unique. */
  function Apply(cart: seq<CartItem>, call: CartCall): (r: seq<CartItem>)
    ensures |r| <= |cart|
    ensures KeysUnique(cart) ==> KeysUnique(r)
  {
    match call
    case UpdateQuantityCall(productId, size, quantity) =>
      if KeysUnique(cart) then UpdatePreservesUnique(cart, productId, size, quantity); UpdateLine(cart, productId, size, quantity)
      else UpdateLine(cart, productId, size, quantity)
    case RemoveFromCartCall(productId, size) =>
      if KeysUnique(cart) then RemovePreservesUnique(cart, productId, size); RemoveLine(cart, productId, size)
      else RemoveLine(cart, productId, size)
  }

  /** The trash button on line `k` drops exactly that line and keeps the
      others in order. */
  lemma TrashRemovesLine(cart: seq<CartItem>, k: int)
    requires KeysUnique(cart) && 0 <= k < |cart|
    ensures Apply(cart, TrashCall(cart[k])) == cart[..k] + cart[k + 1..]
    ensures ItemCount(Apply(cart, TrashCall(cart[k]))) == ItemCount(cart) - cart[k].quantity
  {
    UniqueKeysSoleLine(cart, cart[k].productId, cart[k].size, k);
    RemoveUniqueLine(cart, cart[k].productId, cart[k].size, k);
    RemoveUniqueLineSums(cart, cart[k].productId, cart[k].size, k);
  }

  /** The minus button on a line of quantity 1 (or less) removes the line, just
      as the trash button would. */
  lemma MinusAtOneRemovesLine(cart: seq<CartItem>, k: int)
    requires KeysUnique(cart) && 0 <= k < |cart| && cart[k].quantity <= 1
    ensures Apply(cart, MinusCall(cart[k])) == cart[..k] + cart[k + 1..]
    ensures Apply(cart, MinusCall(cart[k])) == Apply(cart, TrashCall(cart[k]))
  {
    TrashRemovesLine(cart, k);
  }

  /** The minus button on a line of quantity above 1 lowers that line's
      quantity by one and nothing else; the count drops by one. */
  lemma MinusDecrements(cart: seq<CartItem>, k: int)
    requires KeysUnique(cart) && 0 <= k < |cart| && cart[k].quantity > 1
    ensures Apply(cart, MinusCall(cart[k])) == cart[k := cart[k].(quantity := cart[k].quantity - 1)]
    ensures ItemCount(Apply(cart, MinusCall(cart[k]))) == ItemCount(cart) - 1
  {
    UniqueKeysSoleLine(cart, cart[k].productId, cart[k].size, k);
    UpdateUniqueLine(cart, cart[k].productId, cart[k].size, cart[k].quantity - 1, k);
    UpdateUniqueLineSums(cart, cart[k].productId, cart[k].size, cart[k].quantity - 1, k);
  }

  /** The plus button raises that line's quantity by exactly one and changes
      nothing else; the count grows by one. */
  lemma PlusIncrements(cart: seq<CartItem>, k: int)
    requires KeysUnique(cart) && 0 <= k < |cart| && cart[k].quantity >= 0
    ensures Apply(cart, PlusCall(cart[k])) == cart[k := cart[k].(quantity := cart[k].quantity + 1)]
    ensures ItemCount(Apply(cart, PlusCall(cart[k]))) == ItemCount(cart) + 1
  {
    UniqueKeysSoleLine(cart, cart[k].productId, cart[k].size, k);
    UpdateUniqueLine(cart, cart[k].productId, cart[k].size, cart[k].quantity + 1, k);
    UpdateUniqueLineSums(cart, cart[k].productId, cart[k].size, cart[k].quantity + 1, k);
  }

  /** What the sheet body shows: the lines with the total and the checkout
      button, or the empty-cart message. */
  datatype SheetBody =
    | LinesWithTotal(lines: seq<CartItem>, total: real)
    | EmptyCartMessage

  /** The sheet: the title always shows the item count; the body depends on
      `cart.length > 0`. */
  datatype SheetView = SheetView(titleCount: int, body: SheetBody)

  function View(cart: seq<CartItem>): (v: SheetView)
    ensures v.titleCount == ItemCount(cart)
    ensures v.body.EmptyCartMessage? <==> |cart| == 0
    ensures v.body.LinesWithTotal? ==> v.body.lines == cart && v.body.total == CartTotal(cart)
  {
    SheetView(ItemCount(cart), if |cart| > 0 then LinesWithTotal(cart, CartTotal(cart)) else EmptyCartMessage)
  }

  /** The component state: the two open flags, over the shared cart store. */
  class CartSheetState {
    const store: CartStore
    var isSheetOpen: bool
    var isCheckoutOpen: bool

    constructor (store: CartStore)
      ensures this.store == store && !isSheetOpen && !isCheckoutOpen
    {
      this.store := store;
      isSheetOpen := false;
      isCheckoutOpen := false;
    }

    /** `handleCheckout`: close the sheet, open the checkout dialog. */
    method HandleCheckout()
      modifies this
      ensures !isSheetOpen && isCheckoutOpen
    {
      isSheetOpen := false;
      isCheckoutOpen := true;
    }

    /** A press of one of the line buttons is carried out by the store. */
    method Press(call: CartCall)
      requires store.Valid()
      modifies store
      ensures store.Valid() && store.cart == Apply(old(store.cart), call)
      ensures KeysUnique(old(store.cart)) ==> KeysUnique(store.cart)
    {
      match call
      case UpdateQuantityCall(productId, size, quantity) =>
        store.UpdateQuantity(productId, size, quantity);
      case RemoveFromCartCall(productId, size) =>
        store.RemoveFromCart(productId, size);
    }
  }
}
