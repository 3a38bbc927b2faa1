/** src/components/cart/CheckoutDialog.tsx: the dialog that asks for a name
    and phone, places the order through `createOrder`, shows the success
    alert and, on "Continue to WhatsApp", clears the cart. Toasts are the
    titles in the outcome; the WhatsApp link is represented by the order text
    it carries. */
module CheckoutDialog {
  import opened Common
  import opened Text
  import opened Types
  import opened CartContext
  import opened Actions

  const EmptyCartTitle := "Your cart is empty"
  const MissingDetailsTitle := "Please fill in your name and phone number"
  const OrderFailedTitle := "Order Failed"

  /** How a press of "Confirm Order" ends: an error toast, or an order placed. */
  datatype CheckoutOutcome = Rejected(toastTitle: string) | Placed(orderId: string)

  /** `orderSuccessData`; `orderText` is the message the WhatsApp link sends. */
  datatype SuccessData = SuccessData(orderId: string, orderText: string)

  /** One line of the message: `- name (size) x quantity @ $price`, with the
      price formatting (`toFixed(2)`) a parameter. */
  function ItemLine(item: CartItem, fixed2: real -> string): (line: string)
    ensures |line| > 2 && line[..2] == "- "
    ensures '\n' !in item.name && '\n' !in fixed2(item.price) ==> '\n' !in line
  {
    IntTextNoNewline(item.quantity);
    assert '\n' !in item.size.Name();
    "- " + item.name + " (" + item.size.Name() + ") x " + IntText(item.quantity) + " @ $" + fixed2(item.price)
  }

  function ItemLines(cart: seq<CartItem>, fixed2: real -> string): (lines: seq<string>)
    ensures |lines| == |cart| && forall i | 0 <= i < |cart| :: lines[i] == ItemLine(cart[i], fixed2)
  {
    seq(|cart|, i requires 0 <= i < |cart| => ItemLine(cart[i], fixed2))
  }

  /** The order message built after a successful `createOrder`: the template
      literal with its line breaks written out one by one. */
  function OrderText(orderId: string, name: string, phone: string, cart: seq<CartItem>, total: real,
                     fixed2: real -> string): (text: string)
    ensures var totalLine := "*Total: $" + fixed2(total) + "*";
      |totalLine| <= |text| && text[|text| - |totalLine|..] == totalLine
  {
    var header := "*New Order: " + orderId + "*";
    var nameLine := "*Name:* " + name;
    var phoneLine := "*Phone:* " + phone;
    var totalLine := "*Total: $" + fixed2(total) + "*";
    header + "\n" + "\n" + nameLine + "\n" + phoneLine + "\n" + "\n" + "*Items:*" + "\n"
    + Join(ItemLines(cart, fixed2), '\n') + "\n" + "\n" + totalLine
  }

  /** The message read line by line: the header, then exactly one line per
      cart item in cart order, then the total, provided the entered details
      and the formatted amounts hold no line break. */
  lemma OrderTextLines(orderId: string, name: string, phone: string, cart: seq<CartItem>, total: real,
                       fixed2: real -> string)
    requires |cart| > 0
    requires '\n' !in orderId && '\n' !in name && '\n' !in phone && '\n' !in fixed2(total)
    requires forall i | 0 <= i < |cart| :: '\n' !in cart[i].name && '\n' !in fixed2(cart[i].price)
    ensures Split(OrderText(orderId, name, phone, cart, total, fixed2), '\n')
         == ["*New Order: " + orderId + "*", "", "*Name:* " + name, "*Phone:* " + phone, "", "*Items:*"]
            + ItemLines(cart, fixed2)
            + ["", "*Total: $" + fixed2(total) + "*"]
  {
    var nl := '\n';
    var lines := ItemLines(cart, fixed2);
    ItemLinesNoNewline(cart, fixed2);
    SplitJoin(lines, nl);
    var header := "*New Order: " + orderId + "*";
    var nameLine := "*Name:* " + name;
    var phoneLine := "*Phone:* " + phone;
    var totalLine := "*Total: $" + fixed2(total) + "*";
    NoNewlineAround("*New Order: ", orderId, "*");
    NoNewlineAround("*Name:* ", name, "");
    NoNewlineAround("*Phone:* ", phone, "");
    NoNewlineAround("*Total: $", fixed2(total), "*");
    assert nameLine == "*Name:* " + name + "" && phoneLine == "*Phone:* " + phone + "";
    var head := header + "\n" + "\n" + nameLine + "\n" + phoneLine + "\n" + "\n" + "*Items:*";
    HeadLines(header, nameLine, phoneLine);
    TailLines(head, Join(lines, nl), totalLine);
    assert OrderText(orderId, name, phone, cart, total, fixed2) == head + "\n" + Join(lines, nl) + "\n" + "\n" + totalLine;
  }

  /** The items, an empty line and the total after the heading lines. */
  lemma TailLines(head: string, items: string, totalLine: string)
    requires '\n' !in totalLine
    ensures Split(head + "\n" + items + "\n" + "\n" + totalLine, '\n')
         == Split(head, '\n') + Split(items, '\n') + ["", totalLine]
  {
    var nl := '\n';
    var x9 := head + "\n" + items;
    SplitAround(head, items, nl);
    var x11 := x9 + "\n";
    SplitEndsWithSep(x9, nl);
    SplitAround(x11, totalLine, nl);
    SplitNoSep(totalLine, nl);
  }

  lemma ItemLinesNoNewline(cart: seq<CartItem>, fixed2: real -> string)
    requires forall i | 0 <= i < |cart| :: '\n' !in cart[i].name && '\n' !in fixed2(cart[i].price)
    ensures forall line | line in ItemLines(cart, fixed2) :: '\n' !in line
  {
    var lines := ItemLines(cart, fixed2);
    forall i | 0 <= i < |lines| ensures '\n' !in lines[i] {
      assert lines[i] == ItemLine(cart[i], fixed2);
    }
  }

  lemma NoNewlineAround(a: string, b: string, c: string)
    requires '\n' !in a && '\n' !in b && '\n' !in c
    ensures '\n' !in a + b + c
  {
  }

  /** The lines before the items. */
  lemma HeadLines(header: string, nameLine: string, phoneLine: string)
    requires '\n' !in header && '\n' !in nameLine && '\n' !in phoneLine
    ensures Split(header + "\n" + "\n" + nameLine + "\n" + phoneLine + "\n" + "\n" + "*Items:*", '\n')
         == [header, "", nameLine, phoneLine, "", "*Items:*"]
  {
    var nl := '\n';
    var x1 := header + "\n";
    SplitNoSep(header, nl);
    SplitEndsWithSep(header, nl);
    assert Split(x1, nl) == [header, ""];
    var x3 := x1 + "\n" + nameLine;
    SplitAround(x1, nameLine, nl);
    SplitNoSep(nameLine, nl);
    assert Split(x3, nl) == [header, ""] + [nameLine];
    var x5 := x3 + "\n" + phoneLine;
    SplitAround(x3, phoneLine, nl);
    SplitNoSep(phoneLine, nl);
    assert Split(x5, nl) == [header, "", nameLine] + [phoneLine];
    var x6 := x5 + "\n";
    SplitEndsWithSep(x5, nl);
    assert Split(x6, nl) == [header, "", nameLine, phoneLine] + [""];
    ItemsHeading(x6);
  }

  lemma ItemsHeading(x6: string)
    ensures Split(x6 + "\n" + "*Items:*", '\n') == Split(x6, '\n') + ["*Items:*"]
  {
    assert '\n' !in "*Items:*";
    SplitAround(x6, "*Items:*", '\n');
    SplitNoSep("*Items:*", '\n');
  }

  lemma IntTextNoNewline(n: int)
    ensures '\n' !in IntText(n)
  {
    var d := NatText(if n < 0 then -n else n);
    assert forall i | 0 <= i < |d| :: d[i] != '\n';
  }

  /** The dialog's state over the shared cart store. `open` is the prop the
      cart sheet passes down. */
  class CheckoutDialog {
    const store: CartStore
    var open: bool
    var name: string
    var phone: string
    var isLoading: bool
    var orderSuccess: Option<SuccessData>

    constructor (store: CartStore, open: bool)
      ensures this.store == store && this.open == open
      ensures name == "" && phone == "" && !isLoading && orderSuccess == None
    {
      this.store := store;
      this.open := open;
      name := "";
      phone := "";
      isLoading := false;
      orderSuccess := None;
    }

    /** The input dialog shows while open and no order has succeeded. */
    function InputDialogOpen(): (r: bool)
      reads this
      ensures r ==> !SuccessDialogOpen()
      ensures open && !SuccessDialogOpen() ==> r
    {
      open && orderSuccess.None?
    }

    /** The success alert shows while success data is present. */
    function SuccessDialogOpen(): bool
      reads this
    {
      orderSuccess.Some?
    }

    /** `handleCheckout`. An empty cart, then a missing name or phone, stop it
        with an error toast and no order. Otherwise the order (the entered
        details, the cart as items, status Pending) goes to `createOrder`;
        on success the success data holds its id and message, on failure an
        "Order Failed" toast shows and nothing else changes. The cart is never
        touched and `isLoading` ends false. */
    method HandleCheckout(db: OrderDb, randomText: string, now: int, fault: Option<Fault>, fixed2: real -> string)
      returns (outcome: CheckoutOutcome)
      requires store.Valid() && db.Valid() && !isLoading
      modifies this, db
      ensures store.Valid() && db.Valid() && !isLoading
      ensures store.cart == old(store.cart)
      ensures name == old(name) && phone == old(phone) && open == old(open)
      ensures |store.cart| == 0 ==>
        outcome == Rejected(EmptyCartTitle) && db.orders == old(db.orders) && orderSuccess == old(orderSuccess)
      ensures |store.cart| > 0 && (name == "" || phone == "") ==>
        outcome == Rejected(MissingDetailsTitle) && db.orders == old(db.orders) && orderSuccess == old(orderSuccess)
      ensures |store.cart| > 0 && name != "" && phone != "" && fault.Some? ==>
        outcome == Rejected(OrderFailedTitle) && db.orders == old(db.orders) && orderSuccess == old(orderSuccess)
      ensures |store.cart| > 0 && name != "" && phone != "" && fault.None? ==>
        var id := OrderIdFor(randomText);
        && outcome == Placed(id)
        && db.orders == old(db.orders)[id := NewOrder(OrderInput(name, phone, store.cart, Pending), id, now)]
        && orderSuccess == Some(SuccessData(id, OrderText(id, name, phone, store.cart, CartTotal(store.cart), fixed2)))
    {
      if |store.cart| == 0 {
        return Rejected(EmptyCartTitle);
      }
      if name == "" || phone == "" {
        return Rejected(MissingDetailsTitle);
      }
      isLoading := true;
      var result := db.CreateOrder(OrderInput(name, phone, store.cart, Pending), randomText, now, fault);
      if result.success && result.orderId.Some? && result.orderId.value != "" {
        var text := OrderText(result.orderId.value, name, phone, store.cart, store.Total(), fixed2);
        orderSuccess := Some(SuccessData(result.orderId.value, text));
        outcome := Placed(result.orderId.value);
      } else {
        outcome := Rejected(OrderFailedTitle);
      }
      isLoading := false;
    }

    /** `closeSuccessDialogAndRedirect`. With success data present it opens
        the WhatsApp message, clears the cart, resets the name, phone and
        success data and closes the dialog; without it nothing happens. */
    method CloseSuccessDialogAndRedirect() returns (redirect: Option<string>)
      requires store.Valid()
      modifies this, store
      ensures store.Valid()
      ensures old(orderSuccess).Some? ==>
        && redirect == Some(old(orderSuccess).value.orderText)
        && store.cart == [] && name == "" && phone == "" && orderSuccess == None && !open
      ensures old(orderSuccess).None? ==>
        && redirect == None && store.cart == old(store.cart) && store.stored == old(store.stored)
        && name == old(name) && phone == old(phone) && orderSuccess == None && open == old(open)
      ensures isLoading == old(isLoading)
    {
      redirect := None;
      if orderSuccess.Some? {
        redirect := Some(orderSuccess.value.orderText);
        store.ClearCart();
        name := "";
        phone := "";
        orderSuccess := None;
        open := false;
      }
    }

    /** `onOpenChange`, also what "Cancel" calls with `false`. */
    method OnOpenChange(value: bool)
      modifies this
      ensures open == value
      ensures name == old(name) && phone == old(phone) && orderSuccess == old(orderSuccess) && isLoading == old(isLoading)
    {
      open := value;
    }
  }

  /** A whole successful checkout, from the confirm press to the redirect:
      exactly one order, holding the cart, is stored, and the cart ends empty. */
  method CheckoutFlow(dialog: CheckoutDialog, db: OrderDb, randomText: string, now: int, fixed2: real -> string)
    returns (placed: Option<Order>)
    requires dialog.store.Valid() && db.Valid() && !dialog.isLoading
    requires |dialog.store.cart| > 0 && dialog.name != "" && dialog.phone != ""
    modifies dialog, dialog.store, db
    ensures dialog.store.Valid() && db.Valid()
    ensures dialog.store.cart == [] && !dialog.SuccessDialogOpen() && !dialog.InputDialogOpen()
    ensures placed.Some? && placed.value.items == old(dialog.store.cart) && placed.value.status == Pending
    ensures placed.value.name == old(dialog.name) && placed.value.phone == old(dialog.phone)
    ensures db.orders == old(db.orders)[placed.value.orderId := placed.value]
  {
    var cart := dialog.store.cart;
    var outcome := dialog.HandleCheckout(db, randomText, now, None, fixed2);
    var id := OrderIdFor(randomText);
    placed := Some(NewOrder(OrderInput(dialog.name, dialog.phone, cart, Pending), id, now));
    var _ := dialog.CloseSuccessDialogAndRedirect();
  }
}
