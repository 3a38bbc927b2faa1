/** src/app/admin/orders/page.tsx: the admin order table, its totals and
    the status select that overwrites an order's status. */
module AdminOrders {
  import opened Common
  import opened Types
  import opened CartContext
  import opened Actions
  import TrackOrder

  /** `getTotalOrderValue`: the left-to-right `reduce` of price times
      quantity over the order's items. It is the cart total of the items:
      what the customer saw at checkout is what the admin sees. */
  function OrderTotal(items: seq<CartItem>): (r: real)
    ensures r == CartTotal(items)
    decreases |items|
  {
    if |items| == 0 then 0.0
    else
      var init, last := items[..|items| - 1], items[|items| - 1];
      SumsAppend(init, [last]);
      assert init + [last] == items;
      assert CartTotal([last]) == LineTotal(last) + CartTotal([]);
      OrderTotal(init) + LineTotal(last)
  }

  /** `STATUS_CLASSES` */
  function StatusClass(s: Status): (c: string)
    ensures c != ""
  {
    match s
    case Pending => "bg-yellow-100 text-yellow-800 border-yellow-200"
    case Confirmed => "bg-blue-100 text-blue-800 border-blue-200"
    case Packed => "bg-indigo-100 text-indigo-800 border-indigo-200"
    case Shipped => "bg-purple-100 text-purple-800 border-purple-200"
    case Delivered => "bg-green-100 text-green-800 border-green-200"
  }

  /** `Object.keys(STATUS_CLASSES)`: the keys in the order they are written. */
  const STATUS_OPTIONS: seq<Status> := [Pending, Confirmed, Packed, Shipped, Delivered]

  /** The select offers exactly the progress steps of the tracking page, in
      the same order, and every status has a colour class. */
  lemma StatusOptionsAreSteps(s: Status)
    ensures STATUS_OPTIONS == TrackOrder.STATUSES
    ensures s in STATUS_OPTIONS && StatusClass(s) != ""
  {
    TrackOrder.StatusesOrdered(s);
  }

  /** The error emitted when the write is refused: the document path, the
      operation and the data sent. */
  datatype PermissionError = PermissionError(path: string, operation: string, requestStatus: Status)

  /** `handleStatusChange`. Without a database or a signed-in user nothing
      happens. Otherwise the order's status is overwritten with the new one,
      whatever it was; a write that fails (refused, or no such order) changes
      nothing and emits the permission error. */
  method HandleStatusChange(db: OrderDb, hasDb: bool, hasUser: bool, orderId: string, newStatus: Status, writeOk: bool)
    returns (emitted: Option<PermissionError>)
    requires db.Valid()
    modifies db
    ensures db.Valid()
    ensures !hasDb || !hasUser ==> emitted == None && db.orders == old(db.orders)
    ensures hasDb && hasUser && writeOk && orderId in old(db.orders) ==>
      emitted == None && db.orders == old(db.orders)[orderId := old(db.orders)[orderId].(status := newStatus)]
    ensures hasDb && hasUser && !(writeOk && orderId in old(db.orders)) ==>
      emitted == Some(PermissionError("orders_leads/" + orderId, "update", newStatus)) && db.orders == old(db.orders)
  {
    if !hasDb || !hasUser {
      return None;
    }
    if writeOk && orderId in db.orders {
      db.orders := db.orders[orderId := db.orders[orderId].(status := newStatus)];
      emitted := None;
    } else {
      emitted := Some(PermissionError("orders_leads/" + orderId, "update", newStatus));
    }
  }

  /** A status write changes only that order's status: its id, customer,
      items and total are untouched, and the order is still found by the
      tracking query. No transition is refused, a step back included. */
  lemma StatusWriteKeepsOrder(orders: map<string, Order>, orderId: string, newStatus: Status)
    requires KeyedById(orders) && orderId in orders
    ensures var after := orders[orderId := orders[orderId].(status := newStatus)];
      && KeyedById(after)
      && after[orderId].status == newStatus
      && InputOf(after[orderId]).(status := newStatus) == InputOf(orders[orderId]).(status := newStatus)
      && OrderTotal(after[orderId].items) == OrderTotal(orders[orderId].items)
      && Matching(after, orderId, orders[orderId].phone) == {after[orderId]}
  {
    var after := orders[orderId := orders[orderId].(status := newStatus)];
    assert KeyedById(after);
    MatchingKeyed(after, orderId, orders[orderId].phone);
  }
}
