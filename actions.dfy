/** src/app/actions.ts: the two server actions. Orders live in the
    `orders_leads` collection, modelled as the map `OrderDb.orders` from
    document id to record. `Math.random().toString(36)` and the server
    timestamp are parameters; a failing database call is a `Fault` parameter. */
module Actions {
  import opened Common
  import opened Text
  import opened Types

  /** `OrderInput`: what the checkout sends. */
  datatype OrderInput = OrderInput(name: string, phone: string, items: seq<CartItem>, status: Status)

  /** The text `Math.random().toString(36)` produces for a number in [0, 1):
      `"0"`, or `"0."` followed by lower-case base-36 digits. */
  predicate IsRandomBase36(t: string) {
    t == "0" || (|t| >= 3 && t[..2] == "0." && forall i | 2 <= i < |t| :: IsLowerAlnum(t[i]))
  }

  /** The order id: `MM90-` and the upper-cased `substring(2, 8)` of the
      random text. */
  function OrderIdFor(randomText: string): (id: string)
    ensures |id| >= 5 && id[..5] == "MM90-"
  {
    "MM90-" + Upper(Substring(randomText, 2, 8))
  }

  /** The suffix has at most six characters, all in [0-9A-Z], and it is the
      random digits it came from (with six of them exactly when the random
      text has at least eight characters). */
  lemma OrderIdShape(randomText: string)
    requires IsRandomBase36(randomText)
    ensures var suffix := OrderIdFor(randomText)[5..];
      && |suffix| <= 6
      && (forall i | 0 <= i < |suffix| :: IsUpperAlnum(suffix[i]))
      && Lower(suffix) == Substring(randomText, 2, 8)
      && (|suffix| == 6 <==> |randomText| >= 8)
  {
    var digits := Substring(randomText, 2, 8);
    var suffix := OrderIdFor(randomText)[5..];
    assert suffix == Upper(digits);
    forall i | 0 <= i < |digits| ensures IsLowerAlnum(digits[i]) {
      assert digits[i] == randomText[i + 2];
    }
  }

  /** The record written: the input's fields, the id and the timestamp. */
  function NewOrder(input: OrderInput, orderId: string, createdAt: int): (o: Order)
    ensures InputOf(o) == input && o.orderId == orderId && o.createdAt == createdAt
  {
    Order(orderId, input.name, input.phone, input.items, input.status, createdAt)
  }

  /** The input fields of a stored order. */
  function InputOf(o: Order): OrderInput {
    OrderInput(o.name, o.phone, o.items, o.status)
  }

  /** `{ success, orderId?, error? }` of `createOrder`. */
  datatype CreateResult = CreateResult(success: bool, orderId: Option<string>, error: Option<string>)

  /** `{ success, order?, error? }` of `trackOrder`. */
  datatype TrackResult = TrackResult(success: bool, order: Option<Order>, error: Option<string>)

  const NotFoundMessage := "Order not found. Please check your Order ID and Phone Number."

  /** The orders whose `orderId` and `phone` fields both equal the query's:
      what the two `where(... "==" ...)` clauses select. */
  function Matching(orders: map<string, Order>, orderId: string, phone: string): (m: set<Order>)
    ensures forall o | o in m :: o in orders.Values && o.orderId == orderId && o.phone == phone
    ensures forall id | id in orders && orders[id].orderId == orderId && orders[id].phone == phone :: orders[id] in m
  {
    set o | o in orders.Values && o.orderId == orderId && o.phone == phone
  }

  /** Every document is stored under its own order id. */
  ghost predicate KeyedById(orders: map<string, Order>) {
    forall id | id in orders :: orders[id].orderId == id
  }

  /** With documents keyed by order id, a query matches at most one order:
      the one under that id, and only if its phone is the one given. */
  lemma MatchingKeyed(orders: map<string, Order>, orderId: string, phone: string)
    requires KeyedById(orders)
    ensures orderId in orders && orders[orderId].phone == phone ==> Matching(orders, orderId, phone) == {orders[orderId]}
    ensures !(orderId in orders && orders[orderId].phone == phone) ==> Matching(orders, orderId, phone) == {}
  {
    var m := Matching(orders, orderId, phone);
    forall o | o in m ensures orderId in orders && o == orders[orderId] {
      var id :| id in orders && orders[id] == o;
    }
  }

  /** The `orders_leads` collection. */
  class OrderDb {
    var orders: map<string, Order>

    ghost predicate Valid()
      reads this
    {
      KeyedById(orders)
    }

    constructor ()
      ensures orders == map[] && Valid()
    {
      orders := map[];
    }

    /** `createOrder`. Without a fault the record is written under its id,
        replacing any record already there (there is no collision check),
        and the id is returned; a fault leaves the collection as it was and
        returns its message and no id. */
    method CreateOrder(input: OrderInput, randomText: string, now: int, fault: Option<Fault>) returns (r: CreateResult)
      requires Valid()
      modifies this
      ensures Valid()
      ensures fault.None? ==>
        var id := OrderIdFor(randomText);
        && r == CreateResult(true, Some(id), None)
        && orders == old(orders)[id := NewOrder(input, id, now)]
      ensures fault.Some? ==>
        r == CreateResult(false, None, Some(FaultMessage(fault.value))) && orders == old(orders)
      ensures r.success <==> r.orderId.Some?
    {
      if fault.Some? {
        return CreateResult(false, None, Some(FaultMessage(fault.value)));
      }
      var orderId := OrderIdFor(randomText);
      var newOrder := NewOrder(input, orderId, now);
      orders := orders[orderId := newOrder];
      r := CreateResult(true, Some(newOrder.orderId), None);
    }

    /** `trackOrder`: success with a matching record exactly when some record
        has both the given order id and the given phone (case-sensitive);
        otherwise the not-found message; a fault reports its message. The
        collection is not changed. */
    method TrackOrder(orderId: string, phone: string, fault: Option<Fault>) returns (r: TrackResult)
      requires Valid()
      ensures fault.Some? ==> r == TrackResult(false, None, Some(FaultMessage(fault.value)))
      ensures fault.None? ==>
        && (r.success <==> Matching(orders, orderId, phone) != {})
        && (r.success ==> r.order.Some? && r.order.value in Matching(orders, orderId, phone) && r.error.None?)
        && (!r.success ==> r == TrackResult(false, None, Some(NotFoundMessage)))
    {
      if fault.Some? {
        return TrackResult(false, None, Some(FaultMessage(fault.value)));
      }
      MatchingKeyed(orders, orderId, phone);
      if orderId in orders && orders[orderId].phone == phone {
        r := TrackResult(true, Some(orders[orderId]), None);
      } else {
        r := TrackResult(false, None, Some(NotFoundMessage));
      }
    }
  }

  /** A created order is found again by its id and the phone it was placed
      with, and the record found is the input with that id. */
  lemma CreateThenTrack(orders: map<string, Order>, input: OrderInput, randomText: string, now: int)
    requires KeyedById(orders)
    ensures var id := OrderIdFor(randomText);
      var after := orders[id := NewOrder(input, id, now)];
      && KeyedById(after)
      && Matching(after, id, input.phone) == {NewOrder(input, id, now)}
      && InputOf(NewOrder(input, id, now)) == input
  {
    var id := OrderIdFor(randomText);
    var after := orders[id := NewOrder(input, id, now)];
    assert KeyedById(after);
    MatchingKeyed(after, id, input.phone);
  }

  /** The right id with any other phone finds nothing: the phone acts as the
      password of the lookup. */
  lemma TrackWrongPhone(orders: map<string, Order>, orderId: string, phone: string)
    requires KeyedById(orders) && orderId in orders && orders[orderId].phone != phone
    ensures Matching(orders, orderId, phone) == {}
  {
    MatchingKeyed(orders, orderId, phone);
  }
}
