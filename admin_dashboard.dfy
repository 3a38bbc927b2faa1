/** src/app/admin/page.tsx: the dashboard's revenue, recent orders and
    count cards. The sales chart holds random numbers and is not modelled. */
module AdminDashboard {
  import opened Common
  import opened Types
  import opened CartContext
  import opened AdminOrders

  /** No order has a negative total. */
  predicate NoNegativeTotals(orders: seq<Order>) {
    forall o | o in orders :: OrderTotal(o.items) >= 0.0
  }

  /** The outer `reduce` of `totalRevenue`, left to right over the orders;
      with no negative order total it is not negative. */
  function Revenue(orders: seq<Order>): (r: real)
    ensures NoNegativeTotals(orders) ==> r >= 0.0
    decreases |orders|
  {
    if |orders| == 0 then 0.0
    else
      var init := orders[..|orders| - 1];
      assert forall o | o in init :: o in orders;
      assert orders[|orders| - 1] in orders;
      Revenue(init) + OrderTotal(orders[|orders| - 1].items)
  }

  /** `totalRevenue`: 0 while the orders are unavailable. */
  function TotalRevenue(orders: Option<seq<Order>>): (r: real)
    ensures orders.None? ==> r == 0.0
  {
    if orders.Some? then Revenue(orders.value) else 0.0
  }

  /** Revenue adds up over any split of the orders, and is the sum of the
      cart totals of all orders. */
  lemma {:induction false} RevenueAppend(a: seq<Order>, b: seq<Order>)
    ensures Revenue(a + b) == Revenue(a) + Revenue(b)
    decreases |b|
  {
    if |b| == 0 {
      assert a + b == a;
    } else {
      var b' := b[..|b| - 1];
      RevenueAppend(a, b');
      assert (a + b)[..|a + b| - 1] == a + b';
      assert (a + b)[|a + b| - 1] == b[|b| - 1];
    }
  }

  /** The sum of the orders' cart totals, head first. */
  function CartTotals(orders: seq<Order>): real
    decreases |orders|
  {
    if |orders| == 0 then 0.0 else CartTotal(orders[0].items) + CartTotals(orders[1..])
  }

  lemma {:induction false} RevenueIsCartTotals(orders: seq<Order>)
    ensures Revenue(orders) == CartTotals(orders)
    decreases |orders|
  {
    if |orders| > 0 {
      RevenueIsCartTotals(orders[1..]);
      RevenueAppend([orders[0]], orders[1..]);
      assert [orders[0]] + orders[1..] == orders;
      assert Revenue([orders[0]]) == Revenue([]) + OrderTotal(orders[0].items);
    }
  }

  /** `recentOrders`: `orders.slice(0, 5)`, or none while unavailable. */
  function RecentOrders(orders: Option<seq<Order>>): (r: seq<Order>)
    ensures orders.None? ==> r == []
    ensures orders.Some? ==> |r| == (if |orders.value| < 5 then |orders.value| else 5)
    ensures orders.Some? ==> r == orders.value[..|r|]
  {
    if orders.None? then []
    else if |orders.value| < 5 then orders.value
    else orders.value[..5]
  }

  /** The amount shown beside each recent order: that order's own total. */
  function RecentAmounts(orders: Option<seq<Order>>): (r: seq<real>)
    ensures |r| == |RecentOrders(orders)|
    ensures forall i | 0 <= i < |r| :: r[i] == OrderTotal(RecentOrders(orders)[i].items)
  {
    var recent := RecentOrders(orders);
    seq(|recent|, i requires 0 <= i < |recent| => OrderTotal(recent[i].items))
  }

  /** Each recent amount is the cart total of the order it stands beside. */
  lemma RecentAmountsAreCartTotals(orders: Option<seq<Order>>)
    ensures forall i | 0 <= i < |RecentAmounts(orders)| ::
      RecentAmounts(orders)[i] == CartTotal(RecentOrders(orders)[i].items)
  {
    forall i | 0 <= i < |RecentAmounts(orders)|
      ensures RecentAmounts(orders)[i] == CartTotal(RecentOrders(orders)[i].items)
    {
      assert RecentAmounts(orders)[i] == OrderTotal(RecentOrders(orders)[i].items);
    }
  }

  /** The cards "leads" and "orders" both show the number of orders, the
      products card the number of products; 0 while unavailable. */
  datatype Counts = Counts(leads: nat, orders: nat, products: nat)

  function CountCards(orders: Option<seq<Order>>, products: Option<seq<Product>>): (c: Counts)
    ensures c.leads == c.orders
    ensures c.orders == (if orders.Some? then |orders.value| else 0)
    ensures c.products == (if products.Some? then |products.value| else 0)
  {
    var n := if orders.Some? then |orders.value| else 0;
    Counts(n, n, if products.Some? then |products.value| else 0)
  }

  /** The recent orders' totals never add up to more than the revenue when no
      total is negative. */
  lemma RecentWithinRevenue(orders: seq<Order>)
    requires NoNegativeTotals(orders)
    ensures Revenue(RecentOrders(Some(orders))) <= TotalRevenue(Some(orders))
  {
    var r := RecentOrders(Some(orders));
    var rest := orders[|r|..];
    assert r + rest == orders;
    RevenueAppend(r, rest);
    assert forall o | o in rest :: o in orders;
    assert Revenue(rest) >= 0.0;
  }
}
