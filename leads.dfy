/** src/app/admin/leads/page.tsx: customers grouped by phone number. The
    `forEach` over the orders fills a `Map` keyed by phone, which keeps its
    keys in insertion order; the leads are its values sorted by amount
    spent, largest first. */
module Leads {
  import opened Common
  import opened Types
  import opened AdminOrders
  import opened AdminDashboard

  /** `Lead` */
  datatype Lead = Lead(name: string, phone: string, orderIds: seq<string>, totalSpent: real)

  /** The `Map` as the loop leaves it: its keys in insertion order and the
      lead under each key. */
  datatype Grouping = Grouping(keys: seq<string>, byPhone: map<string, Lead>)

  /** Every key has a lead. */
  ghost predicate KeysMatch(g: Grouping) {
    g.byPhone.Keys == set p | p in g.keys
  }

  /** The keys are distinct and each lead sits under its own phone. */
  ghost predicate WellFormed(g: Grouping) {
    && KeysMatch(g)
    && (forall i, j | 0 <= i < j < |g.keys| :: g.keys[i] != g.keys[j])
    && (forall p | p in g.byPhone :: g.byPhone[p].phone == p)
  }

  /** One iteration of the `forEach`: an order with a known phone adds its id
      and total to that lead; another one starts a lead with its name. */
  function Step(g: Grouping, order: Order): (r: Grouping)
    ensures order.phone in r.byPhone
  {
    var total := OrderTotal(order.items);
    if order.phone in g.byPhone then
      var lead := g.byPhone[order.phone];
      Grouping(g.keys, g.byPhone[order.phone := lead.(orderIds := lead.orderIds + [order.orderId],
                                                     totalSpent := lead.totalSpent + total)])
    else
      Grouping(g.keys + [order.phone], g.byPhone[order.phone := Lead(order.name, order.phone, [order.orderId], total)])
  }

  /** The `Map` after the orders, in order. */
  function Group(orders: seq<Order>): (g: Grouping)
    ensures |orders| > 0 ==> orders[|orders| - 1].phone in g.byPhone
    decreases |orders|
  {
    if |orders| == 0 then Grouping([], map[])
    else Step(Group(orders[..|orders| - 1]), orders[|orders| - 1])
  }

  /** No phone is a key twice, and each lead carries its key as its phone. */
  lemma {:induction false} GroupWellFormed(orders: seq<Order>)
    ensures WellFormed(Group(orders))
    decreases |orders|
  {
    if |orders| > 0 {
      var prev := Group(orders[..|orders| - 1]);
      var o := orders[|orders| - 1];
      GroupWellFormed(orders[..|orders| - 1]);
      assert o.phone !in prev.byPhone ==> forall i | 0 <= i < |prev.keys| :: prev.keys[i] != o.phone;
    }
  }

  /** `Array.from(leadsMap.values())` */
  function Values(g: Grouping): (vs: seq<Lead>)
    requires KeysMatch(g)
    ensures |vs| == |g.keys|
  {
    seq(|g.keys|, i requires 0 <= i < |g.keys| => g.byPhone[g.keys[i]])
  }

  /** The leads in the `Map`'s key order. */
  function GroupedLeads(orders: seq<Order>): (vs: seq<Lead>)
    ensures |vs| == |Group(orders).keys|
  {
    GroupWellFormed(orders);
    Values(Group(orders))
  }

  /** `leads`: the grouped leads sorted by amount spent. */
  function SortedLeads(orders: seq<Order>): (leads: seq<Lead>)
    ensures SortedBySpent(leads)
  {
    SortBySpentSorted(GroupedLeads(orders));
    SortBySpent(GroupedLeads(orders))
  }

  /** The phones the orders were placed with. */
  ghost function Phones(orders: seq<Order>): set<string> {
    set i | 0 <= i < |orders| :: orders[i].phone
  }

  lemma PhonesSnoc(orders: seq<Order>)
    requires |orders| > 0
    ensures Phones(orders) == Phones(orders[..|orders| - 1]) + {orders[|orders| - 1].phone}
  {
    var init := orders[..|orders| - 1];
    forall p | p in Phones(init) ensures p in Phones(orders) {
      var i :| 0 <= i < |init| && init[i].phone == p;
      assert orders[i].phone == p;
    }
    forall p | p in Phones(orders) ensures p in Phones(init) + {orders[|orders| - 1].phone} {
      var i :| 0 <= i < |orders| && orders[i].phone == p;
      if i < |init| { assert init[i].phone == p; }
    }
  }

  // ---- What each lead holds, stated over the orders ---------------------

  /** The ids of the orders placed with `phone`, in order. */
  function IdsOf(orders: seq<Order>, phone: string): seq<string>
    decreases |orders|
  {
    if |orders| == 0 then []
    else
      var o := orders[|orders| - 1];
      IdsOf(orders[..|orders| - 1], phone) + (if o.phone == phone then [o.orderId] else [])
  }

  /** The sum of the totals of the orders placed with `phone`. */
  function SpentOf(orders: seq<Order>, phone: string): real
    decreases |orders|
  {
    if |orders| == 0 then 0.0
    else
      var o := orders[|orders| - 1];
      SpentOf(orders[..|orders| - 1], phone) + (if o.phone == phone then OrderTotal(o.items) else 0.0)
  }

  /** `i` is the position of the first order placed with `phone`. */
  ghost predicate FirstWith(orders: seq<Order>, phone: string, i: int) {
    0 <= i < |orders| && orders[i].phone == phone && forall j | 0 <= j < i :: orders[j].phone != phone
  }

  /** Exactly one lead per phone that placed an order, under its phone. */
  lemma {:induction false} GroupKeys(orders: seq<Order>)
    ensures Group(orders).byPhone.Keys == Phones(orders)
    decreases |orders|
  {
    if |orders| > 0 {
      GroupKeys(orders[..|orders| - 1]);
      PhonesSnoc(orders);
    }
  }

  /** Each lead holds the ids of its phone's orders, in order, and the sum of
      their totals. */
  lemma {:induction false} GroupTotals(orders: seq<Order>)
    ensures var g := Group(orders);
      forall p | p in g.byPhone :: g.byPhone[p].orderIds == IdsOf(orders, p) && g.byPhone[p].totalSpent == SpentOf(orders, p)
    decreases |orders|
  {
    if |orders| > 0 {
      var init := orders[..|orders| - 1];
      var o := orders[|orders| - 1];
      GroupTotals(init);
      GroupKeys(init);
      var prev := Group(init);
      var g := Group(orders);
      assert g == Step(prev, o);
      forall p | p in g.byPhone
        ensures g.byPhone[p].orderIds == IdsOf(orders, p) && g.byPhone[p].totalSpent == SpentOf(orders, p)
      {
        assert IdsOf(orders, p) == IdsOf(init, p) + (if o.phone == p then [o.orderId] else []);
        assert SpentOf(orders, p) == SpentOf(init, p) + (if o.phone == p then OrderTotal(o.items) else 0.0);
        if p != o.phone {
          assert g.byPhone[p] == prev.byPhone[p];
        } else if p !in prev.byPhone {
          NoOrdersWith(init, p);
        }
      }
    }
  }

  lemma {:induction false} NoOrdersWith(orders: seq<Order>, p: string)
    requires p !in Phones(orders)
    ensures IdsOf(orders, p) == [] && SpentOf(orders, p) == 0.0
    decreases |orders|
  {
    if |orders| > 0 {
      PhonesSnoc(orders);
      NoOrdersWith(orders[..|orders| - 1], p);
    }
  }

  /** Each lead carries the name given with its phone's first order. */
  lemma {:induction false} GroupFirstName(orders: seq<Order>)
    ensures var g := Group(orders);
      forall p | p in g.byPhone :: exists i :: FirstWith(orders, p, i) && g.byPhone[p].name == orders[i].name
    decreases |orders|
  {
    if |orders| > 0 {
      var init := orders[..|orders| - 1];
      var o := orders[|orders| - 1];
      GroupFirstName(init);
      GroupKeys(init);
      var prev := Group(init);
      var g := Group(orders);
      forall p | p in g.byPhone
        ensures exists i :: FirstWith(orders, p, i) && g.byPhone[p].name == orders[i].name
      {
        if p in prev.byPhone {
          var i :| FirstWith(init, p, i) && prev.byPhone[p].name == init[i].name;
          assert forall j | 0 <= j <= i :: orders[j] == init[j];
          assert FirstWith(orders, p, i);
        } else {
          assert p == o.phone;
          forall j | 0 <= j < |orders| - 1 ensures orders[j].phone != p {
            assert init[j] == orders[j];
            assert init[j].phone in Phones(init);
          }
          assert FirstWith(orders, p, |orders| - 1);
        }
      }
    }
  }

  // ---- Sums over the leads ---------------------------------------------------

  function IdCount(leads: seq<Lead>): nat
    decreases |leads|
  {
    if |leads| == 0 then 0 else |leads[0].orderIds| + IdCount(leads[1..])
  }

  function SpentSum(leads: seq<Lead>): real
    decreases |leads|
  {
    if |leads| == 0 then 0.0 else leads[0].totalSpent + SpentSum(leads[1..])
  }

  lemma {:induction false} LeadSumsAppend(a: seq<Lead>, b: seq<Lead>)
    ensures IdCount(a + b) == IdCount(a) + IdCount(b)
    ensures SpentSum(a + b) == SpentSum(a) + SpentSum(b)
    decreases |a|
  {
    if |a| == 0 {
      assert a + b == b;
    } else {
      assert (a + b)[1..] == a[1..] + b;
      LeadSumsAppend(a[1..], b);
    }
  }

  lemma LeadSumsUpdate(s: seq<Lead>, k: int, x: Lead)
    requires 0 <= k < |s|
    ensures IdCount(s[k := x]) == IdCount(s) - |s[k].orderIds| + |x.orderIds|
    ensures SpentSum(s[k := x]) == SpentSum(s) - s[k].totalSpent + x.totalSpent
  {
    assert s == s[..k] + [s[k]] + s[k + 1..];
    assert s[k := x] == s[..k] + [x] + s[k + 1..];
    LeadSumsAppend(s[..k] + [s[k]], s[k + 1..]);
    LeadSumsAppend(s[..k], [s[k]]);
    LeadSumsAppend(s[..k] + [x], s[k + 1..]);
    LeadSumsAppend(s[..k], [x]);
  }

  /** How the values change in one step. */
  lemma StepValues(g: Grouping, o: Order)
    requires WellFormed(g)
    ensures o.phone !in g.byPhone ==>
      Values(Step(g, o)) == Values(g) + [Lead(o.name, o.phone, [o.orderId], OrderTotal(o.items))]
    ensures o.phone in g.byPhone ==> exists k | 0 <= k < |g.keys| && g.keys[k] == o.phone ::
      Values(Step(g, o)) == Values(g)[k := Step(g, o).byPhone[o.phone]]
  {
    if o.phone in g.byPhone {
      var k :| 0 <= k < |g.keys| && g.keys[k] == o.phone;
      assert Values(Step(g, o)) == Values(g)[k := Step(g, o).byPhone[o.phone]];
    }
  }

  /** Every order is counted once: the leads hold as many order ids as there
      are orders, and their amounts add up to the total revenue. */
  lemma {:induction false} LeadSums(orders: seq<Order>)
    ensures IdCount(GroupedLeads(orders)) == |orders|
    ensures SpentSum(GroupedLeads(orders)) == Revenue(orders)
    decreases |orders|
  {
    if |orders| > 0 {
      var init := orders[..|orders| - 1];
      var o := orders[|orders| - 1];
      LeadSums(init);
      GroupWellFormed(init);
      GroupWellFormed(orders);
      var prev := Group(init);
      StepValues(prev, o);
      if o.phone in prev.byPhone {
        var k :| 0 <= k < |prev.keys| && prev.keys[k] == o.phone
                 && Values(Group(orders)) == Values(prev)[k := Group(orders).byPhone[o.phone]];
        LeadSumsUpdate(Values(prev), k, Group(orders).byPhone[o.phone]);
      } else {
        var started := Lead(o.name, o.phone, [o.orderId], OrderTotal(o.items));
        LeadSumsAppend(Values(prev), [started]);
        assert SpentSum([started]) == started.totalSpent + SpentSum([]);
      }
    }
  }

  // ---- Sorting ------------------------------------------------------------------

  /** Non-increasing amount spent. */
  predicate SortedBySpent(leads: seq<Lead>) {
    forall i, j | 0 <= i < j < |leads| :: leads[i].totalSpent >= leads[j].totalSpent
  }

  /** Places `x` after every lead that spent at least as much, as the stable
      sort with comparator `b.totalSpent - a.totalSpent` does. */
  function Insert(x: Lead, sorted: seq<Lead>): (r: seq<Lead>)
    ensures |r| == |sorted| + 1
    ensures multiset(r) == multiset(sorted) + multiset{x}
    decreases |sorted|
  {
    if |sorted| == 0 then [x]
    else if sorted[0].totalSpent >= x.totalSpent then
      assert sorted == [sorted[0]] + sorted[1..];
      [sorted[0]] + Insert(x, sorted[1..])
    else [x] + sorted
  }

  lemma {:induction false} InsertSorted(x: Lead, sorted: seq<Lead>)
    requires SortedBySpent(sorted)
    ensures SortedBySpent(Insert(x, sorted))
    decreases |sorted|
  {
    if |sorted| > 0 && sorted[0].totalSpent >= x.totalSpent {
      InsertSorted(x, sorted[1..]);
      var r := Insert(x, sorted);
      var rest := Insert(x, sorted[1..]);
      assert r == [sorted[0]] + rest;
      forall j | 0 < j < |r| ensures r[0].totalSpent >= r[j].totalSpent {
        assert r[j] in multiset(rest);
        assert r[j] in multiset(sorted[1..]) + multiset{x};
        if r[j] != x {
          assert r[j] in sorted[1..];
          var m :| 0 <= m < |sorted[1..]| && sorted[1..][m] == r[j];
          assert sorted[m + 1] == r[j];
        }
      }
    }
  }

  /** `sort((a, b) => b.totalSpent - a.totalSpent)` */
  function SortBySpent(leads: seq<Lead>): (r: seq<Lead>)
    ensures multiset(r) == multiset(leads)
    decreases |leads|
  {
    if |leads| == 0 then []
    else
      assert leads == leads[..|leads| - 1] + [leads[|leads| - 1]];
      Insert(leads[|leads| - 1], SortBySpent(leads[..|leads| - 1]))
  }

  /** The sort returns the same leads, largest amount first. */
  lemma {:induction false} SortBySpentSorted(leads: seq<Lead>)
    ensures SortedBySpent(SortBySpent(leads))
    decreases |leads|
  {
    if |leads| > 0 {
      SortBySpentSorted(leads[..|leads| - 1]);
      InsertSorted(leads[|leads| - 1], SortBySpent(leads[..|leads| - 1]));
    }
  }

  /** Sorting keeps the sums. */
  lemma {:induction false} SortKeepsSums(leads: seq<Lead>)
    ensures IdCount(SortBySpent(leads)) == IdCount(leads)
    ensures SpentSum(SortBySpent(leads)) == SpentSum(leads)
    decreases |leads|
  {
    if |leads| > 0 {
      var init := leads[..|leads| - 1];
      var x := leads[|leads| - 1];
      assert SortBySpent(leads) == Insert(x, SortBySpent(init));
      SortKeepsSums(init);
      InsertSums(x, SortBySpent(init));
      LeadSumsSnoc(leads);
    }
  }

  lemma LeadSumsSnoc(leads: seq<Lead>)
    requires |leads| > 0
    ensures IdCount(leads) == IdCount(leads[..|leads| - 1]) + |leads[|leads| - 1].orderIds|
    ensures SpentSum(leads) == SpentSum(leads[..|leads| - 1]) + leads[|leads| - 1].totalSpent
  {
    var x := leads[|leads| - 1];
    assert leads == leads[..|leads| - 1] + [x];
    LeadSumsAppend(leads[..|leads| - 1], [x]);
    assert SpentSum([x]) == x.totalSpent + SpentSum([]);
  }

  lemma {:induction false} InsertSums(x: Lead, sorted: seq<Lead>)
    ensures IdCount(Insert(x, sorted)) == IdCount(sorted) + |x.orderIds|
    ensures SpentSum(Insert(x, sorted)) == SpentSum(sorted) + x.totalSpent
    decreases |sorted|
  {
    if |sorted| == 0 {
      assert SpentSum([x]) == x.totalSpent + SpentSum([]);
    } else if sorted[0].totalSpent >= x.totalSpent {
      InsertSums(x, sorted[1..]);
      assert ([sorted[0]] + Insert(x, sorted[1..]))[1..] == Insert(x, sorted[1..]);
    } else {
      assert ([x] + sorted)[1..] == sorted;
    }
  }

  /** The grouping of one more order, spelled out per branch of `Step`. */
  lemma GroupPrefix(orders: seq<Order>, i: int)
    requires 0 <= i < |orders|
    ensures var g := Group(orders[..i]); var o := orders[i]; var total := OrderTotal(o.items);
      && (o.phone in g.byPhone ==>
            var lead := g.byPhone[o.phone];
            Group(orders[..i + 1]) == Grouping(g.keys, g.byPhone[o.phone := lead.(orderIds := lead.orderIds + [o.orderId],
                                                                                     totalSpent := lead.totalSpent + total)]))
      && (o.phone !in g.byPhone ==>
            Group(orders[..i + 1]) == Grouping(g.keys + [o.phone], g.byPhone[o.phone := Lead(o.name, o.phone, [o.orderId], total)]))
  {
    assert orders[..i + 1][..i] == orders[..i];
  }

  // ---- The computation ------------------------------------------------------------

  /** The `forEach` over the orders, filling the `Map`. */
  method GroupOrders(orders: seq<Order>) returns (keys: seq<string>, byPhone: map<string, Lead>)
    ensures Grouping(keys, byPhone) == Group(orders)
  {
    keys := [];
    byPhone := map[];
    var i := 0;
    while i < |orders|
      invariant 0 <= i <= |orders|
      invariant Grouping(keys, byPhone) == Group(orders[..i])
    {
      var order := orders[i];
      var total := OrderTotal(order.items);
      GroupPrefix(orders, i);
      if order.phone in byPhone {
        var existing := byPhone[order.phone];
        byPhone := byPhone[order.phone := existing.(orderIds := existing.orderIds + [order.orderId],
                                                    totalSpent := existing.totalSpent + total)];
      } else {
        keys := keys + [order.phone];
        byPhone := byPhone[order.phone := Lead(order.name, order.phone, [order.orderId], total)];
      }
      i := i + 1;
    }
    assert orders[..|orders|] == orders;
  }

  /** `leads`: no leads while the orders are unavailable; otherwise the
      grouping loop over the orders, then the sort. */
  method ComputeLeads(orders: Option<seq<Order>>) returns (leads: seq<Lead>)
    ensures orders.None? ==> leads == []
    ensures orders.Some? ==> leads == SortedLeads(orders.value)
  {
    if orders.None? {
      return [];
    }
    var keys, byPhone := GroupOrders(orders.value);
    GroupWellFormed(orders.value);
    leads := SortBySpent(Values(Grouping(keys, byPhone)));
  }

  /** What the `leads` computation yields, all together (the page computes it
      but does not display it; see `ShownBody`): the leads are sorted by
      amount, one per phone with orders, and together they hold every order
      once and the whole revenue. */
  lemma LeadsSpec(orders: seq<Order>)
    ensures var leads := SortedLeads(orders);
      && SortedBySpent(leads)
      && (forall i, j | 0 <= i < j < |leads| :: leads[i].phone != leads[j].phone)
      && (set l | l in leads :: l.phone) == Phones(orders)
      && (forall l | l in leads :: l.orderIds == IdsOf(orders, l.phone) && l.totalSpent == SpentOf(orders, l.phone))
      && (forall l | l in leads :: exists i :: FirstWith(orders, l.phone, i) && l.name == orders[i].name)
      && IdCount(leads) == |orders|
      && SpentSum(leads) == Revenue(orders)
  {
    GroupWellFormed(orders);
    var g := Group(orders);
    var vs := Values(g);
    var leads := SortBySpent(vs);
    SortBySpentSorted(vs);
    GroupKeys(orders);
    GroupTotals(orders);
    GroupFirstName(orders);
    LeadSums(orders);
    SortKeepsSums(vs);
    GroupWellFormed(orders);
    ReorderedValues(g, leads);
  }

  /** Any reordering of the values holds each lead of the map once. */
  lemma ReorderedValues(g: Grouping, leads: seq<Lead>)
    requires WellFormed(g) && multiset(leads) == multiset(Values(g))
    ensures forall i, j | 0 <= i < j < |leads| :: leads[i].phone != leads[j].phone
    ensures (set l | l in leads :: l.phone) == g.byPhone.Keys
    ensures forall l | l in leads :: l.phone in g.byPhone && l == g.byPhone[l.phone]
  {
    var vs := Values(g);
    forall l | l in leads ensures l.phone in g.byPhone && l == g.byPhone[l.phone] {
      assert l in multiset(vs);
      var k :| 0 <= k < |vs| && vs[k] == l;
    }
    forall i, j | 0 <= i < j < |leads| ensures leads[i].phone != leads[j].phone {
      DistinctPhones(vs, leads, i, j, g);
    }
    forall p | p in g.byPhone ensures p in (set l | l in leads :: l.phone) {
      var k :| 0 <= k < |g.keys| && g.keys[k] == p;
      assert vs[k] in multiset(leads);
      assert vs[k] in leads;
    }
  }

  lemma DistinctPhones(vs: seq<Lead>, leads: seq<Lead>, i: int, j: int, g: Grouping)
    requires WellFormed(g) && vs == Values(g) && multiset(leads) == multiset(vs)
    requires 0 <= i < j < |leads|
    ensures leads[i].phone != leads[j].phone
  {
    assert leads[i] in multiset(vs) && leads[j] in multiset(vs);
    var a :| 0 <= a < |vs| && vs[a] == leads[i];
    var b :| 0 <= b < |vs| && vs[b] == leads[j];
    if a == b {
      // two equal leads at two positions of `leads` need two copies in `vs`
      assert leads == leads[..j] + [leads[j]] + leads[j + 1..];
      assert leads[i] in leads[..j];
      assert multiset(leads)[leads[i]] >= 2 by {
        assert multiset(leads) == multiset(leads[..j]) + multiset{leads[j]} + multiset(leads[j + 1..]);
      }
      SingleCopy(vs, a, g);
      assert false;
    }
  }

  /** No lead occurs twice among the values: their phones are the distinct keys. */
  lemma SingleCopy(vs: seq<Lead>, a: int, g: Grouping)
    requires WellFormed(g) && vs == Values(g) && 0 <= a < |vs|
    ensures multiset(vs)[vs[a]] == 1
  {
    assert vs == vs[..a] + [vs[a]] + vs[a + 1..];
    assert multiset(vs) == multiset(vs[..a]) + multiset{vs[a]} + multiset(vs[a + 1..]);
    assert vs[a] !in vs[..a] && vs[a] !in vs[a + 1..] by {
      forall m | 0 <= m < |vs| && m != a ensures vs[m] != vs[a] {
        assert vs[m].phone == g.keys[m] && vs[a].phone == g.keys[a];
      }
    }
  }

  /** The table body the page renders: skeletons while the orders or the user
      load, a permission message when the orders query fails, and otherwise
      the notice that leads are disabled. No lead row is ever rendered. */
  datatype LeadsBody = LeadSkeletons | NoPermission | LeadsDisabled

  function ShownBody(ordersLoading: bool, userLoading: bool, hasError: bool): (b: LeadsBody)
    ensures b == LeadSkeletons <==> ordersLoading || userLoading
    ensures b == NoPermission <==> !ordersLoading && !userLoading && hasError
    ensures b == LeadsDisabled <==> !ordersLoading && !userLoading && !hasError
  {
    if ordersLoading || userLoading then LeadSkeletons
    else if hasError then NoPermission
    else LeadsDisabled
  }
}
