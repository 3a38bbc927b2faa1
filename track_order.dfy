/** src/app/track-order/page.tsx: the customer's order lookup and the
    five-step progress display. */
module TrackOrder {
  import opened Common
  import opened Types
  import opened Actions

  /** `STATUSES`: the progress steps in order. */
  const STATUSES: seq<Status> := [Pending, Confirmed, Packed, Shipped, Delivered]

  /** `xs.indexOf(x)`: the first position holding `x`, or -1. */
  function IndexOf(xs: seq<Status>, x: Status): (i: int)
    ensures -1 <= i < |xs|
    ensures i >= 0 ==> xs[i] == x && forall j | 0 <= j < i :: xs[j] != x
    ensures i == -1 <==> x !in xs
    decreases |xs|
  {
    if |xs| == 0 then -1
    else if xs[0] == x then 0
    else
      var k := IndexOf(xs[1..], x);
      if k == -1 then -1 else k + 1
  }

  /** The steps are five distinct statuses. */
  lemma StatusesDistinct()
    ensures |STATUSES| == 5
    ensures forall i, j | 0 <= i < j < |STATUSES| :: STATUSES[i] != STATUSES[j]
  {
  }

  /** Every status is a step, found at its position among the steps. */
  lemma StatusesOrdered(s: Status)
    ensures 0 <= IndexOf(STATUSES, s) < |STATUSES|
    ensures STATUSES[IndexOf(STATUSES, s)] == s
  {
    assert s in STATUSES by {
      match s
      case Pending => assert STATUSES[0] == s;
      case Confirmed => assert STATUSES[1] == s;
      case Packed => assert STATUSES[2] == s;
      case Shipped => assert STATUSES[3] == s;
      case Delivered => assert STATUSES[4] == s;
    }
  }

  /** `currentStatusIndex`: the shown order's status position, or -1 with no
      order shown. */
  function CurrentStatusIndex(order: Option<Order>): (i: int)
    ensures order.None? ==> i == -1
    ensures order.Some? ==> 0 <= i < |STATUSES| && STATUSES[i] == order.value.status
  {
    if order.Some? then
      StatusesOrdered(order.value.status);
      IndexOf(STATUSES, order.value.status)
    else -1
  }

  /** One rendered step: its label, whether it is highlighted (check mark,
      full opacity) and whether it carries "Current Status". */
  datatype Step = Step(status: Status, highlighted: bool, current: bool)

  /** The step list of the progress display. */
  function Steps(order: Option<Order>): (steps: seq<Step>)
    ensures |steps| == |STATUSES|
    ensures forall i | 0 <= i < |steps| ::
      && steps[i].status == STATUSES[i]
      && (steps[i].highlighted <==> i <= CurrentStatusIndex(order))
      && (steps[i].current <==> i == CurrentStatusIndex(order))
  {
    var idx := CurrentStatusIndex(order);
    seq(|STATUSES|, i requires 0 <= i < |STATUSES| => Step(STATUSES[i], i <= idx, i == idx))
  }

  /** For a shown order exactly one step is current, the one of its status;
      the highlighted steps are that step and every step before it. With no
      order no step is highlighted. */
  lemma StepsOfOrder(order: Option<Order>)
    ensures order.Some? ==>
      && (forall i | 0 <= i < |Steps(order)| :: Steps(order)[i].current <==> Steps(order)[i].status == order.value.status)
      && (forall i | 0 <= i < |Steps(order)| ::
            Steps(order)[i].highlighted <==> exists j | i <= j < |STATUSES| :: STATUSES[j] == order.value.status)
    ensures order.None? ==> forall i | 0 <= i < |Steps(order)| :: !Steps(order)[i].highlighted && !Steps(order)[i].current
  {
    if order.Some? {
      var idx := CurrentStatusIndex(order);
      StatusesOrdered(order.value.status);
      StatusesDistinct();
      forall i | 0 <= i < |STATUSES|
        ensures Steps(order)[i].highlighted <==> exists j | i <= j < |STATUSES| :: STATUSES[j] == order.value.status
      {
        if Steps(order)[i].highlighted {
          assert STATUSES[idx] == order.value.status;
        }
      }
    }
  }

  const FallbackError := "Failed to find order."

  /** The error shown after a failed lookup: the returned message, or the
      fallback when it is absent or empty. */
  function ShownError(r: TrackResult): (e: string)
    ensures e != ""
    ensures r.error.Some? && r.error.value != "" ==> e == r.error.value
  {
    if r.error.Some? && r.error.value != "" then r.error.value else FallbackError
  }

  /** The fallback message shows only for a fault thrown as an `Error` with
      an empty message; the not-found message and the unknown-error message
      are shown as they are. */
  lemma FallbackOnlyForEmptyError(r: TrackResult, fault: Option<Fault>)
    requires fault.None? ==> r.error == Some(NotFoundMessage)
    requires fault.Some? ==> r.error == Some(FaultMessage(fault.value))
    ensures ShownError(r) == FallbackError <==> fault == Some(ErrorThrown("")) || fault == Some(ErrorThrown(FallbackError))
  {
  }

  /** The page state. */
  class TrackOrderPage {
    var orderId: string
    var phone: string
    var isLoading: bool
    var order: Option<Order>
    var error: Option<string>

    constructor ()
      ensures orderId == "" && phone == "" && !isLoading && order == None && error == None
    {
      orderId := "";
      phone := "";
      isLoading := false;
      order := None;
      error := None;
    }

    /** `handleTrackOrder`: the previous order and error are cleared before
        the query, so afterwards exactly one of them is set, from this query
        alone: the stored order with this id when its phone matches, or an
        error. */
    method HandleTrackOrder(db: OrderDb, fault: Option<Fault>) returns (r: TrackResult)
      requires db.Valid()
      modifies this
      ensures !isLoading && orderId == old(orderId) && phone == old(phone)
      ensures order.Some? <==> error.None?
      ensures order.Some? <==> fault.None? && orderId in db.orders && db.orders[orderId].phone == phone
      ensures order.Some? ==> order.value == db.orders[orderId]
      ensures error.Some? ==> error.value == ShownError(r)
      ensures fault.None? && order.None? ==> error == Some(NotFoundMessage)
    {
      isLoading := true;
      order := None;
      error := None;
      r := db.TrackOrder(orderId, phone, fault);
      MatchingKeyed(db.orders, orderId, phone);
      if r.success && r.order.Some? {
        order := r.order;
      } else {
        error := Some(ShownError(r));
      }
      isLoading := false;
    }
  }
}
