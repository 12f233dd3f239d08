/** The `Order` schema (backend/models/orders.js) and the collection of
    orders keyed by id. */
module OrderModel {
  import opened Wrappers
  import opened Quantities

  datatype Order = Order(deliveryPlace: string, cans: Cans, deliveryDate: int)

  /** A request body of POST and PUT `/api/orders`. */
  datatype OrderBody = OrderBody(
    deliveryPlace: Option<string>, cans25L: Option<int>, cans10L: Option<int>,
    cans1L: Option<int>, deliveryDate: Option<int>)

  /** The orders by id. Ids are allocated from `nextId`, which stands for
      MongoDB's ObjectId generation: increasing, never reused. */
  datatype OrderTable = OrderTable(byId: map<nat, Order>, nextId: nat) {
    ghost predicate Valid() {
      forall id :: id in byId ==> id < nextId
    }
  }

  /** The order a body describes at time `now`, with the handlers' defaults
      (`cans || 0`, `deliveryDate || new Date()`), or `None` when the body
      has no place (`if (!deliveryPlace)`). */
  function FromBody(b: OrderBody, now: int): (r: Option<Order>)
    ensures r.None? <==> !Present(b.deliveryPlace)
    ensures r.Some? ==> |r.value.deliveryPlace| > 0 && Some(r.value.deliveryPlace) == b.deliveryPlace
    ensures r.Some? ==>
      && (b.cans25L.Some? ==> r.value.cans.cans25L == b.cans25L.value)
      && (b.cans10L.Some? ==> r.value.cans.cans10L == b.cans10L.value)
      && (b.cans1L.Some? ==> r.value.cans.cans1L == b.cans1L.value)
      && (b.deliveryDate.Some? ==> r.value.deliveryDate == b.deliveryDate.value)
    ensures r.Some? ==>
      && (b.cans25L.None? ==> r.value.cans.cans25L == 0)
      && (b.cans10L.None? ==> r.value.cans.cans10L == 0)
      && (b.cans1L.None? ==> r.value.cans.cans1L == 0)
      && (b.deliveryDate.None? ==> r.value.deliveryDate == now)
  {
    if !Present(b.deliveryPlace) then None
    else Some(Order(b.deliveryPlace.value,
                    Cans(b.cans25L.GetOr(0), b.cans10L.GetOr(0), b.cans1L.GetOr(0)),
                    b.deliveryDate.GetOr(now)))
  }
}
