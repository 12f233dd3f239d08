/** The order queue (backend/routes/orderRoutes.js): list, create, update
    and delete over the orders by id. */
module OrderRoutes {
  import opened Wrappers
  import opened OrderModel
  import opened Store
  import opened Sorting

  /** An order as the API returns it, with its id. */
  datatype OrderEntry = OrderEntry(id: nat, order: Order)

  function DeliveryDate(e: OrderEntry): int {
    e.order.deliveryDate
  }

  datatype Response =
    | OrderList(orders: seq<OrderEntry>)
    | Created(order: OrderEntry)
    | Updated(order: OrderEntry)
    | Deleted(message: string)
    | Failed(status: int, error: string)
  {
    function Status(): int {
      match this
      case Created(_) => 201
      case Failed(code, _) => code
      case _ => 200
    }
  }

  const PlaceRequired := "Delivery place is required"
  const OrderNotFound := "Order not found"

  /** The orders whose id is below `n`, by increasing id: the natural order
      of the collection. */
  function Listing(byId: map<nat, Order>, n: nat): (r: seq<OrderEntry>)
    ensures forall e :: e in r <==> e.id < n && e.id in byId && byId[e.id] == e.order
    ensures forall i, j :: 0 <= i < j < |r| ==> r[i].id < r[j].id
  {
    if n == 0 then []
    else Listing(byId, n - 1) + (if n - 1 in byId then [OrderEntry(n - 1, byId[n - 1])] else [])
  }

  /** No id occurs twice. */
  ghost predicate DistinctIds(orders: seq<OrderEntry>) {
    forall i, j :: 0 <= i < j < |orders| ==> orders[i].id != orders[j].id
  }

  /** `GET /api/orders`: every order once, latest delivery date first. */
  function ListOrders(st: Store): (r: Step<Response>)
    ensures r.state == st
    ensures r.response.OrderList?
    ensures SortedDesc(r.response.orders, DeliveryDate)
    ensures st.orders.Valid() ==>
      forall e :: e in r.response.orders <==> e.id in st.orders.byId && st.orders.byId[e.id] == e.order
    ensures DistinctIds(r.response.orders)
  {
    var listed := Listing(st.orders.byId, st.orders.nextId);
    var orders := SortDesc(listed, DeliveryDate);
    SortDescIsOrderedPermutation(listed, DeliveryDate);
    SortedListingDistinctIds(st.orders.byId, st.orders.nextId);
    SortedListingComplete(st.orders);
    Step(OrderList(orders), st)
  }

  /** Under fresh ids the listing holds every stored order and nothing else. */
  lemma SortedListingComplete(t: OrderTable)
    ensures var orders := SortDesc(Listing(t.byId, t.nextId), DeliveryDate);
            t.Valid() ==> forall e :: e in orders <==> e.id in t.byId && t.byId[e.id] == e.order
  {
    SortDescIsOrderedPermutation(Listing(t.byId, t.nextId), DeliveryDate);
  }

  /** Sorting the listing keeps each id once. */
  lemma SortedListingDistinctIds(byId: map<nat, Order>, n: nat)
    ensures DistinctIds(SortDesc(Listing(byId, n), DeliveryDate))
  {
    var listed := Listing(byId, n);
    var orders := SortDesc(listed, DeliveryDate);
    assert Distinct(listed) by {
      forall i, j | 0 <= i < j < |listed| ensures listed[i] != listed[j] {
        assert listed[i].id < listed[j].id;
      }
    }
    DistinctPermutation(listed, orders);
    forall i, j | 0 <= i < j < |orders| ensures orders[i].id != orders[j].id {
      var a, b := orders[i], orders[j];
      assert a in multiset(orders) && b in multiset(orders);
      assert a in listed && b in listed;
      assert a.order == byId[a.id] && b.order == byId[b.id];
      assert a != b;
    }
  }

  /** `POST /api/orders`: stores the body's order under a fresh id. */
  function CreateOrder(st: Store, body: OrderBody, now: int): (r: Step<Response>)
    ensures r.state.(orders := st.orders) == st
    ensures !Present(body.deliveryPlace) ==> r == Step(Failed(400, PlaceRequired), st)
    ensures Present(body.deliveryPlace) ==>
      && r.response.Created?
      && Some(r.response.order.order) == FromBody(body, now)
      && r.response.order.id == st.orders.nextId
      && r.state.orders == OrderTable(st.orders.byId[r.response.order.id := r.response.order.order],
                                      st.orders.nextId + 1)
    ensures Present(body.deliveryPlace) && st.orders.Valid() ==>
      r.response.order.id !in st.orders.byId && |r.state.orders.byId| == |st.orders.byId| + 1
    ensures st.Valid() ==> r.state.Valid()
  {
    match FromBody(body, now)
    case None => Step(Failed(400, PlaceRequired), st)
    case Some(order) =>
      var id := st.orders.nextId;
      Step(Created(OrderEntry(id, order)), st.(orders := OrderTable(st.orders.byId[id := order], id + 1)))
  }

  /** `PUT /api/orders/:id`: replaces every field of an existing order. The
      place is checked before the order is looked up. */
  function UpdateOrder(st: Store, id: nat, body: OrderBody, now: int): (r: Step<Response>)
    ensures r.state.(orders := st.orders) == st
    ensures !Present(body.deliveryPlace) ==> r == Step(Failed(400, PlaceRequired), st)
    ensures Present(body.deliveryPlace) && id !in st.orders.byId ==> r == Step(Failed(404, OrderNotFound), st)
    ensures Present(body.deliveryPlace) && id in st.orders.byId ==>
      && r.response.Updated?
      && r.response.order.id == id
      && Some(r.response.order.order) == FromBody(body, now)
      && r.state.orders.byId == st.orders.byId[id := r.response.order.order]
      && r.state.orders.byId.Keys == st.orders.byId.Keys
      && r.state.orders.nextId == st.orders.nextId
    ensures st.Valid() ==> r.state.Valid()
  {
    match FromBody(body, now)
    case None => Step(Failed(400, PlaceRequired), st)
    case Some(order) =>
      if id !in st.orders.byId then Step(Failed(404, OrderNotFound), st)
      else Step(Updated(OrderEntry(id, order)), st.(orders := st.orders.(byId := st.orders.byId[id := order])))
  }

  /** `DELETE /api/orders/:id`: removes exactly the identified order. */
  function DeleteOrder(st: Store, id: nat): (r: Step<Response>)
    ensures r.state.(orders := st.orders) == st
    ensures id !in st.orders.byId ==> r == Step(Failed(404, OrderNotFound), st)
    ensures id in st.orders.byId ==>
      && r.response == Deleted("Order deleted successfully")
      && r.state.orders.byId == st.orders.byId - {id}
      && |r.state.orders.byId| == |st.orders.byId| - 1
      && r.state.orders.nextId == st.orders.nextId
    ensures st.Valid() ==> r.state.Valid()
  {
    if id !in st.orders.byId then Step(Failed(404, OrderNotFound), st)
    else Step(Deleted("Order deleted successfully"),
              st.(orders := st.orders.(byId := st.orders.byId - {id})))
  }

  /** Deleting an order just created gives back the orders there were. */
  lemma CreateThenDelete(st: Store, body: OrderBody, now: int)
    requires st.orders.Valid() && Present(body.deliveryPlace)
    ensures var created := CreateOrder(st, body, now);
            DeleteOrder(created.state, created.response.order.id).state.orders.byId == st.orders.byId
  {
  }
}
