/** The backend as one transition function: every route of the Express
    app (mounted under `/api`, orders under `/`) applied to the store.
    `now` stands for the clock of the request. The route
    `GET /api/reports/range` never runs: `GET /api/reports/:phone` is
    registered first and takes it, with phone "range". */
module Server {
  import opened Wrappers
  import opened Quantities
  import opened StockModel
  import opened OrderModel
  import opened UserModel
  import opened Store
  import StockRoutes
  import ReportRoutes
  import ActivityRoutes
  import OrderRoutes
  import AuthRoutes

  datatype Request =
    | GetStock                                        // GET /api/stock
    | UpdateStock(amounts: Cans)                      // PUT /api/stock/update
    | ReportDelivery(delivery: ReportRoutes.DeliveryRequest)  // POST /api/report-delivery
    | GetReports(startDate: Option<int>, endDate: Option<int>) // GET /api/reports
    | GetUserReports(phone: string)                   // GET /api/reports/:phone
    | GetActivities                                   // GET /api/activities
    | ListOrders                                      // GET /api/orders
    | CreateOrder(order: OrderBody)                   // POST /api/orders
    | UpdateOrder(id: nat, order: OrderBody)          // PUT /api/orders/:id
    | DeleteOrder(id: nat)                            // DELETE /api/orders/:id
    | Signup(user: User)                              // POST /api/signup
    | Login(phone: string, password: string)          // POST /api/login
    | GetProfile(phone: string)                       // GET /api/user/profile/:phone
    | ListUsers                                       // GET /api/users
    | UpdateUser(phone: string, name: Option<string>, age: Option<int>, gender: Option<string>)
                                                      // PUT /api/user/update/:phone

  datatype Response =
    | StockReply(stock: StockRoutes.Response)
    | ReportReply(report: ReportRoutes.Response)
    | ActivityReply(activity: ActivityRoutes.Response)
    | OrderReply(order: OrderRoutes.Response)
    | AuthReply(auth: AuthRoutes.Response)

  /** Requests that only read the store. */
  predicate ReadOnly(req: Request) {
    req.GetReports? || req.GetUserReports? || req.GetActivities? || req.ListOrders?
    || req.Login? || req.GetProfile? || req.ListUsers?
  }

  predicate StockRoute(req: Request) { req.GetStock? || req.UpdateStock? }

  predicate ReportRoute(req: Request) {
    req.ReportDelivery? || req.GetReports? || req.GetUserReports? || req.GetActivities?
  }

  predicate OrderRoute(req: Request) {
    req.ListOrders? || req.CreateOrder? || req.UpdateOrder? || req.DeleteOrder?
  }

  /** The stock routes: only the stock history may change. */
  function StockStep(st: Store, req: Request, now: int): (r: Step<Response>)
    requires StockRoute(req)
    ensures r.state.(stock := st.stock) == st
    ensures req.GetStock? ==> r.state == st || |st.stock| == 0
  {
    if req.GetStock? then
      var s := StockRoutes.GetStock(st, now); Step(StockReply(s.response), s.state)
    else
      var s := StockRoutes.PutStock(st, req.amounts, now); Step(StockReply(s.response), s.state)
  }

  /** The report and activity routes: only a delivery writes, and it
      touches nothing but stock and reports. */
  function ReportStep(st: Store, req: Request, now: int): (r: Step<Response>)
    requires ReportRoute(req)
    ensures r.state.orders == st.orders && r.state.users == st.users
    ensures !req.ReportDelivery? ==> r.state == st
  {
    match req
    case ReportDelivery(delivery) =>
      var s := ReportRoutes.ReportDelivery(st, delivery, now); Step(ReportReply(s.response), s.state)
    case GetReports(startDate, endDate) =>
      var s := ReportRoutes.ListReports(st, startDate, endDate); Step(ReportReply(s.response), s.state)
    case GetUserReports(phone) =>
      var s := ReportRoutes.UserReportList(st, phone); Step(ReportReply(s.response), s.state)
    case GetActivities =>
      var s := ActivityRoutes.Activities(st); Step(ActivityReply(s.response), s.state)
  }

  /** The order routes: only the order table may change. */
  function OrderStep(st: Store, req: Request, now: int): (r: Step<Response>)
    requires OrderRoute(req)
    ensures r.state.(orders := st.orders) == st
    ensures req.ListOrders? ==> r.state == st
  {
    match req
    case ListOrders =>
      var s := OrderRoutes.ListOrders(st); Step(OrderReply(s.response), s.state)
    case CreateOrder(order) =>
      var s := OrderRoutes.CreateOrder(st, order, now); Step(OrderReply(s.response), s.state)
    case UpdateOrder(id, order) =>
      var s := OrderRoutes.UpdateOrder(st, id, order, now); Step(OrderReply(s.response), s.state)
    case DeleteOrder(id) =>
      var s := OrderRoutes.DeleteOrder(st, id); Step(OrderReply(s.response), s.state)
  }

  /** The user routes: only the users may change, and only on signup or
      update. */
  function AuthStep(st: Store, req: Request): (r: Step<Response>)
    requires !StockRoute(req) && !ReportRoute(req) && !OrderRoute(req)
    ensures r.state.(users := st.users) == st
    ensures req.Login? || req.GetProfile? || req.ListUsers? ==> r.state == st
  {
    match req
    case Signup(user) =>
      var s := AuthRoutes.Signup(st, user); Step(AuthReply(s.response), s.state)
    case Login(phone, password) =>
      var s := AuthRoutes.Login(st, phone, password); Step(AuthReply(s.response), s.state)
    case GetProfile(phone) =>
      var s := AuthRoutes.GetProfile(st, phone); Step(AuthReply(s.response), s.state)
    case ListUsers =>
      var s := AuthRoutes.ListUsers(st); Step(AuthReply(s.response), s.state)
    case UpdateUser(phone, name, age, gender) =>
      var s := AuthRoutes.UpdateUser(st, phone, name, age, gender); Step(AuthReply(s.response), s.state)
  }

  /** One request against the store. */
  function Handle(st: Store, req: Request, now: int): (r: Step<Response>)
    ensures ReadOnly(req) ==> r.state == st
    ensures req.GetStock? ==> r.state == st || |st.stock| == 0
    ensures StockRoute(req) ==> r.state.(stock := st.stock) == st
    ensures ReportRoute(req) ==> r.state.orders == st.orders && r.state.users == st.users
    ensures OrderRoute(req) ==> r.state.(orders := st.orders) == st
    ensures !StockRoute(req) && !ReportRoute(req) && !OrderRoute(req) ==> r.state.(users := st.users) == st
  {
    if StockRoute(req) then StockStep(st, req, now)
    else if ReportRoute(req) then ReportStep(st, req, now)
    else if OrderRoute(req) then OrderStep(st, req, now)
    else AuthStep(st, req)
  }

  /** Every route keeps the store valid. */
  lemma HandlePreservesValid(st: Store, req: Request, now: int)
    requires st.Valid()
    ensures Handle(st, req, now).state.Valid()
  {
  }

  /** Requests applied one after another. */
  function Run(st: Store, reqs: seq<(Request, int)>): (r: Store)
    ensures (forall i :: 0 <= i < |reqs| ==> ReadOnly(reqs[i].0)) ==> r == st
    decreases |reqs|
  {
    if |reqs| == 0 then st
    else
      assert forall i :: 0 <= i < |reqs[1..]| ==> reqs[1..][i] == reqs[i + 1];
      Run(Handle(st, reqs[0].0, reqs[0].1).state, reqs[1..])
  }

  /** Every stored report satisfies the schema and order ids stay fresh,
      whatever requests arrive. */
  lemma {:induction false} RunPreservesValid(st: Store, reqs: seq<(Request, int)>)
    requires st.Valid()
    ensures Run(st, reqs).Valid()
    decreases |reqs|
  {
    if |reqs| > 0 {
      HandlePreservesValid(st, reqs[0].0, reqs[0].1);
      RunPreservesValid(Handle(st, reqs[0].0, reqs[0].1).state, reqs[1..]);
    }
  }

  /** Reports are never changed or removed: each request keeps the stored
      reports as a prefix. */
  lemma {:induction false} RunKeepsReports(st: Store, reqs: seq<(Request, int)>)
    ensures st.reports <= Run(st, reqs).reports
    decreases |reqs|
  {
    if |reqs| > 0 {
      var next := Handle(st, reqs[0].0, reqs[0].1).state;
      if reqs[0].0.ReportDelivery? {
        var req := reqs[0].0.delivery;
        if |st.stock| > 0 {
          var at := StockRoutes.LatestIndex(st.stock);
          assert next == ReportRoutes.RecordDelivery(st, req, reqs[0].1, at).state;
        }
      }
      assert st.reports <= next.reports;
      RunKeepsReports(next, reqs[1..]);
    }
  }

  /** One stock row of 10 cans of each size, no reports, orders or users. */
  const Opening := Store([Row(Cans(10, 10, 10), 0)], [], OrderTable(map[], 0), [])

  function Deliver(n25: int): Request {
    ReportDelivery(ReportRoutes.DeliveryRequest(Some(n25), Some(0), Some(0), Some("Main St"), Some("9876543210")))
  }

  /** Delivering 5 of the 10 large cans leaves 5 and records one report;
      a following request for 6 is refused and changes nothing. */
  lemma MainStreetScenario()
    ensures Handle(Opening, Deliver(5), 1).state.stock == [Row(Cans(5, 10, 10), 0)]
    ensures |Handle(Opening, Deliver(5), 1).state.reports| == 1
    ensures var first := Handle(Opening, Deliver(5), 1).state;
            Handle(first, Deliver(6), 2) == Step(ReportReply(ReportRoutes.Failed(400, "Insufficient stock")), first)
  {
    var five := ReportRoutes.DeliveryRequest(Some(5), Some(0), Some(0), Some("Main St"), Some("9876543210"));
    var six := ReportRoutes.DeliveryRequest(Some(6), Some(0), Some(0), Some("Main St"), Some("9876543210"));
    assert StockRoutes.LatestIndex(Opening.stock) == 0;
    assert !ReportRoutes.Insufficient(Opening.stock[0], five) && ReportRoutes.Recordable(five);
    var s1 := ReportRoutes.RecordDelivery(Opening, five, 1, 0);
    assert ReportRoutes.ReportDelivery(Opening, five, 1) == s1;
    assert Handle(Opening, Deliver(5), 1).state == s1.state;
    var first := s1.state;
    assert first.stock == [Row(Cans(5, 10, 10), 0)];
    assert StockRoutes.LatestIndex(first.stock) == 0;
    assert ReportRoutes.Insufficient(first.stock[0], six);
    assert ReportRoutes.ReportDelivery(first, six, 2) == ReportRoutes.RecordDelivery(first, six, 2, 0);
  }
}
