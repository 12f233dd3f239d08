/** The delivery report endpoints (backend/routes/reportRoutes.js):
    `POST /api/report-delivery`, `GET /api/reports` and
    `GET /api/reports/:phone`. */
module ReportRoutes {
  import opened Wrappers
  import opened Quantities
  import opened StockModel
  import opened ReportModel
  import opened Store
  import opened Sorting
  import opened Filtering
  import opened ReportAggregation
  import StockRoutes

  /** The body of `POST /api/report-delivery`. */
  datatype DeliveryRequest = DeliveryRequest(
    cans25L: Option<int>, cans10L: Option<int>, cans1L: Option<int>,
    deliveryPlace: Option<string>, userPhone: Option<string>)

  datatype Response =
    | Delivered(message: string, updatedStock: Row)
    | ReportList(reports: seq<Report>, totals: Cans, reportsByPlace: seq<PlaceTotals>, count: nat)
    | UserReports(reports: seq<Report>)
    | Failed(status: int, error: string)
  {
    function Status(): int {
      if Failed? then status else 200
    }
  }

  const DeliveredMessage := "Delivery report submitted and stock updated successfully"

  /** `have < want`; a comparison with an absent count is false. */
  predicate Exceeds(have: int, want: Option<int>) {
    want.Some? && have < want.value
  }

  /** The stock check: some requested count is above the row's. */
  predicate Insufficient(row: Row, req: DeliveryRequest) {
    || Exceeds(row.cans.cans25L, req.cans25L)
    || Exceeds(row.cans.cans10L, req.cans10L)
    || Exceeds(row.cans.cans1L, req.cans1L)
  }

  /** The amounts taken from stock and written to the report
      (`parseInt(x) || 0`: an absent count is 0). */
  function Amounts(req: DeliveryRequest): Cans {
    Cans(req.cans25L.GetOr(0), req.cans10L.GetOr(0), req.cans1L.GetOr(0))
  }

  /** Whether the report document the handler builds passes the schema. */
  predicate Recordable(req: DeliveryRequest) {
    NonNegative(Amounts(req)) && Present(req.deliveryPlace) && Present(req.userPhone)
  }

  /** The handler of `POST /api/report-delivery`, reading and decrementing
      the stock row at index `at`. It checks, then saves the decremented
      row, then saves the report; a report the schema rejects leaves the
      decremented stock in place and answers 500. */
  function RecordDelivery(st: Store, req: DeliveryRequest, now: int, at: nat): (r: Step<Response>)
    requires |st.stock| == 0 || at < |st.stock|
    ensures r.state.orders == st.orders && r.state.users == st.users
    ensures |st.stock| == 0 ==> r == Step(Failed(404, "Stock not found"), st)
    ensures |st.stock| > 0 && Insufficient(st.stock[at], req) ==>
      r == Step(Failed(400, "Insufficient stock"), st)
    ensures |st.stock| > 0 && !Insufficient(st.stock[at], req) ==>
      && |r.state.stock| == |st.stock|
      && (forall j :: 0 <= j < |st.stock| && j != at ==> r.state.stock[j] == st.stock[j])
      && r.state.stock[at].lastUpdated == st.stock[at].lastUpdated
      && Add(r.state.stock[at].cans, Amounts(req)) == st.stock[at].cans
    ensures |st.stock| > 0 && !Insufficient(st.stock[at], req) && Recordable(req) ==>
      && r.response == Delivered(DeliveredMessage, r.state.stock[at])
      && |r.state.reports| == |st.reports| + 1
      && r.state.reports[..|st.reports|] == st.reports
      && Add(r.state.stock[at].cans, r.state.reports[|st.reports|].cans) == st.stock[at].cans
      && Some(r.state.reports[|st.reports|].deliveryPlace) == req.deliveryPlace
      && Some(r.state.reports[|st.reports|].userPhone) == req.userPhone
      && r.state.reports[|st.reports|].timestamp == now
    ensures |st.stock| > 0 && !Insufficient(st.stock[at], req) && !Recordable(req) ==>
      r.response == Failed(500, "Failed to submit report") && r.state.reports == st.reports
    ensures st.Valid() ==> r.state.Valid()
  {
    if |st.stock| == 0 then
      Step(Failed(404, "Stock not found"), st)
    else if Insufficient(st.stock[at], req) then
      Step(Failed(400, "Insufficient stock"), st)
    else
      var row := st.stock[at].(cans := Sub(st.stock[at].cans, Amounts(req)));
      var saved := st.(stock := st.stock[at := row]);
      var draft := Draft(Some(Amounts(req).cans25L), Some(Amounts(req).cans10L), Some(Amounts(req).cans1L),
                         req.deliveryPlace, req.userPhone, Some(now));
      match Validate(draft, now)
      case None => Step(Failed(500, "Failed to submit report"), saved)
      case Some(report) =>
        var reports := st.reports + [report];
        assert reports[..|st.reports|] == st.reports;
        Step(Delivered(DeliveredMessage, row), saved.(reports := reports))
  }

  /** The handler as written: the unsorted `Stock.findOne()` reads the
      first row in natural order, not the current row `GET /api/stock`
      shows. */
  function ReportDeliveryAsWritten(st: Store, req: DeliveryRequest, now: int): (r: Step<Response>)
    ensures |st.stock| == 0 ==> r == Step(Failed(404, "Stock not found"), st)
    ensures |st.stock| > 0 && Insufficient(st.stock[0], req) ==> r == Step(Failed(400, "Insufficient stock"), st)
    ensures |st.stock| > 0 && !Insufficient(st.stock[0], req) ==>
      && |r.state.stock| == |st.stock|
      && r.state.stock[1..] == st.stock[1..]
      && r.state.stock[0].lastUpdated == st.stock[0].lastUpdated
      && Add(r.state.stock[0].cans, Amounts(req)) == st.stock[0].cans
    ensures |st.stock| > 0 && !Insufficient(st.stock[0], req) && Recordable(req) ==>
      && r.response == Delivered(DeliveredMessage, r.state.stock[0])
      && |r.state.reports| == |st.reports| + 1
      && r.state.reports[..|st.reports|] == st.reports
      && r.state.reports[|st.reports|].cans == Amounts(req)
    ensures |st.stock| > 0 && !Insufficient(st.stock[0], req) && !Recordable(req) ==>
      r.response == Failed(500, "Failed to submit report") && r.state.reports == st.reports
    ensures r.state.orders == st.orders && r.state.users == st.users
  {
    RecordDelivery(st, req, now, 0)
  }

  /** The corrected handler: it checks and decrements the row
      `GET /api/stock` returns, so the next GET shows the decrement. */
  function ReportDelivery(st: Store, req: DeliveryRequest, now: int): (r: Step<Response>)
    ensures var shown := StockRoutes.GetStock(st, now).response.stock;
      |st.stock| > 0 && !Insufficient(shown, req) ==>
        StockRoutes.GetStock(r.state, now).response.stock
          == shown.(cans := Sub(shown.cans, Amounts(req)))
    ensures |st.stock| > 0 && Insufficient(StockRoutes.GetStock(st, now).response.stock, req) ==>
      r == Step(Failed(400, "Insufficient stock"), st)
    ensures |st.stock| == 0 ==> r == Step(Failed(404, "Stock not found"), st)
    ensures var shown := StockRoutes.GetStock(st, now).response.stock;
      |st.stock| > 0 && !Insufficient(shown, req) && Recordable(req) ==>
        && |r.state.reports| == |st.reports| + 1
        && r.state.reports[..|st.reports|] == st.reports
        && r.state.reports[|st.reports|].cans == Amounts(req)
        && Some(r.state.reports[|st.reports|].deliveryPlace) == req.deliveryPlace
        && Some(r.state.reports[|st.reports|].userPhone) == req.userPhone
        && r.state.reports[|st.reports|].timestamp == now
    ensures var shown := StockRoutes.GetStock(st, now).response.stock;
      |st.stock| > 0 && !Insufficient(shown, req) && !Recordable(req) ==>
        r.response == Failed(500, "Failed to submit report") && r.state.reports == st.reports
    ensures |st.stock| > 0 ==>
      var at := StockRoutes.LatestIndex(st.stock);
      !Insufficient(st.stock[at], req) ==>
        && |r.state.stock| == |st.stock|
        && (forall j :: 0 <= j < |st.stock| && j != at ==> r.state.stock[j] == st.stock[j])
        && r.state.stock[at].lastUpdated == st.stock[at].lastUpdated
        && (Recordable(req) ==> r.response == Delivered(DeliveredMessage, r.state.stock[at]))
    ensures r.state.orders == st.orders && r.state.users == st.users
  {
    if |st.stock| == 0 then RecordDelivery(st, req, now, 0)
    else
      var at := StockRoutes.LatestIndex(st.stock);
      var r := RecordDelivery(st, req, now, at);
      if !Insufficient(st.stock[at], req) then
        StockRoutes.LatestIndexFollowsTimestamps(st.stock, r.state.stock);
        r
      else r
  }

  /** Where the first row is also the current one (a ledger of one row,
      say), the corrected handler answers and writes as the handler as
      written does. */
  lemma ReportDeliveryAgreesOnFirstRow(st: Store, req: DeliveryRequest, now: int)
    requires |st.stock| > 0 ==> StockRoutes.LatestIndex(st.stock) == 0
    ensures ReportDelivery(st, req, now) == ReportDeliveryAsWritten(st, req, now)
  {
  }

  /** A recorded delivery moves cans from stock into the reports: the
      decremented row plus the reports' totals are what the row plus the
      totals were before. */
  lemma DeliveryConservesCans(st: Store, req: DeliveryRequest, now: int, at: nat)
    requires at < |st.stock|
    requires !Insufficient(st.stock[at], req) && Recordable(req)
    ensures var r := RecordDelivery(st, req, now, at);
      Add(r.state.stock[at].cans, Totals(r.state.reports)) == Add(st.stock[at].cans, Totals(st.reports))
  {
    var r := RecordDelivery(st, req, now, at);
    var reports := r.state.reports;
    var report := reports[|st.reports|];
    assert reports == st.reports + [report];
    TotalsSnoc(st.reports, report);
  }

  /** A present count that passes the check leaves a count of at least 0;
      with non-negative stock and amounts, no count goes negative and none
      grows. */
  lemma DeliveryKeepsStockNonNegative(st: Store, req: DeliveryRequest, now: int, at: nat)
    requires at < |st.stock|
    requires !Insufficient(st.stock[at], req)
    ensures var row := RecordDelivery(st, req, now, at).state.stock[at];
      && (req.cans25L.Some? ==> row.cans.cans25L >= 0)
      && (req.cans10L.Some? ==> row.cans.cans10L >= 0)
      && (req.cans1L.Some? ==> row.cans.cans1L >= 0)
    ensures var row := RecordDelivery(st, req, now, at).state.stock[at];
      NonNegative(st.stock[at].cans) && NonNegative(Amounts(req)) ==>
        NonNegative(row.cans) && Within(row.cans, st.stock[at].cans)
  {
  }

  /** A ledger after one adjustment: the first row and a newer one. */
  const TwoRowStore := Store([Row(Cans(10, 10, 10), 1), Row(Cans(20, 20, 20), 2)], [],
                             OrderModel.OrderTable(map[], 0), [])

  /** As written, the delivery is invisible to `GET /api/stock` once the
      ledger has a second row: the stock shown before and after is the
      same 20 cans, while the older row drops from 10 to 5. */
  lemma ReportDeliveryAsWrittenInvisible()
    ensures var r := ReportDeliveryAsWritten(TwoRowStore,
                       DeliveryRequest(Some(5), None, None, Some("Main St"), Some("9876543210")), 3);
            && r.response.Delivered?
            && r.state.stock[0].cans == Cans(5, 10, 10)
            && StockRoutes.GetStock(r.state, 3).response == StockRoutes.GetStock(TwoRowStore, 3).response
            && StockRoutes.GetStock(r.state, 3).response.stock.cans == Cans(20, 20, 20)
  {
    var st := TwoRowStore;
    var req := DeliveryRequest(Some(5), None, None, Some("Main St"), Some("9876543210"));
    assert !Insufficient(st.stock[0], req);
    assert Recordable(req);
    var rows := [Row(Cans(5, 10, 10), 1), Row(Cans(20, 20, 20), 2)];
    var r := ReportDeliveryAsWritten(st, req, 3);
    assert r.state.stock == rows;
    assert r.response.Delivered?;
    assert StockRoutes.LatestIndex(rows) == 1 by {
      assert rows[..1] == [Row(Cans(5, 10, 10), 1)];
    }
    assert StockRoutes.LatestIndex(st.stock) == 1 by {
      assert st.stock[..1] == [Row(Cans(10, 10, 10), 1)];
    }
    assert StockRoutes.GetStock(r.state, 3).response == StockRoutes.StockOk(rows[1]);
    assert StockRoutes.GetStock(st, 3).response == StockRoutes.StockOk(st.stock[1]);
  }

  /** As written, the check reads the older row too: 15 cans are refused
      although `GET /api/stock` shows 20, which the corrected handler takes. */
  lemma ReportDeliveryAsWrittenRefuses()
    ensures var req := DeliveryRequest(Some(15), None, None, Some("Main St"), Some("9876543210"));
            && ReportDeliveryAsWritten(TwoRowStore, req, 3).response == Failed(400, "Insufficient stock")
            && ReportDelivery(TwoRowStore, req, 3).response.Delivered?
  {
    var st := TwoRowStore;
    assert StockRoutes.LatestIndex(st.stock) == 1 by {
      assert st.stock[..1] == [Row(Cans(10, 10, 10), 1)];
    }
    var req := DeliveryRequest(Some(15), None, None, Some("Main St"), Some("9876543210"));
    assert Insufficient(st.stock[0], req);
    assert !Insufficient(st.stock[1], req);
    assert Recordable(req);
  }

  /** `GET /api/reports`: the (optionally date-filtered) reports newest
      first, their totals, their per-place grouping and their number. */
  function ListReports(st: Store, startDate: Option<int>, endDate: Option<int>): (r: Step<Response>)
    ensures r.state == st
    ensures r.response.ReportList?
    ensures SortedDesc(r.response.reports, Timestamp)
    ensures multiset(r.response.reports) == multiset(DateFilter(st.reports, startDate, endDate))
    ensures forall x :: x in r.response.reports <==>
      x in st.reports && (startDate.Some? && endDate.Some? ==> InRange(x, startDate.value, endDate.value))
    ensures r.response.count == |r.response.reports|
    ensures r.response.totals == Totals(DateFilter(st.reports, startDate, endDate))
    ensures SumCounts(r.response.reportsByPlace) == r.response.count
    ensures SumCans(r.response.reportsByPlace) == r.response.totals
    ensures DistinctPlaces(r.response.reportsByPlace)
  {
    var selected := DateFilter(st.reports, startDate, endDate);
    var reports := SortDesc(selected, Timestamp);
    SortDescIsOrderedPermutation(selected, Timestamp);
    TotalsPermutation(reports, selected);
    ByPlaceDistinct(reports);
    Step(ReportList(reports, Totals(reports), ByPlace(reports), |reports|), st)
  }

  /** In the response of `GET /api/reports`, a place has an entry exactly
      when some listed report was delivered there, and the entry's `count`
      and cans are the number and the totals of those reports. */
  lemma ListReportsPlaceEntry(st: Store, startDate: Option<int>, endDate: Option<int>, place: string)
    ensures var resp := ListReports(st, startDate, endDate).response;
            var at := AtPlace(resp.reports, place);
            && (Lookup(resp.reportsByPlace, place).None? <==> forall x :: x in resp.reports ==> x.deliveryPlace != place)
            && (Lookup(resp.reportsByPlace, place).Some? ==>
                  Lookup(resp.reportsByPlace, place).value == PlaceTotals(place, Totals(at), |at|))
  {
    var resp := ListReports(st, startDate, endDate).response;
    ByPlaceLookup(resp.reports, place);
    var at := AtPlace(resp.reports, place);
    if |at| > 0 {
      assert at[0] in resp.reports;
    }
  }

  /** When no stored report's place is a name `Object.prototype` supplies,
      the grouping in the response is the grouping as written. */
  lemma ListReportsAgreesAsWritten(st: Store, startDate: Option<int>, endDate: Option<int>)
    requires forall i :: 0 <= i < |st.reports| ==> st.reports[i].deliveryPlace !in InheritedKeys
    ensures var resp := ListReports(st, startDate, endDate).response;
            resp.reportsByPlace == ByPlaceAsWritten(resp.reports)
  {
    var resp := ListReports(st, startDate, endDate).response;
    forall i | 0 <= i < |resp.reports| ensures resp.reports[i].deliveryPlace !in InheritedKeys {
      assert resp.reports[i] in st.reports;
    }
    ByPlaceAsWrittenAgrees(resp.reports);
  }

  /** `GET /api/reports/:phone`: one user's reports, newest first. */
  function UserReportList(st: Store, phone: string): (r: Step<Response>)
    ensures r.state == st
    ensures r.response.UserReports?
    ensures SortedDesc(r.response.reports, Timestamp)
    ensures forall x :: x in r.response.reports <==> x in st.reports && x.userPhone == phone
    ensures forall x :: multiset(r.response.reports)[x] == if x.userPhone == phone then multiset(st.reports)[x] else 0
  {
    var selected := Filter(st.reports, (x: Report) => x.userPhone == phone);
    var reports := SortDesc(selected, Timestamp);
    SortDescIsOrderedPermutation(selected, Timestamp);
    assert forall x :: multiset(selected)[x] == if x.userPhone == phone then multiset(st.reports)[x] else 0 by {
      forall x ensures multiset(selected)[x] == if x.userPhone == phone then multiset(st.reports)[x] else 0 {
        FilterMultiset(st.reports, (x: Report) => x.userPhone == phone, x);
      }
    }
    Step(UserReports(reports), st)
  }
}
