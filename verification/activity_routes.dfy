/** The activity feed (backend/routes/activityRoutes.js): `GET /api/activities`
    merges every delivery report and every stock row into one list, each
    tagged with its kind, newest first. */
module ActivityRoutes {
  import opened StockModel
  import opened ReportModel
  import opened Store
  import opened Sorting

  /** A feed entry: a report tagged 'delivery' or a stock row tagged 'stock'. */
  datatype Activity = Delivery(report: Report) | StockUpdate(row: Row)

  /** The entry's `timestamp`: a report's own, a stock row's `lastUpdated`. */
  function Time(a: Activity): int {
    match a
    case Delivery(r) => r.timestamp
    case StockUpdate(s) => s.lastUpdated
  }

  datatype Response = ActivityList(activities: seq<Activity>) {
    function Status(): int {
      200
    }
  }

  function Deliveries(reports: seq<Report>): (t: seq<Activity>)
    ensures |t| == |reports|
    ensures forall i :: 0 <= i < |reports| ==> t[i] == Delivery(reports[i])
  {
    seq(|reports|, i requires 0 <= i < |reports| => Delivery(reports[i]))
  }

  function Updates(rows: seq<Row>): (t: seq<Activity>)
    ensures |t| == |rows|
    ensures forall i :: 0 <= i < |rows| ==> t[i] == StockUpdate(rows[i])
  {
    seq(|rows|, i requires 0 <= i < |rows| => StockUpdate(rows[i]))
  }

  /** The list before sorting: the reports, then the stock rows. */
  function Tagged(st: Store): seq<Activity> {
    Deliveries(st.reports) + Updates(st.stock)
  }

  /** `GET /api/activities`. */
  function Activities(st: Store): (r: Step<Response>)
    ensures r.state == st
    ensures |r.response.activities| == |st.reports| + |st.stock|
    ensures SortedDesc(r.response.activities, Time)
    ensures multiset(r.response.activities) == multiset(Tagged(st))
  {
    Step(ActivityList(SortDesc(Tagged(st), Time)), st)
  }

  /** Entries with equal timestamps keep their order in `Tagged`: reports
      before stock rows, each in natural order. */
  lemma ActivitiesStable(st: Store, k: int)
    ensures WithKey(Activities(st).response.activities, Time, k) == WithKey(Tagged(st), Time, k)
  {
    SortDescStable(Tagged(st), Time, k);
  }

  lemma {:induction false} DeliveriesCount(reports: seq<Report>, x: Report, y: Row)
    ensures multiset(Deliveries(reports))[Delivery(x)] == multiset(reports)[x]
    ensures multiset(Deliveries(reports))[StockUpdate(y)] == 0
    decreases |reports|
  {
    if |reports| > 0 {
      var init := reports[..|reports| - 1];
      assert reports == init + [reports[|reports| - 1]];
      assert Deliveries(reports) == Deliveries(init) + [Delivery(reports[|reports| - 1])];
      DeliveriesCount(init, x, y);
    }
  }

  lemma {:induction false} UpdatesCount(rows: seq<Row>, x: Report, y: Row)
    ensures multiset(Updates(rows))[StockUpdate(y)] == multiset(rows)[y]
    ensures multiset(Updates(rows))[Delivery(x)] == 0
    decreases |rows|
  {
    if |rows| > 0 {
      var init := rows[..|rows| - 1];
      assert rows == init + [rows[|rows| - 1]];
      assert Updates(rows) == Updates(init) + [StockUpdate(rows[|rows| - 1])];
      UpdatesCount(init, x, y);
    }
  }

  /** Every report appears in the feed exactly as often as it is stored,
      tagged 'delivery', and every stock row likewise, tagged 'stock'. */
  lemma ActivitiesCount(st: Store, x: Report, y: Row)
    ensures multiset(Activities(st).response.activities)[Delivery(x)] == multiset(st.reports)[x]
    ensures multiset(Activities(st).response.activities)[StockUpdate(y)] == multiset(st.stock)[y]
  {
    DeliveriesCount(st.reports, x, y);
    UpdatesCount(st.stock, x, y);
  }
}
