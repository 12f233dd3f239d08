/** The stock ledger endpoints (backend/routes/stockroutes.js):
    `GET /api/stock` and `PUT /api/stock/update`. */
module StockRoutes {
  import opened Quantities
  import opened StockModel
  import opened Store

  datatype Response = StockOk(stock: Row) | Failed(status: int, error: string) {
    function Status(): int {
      if StockOk? then 200 else status
    }
  }

  /** `row` is a current row of the ledger: stored, and no row is newer. */
  ghost predicate IsLatest(rows: seq<Row>, row: Row) {
    row in rows && forall j :: 0 <= j < |rows| ==> rows[j].lastUpdated <= row.lastUpdated
  }

  /** The row `findOne().sort({ lastUpdated: -1 })` returns: one with the
      largest `lastUpdated`; among equals, the earliest inserted. */
  function LatestIndex(rows: seq<Row>): (i: nat)
    requires |rows| > 0
    ensures i < |rows|
    ensures forall j :: 0 <= j < |rows| ==> rows[j].lastUpdated <= rows[i].lastUpdated
    ensures forall j :: 0 <= j < i ==> rows[j].lastUpdated < rows[i].lastUpdated
    decreases |rows|
  {
    if |rows| == 1 then 0
    else
      var i := LatestIndex(rows[..|rows| - 1]);
      if rows[|rows| - 1].lastUpdated > rows[i].lastUpdated then |rows| - 1 else i
  }

  /** Which row is current depends only on the rows' timestamps. */
  lemma {:induction false} LatestIndexFollowsTimestamps(a: seq<Row>, b: seq<Row>)
    requires |a| == |b| > 0
    requires forall j :: 0 <= j < |a| ==> a[j].lastUpdated == b[j].lastUpdated
    ensures LatestIndex(a) == LatestIndex(b)
    decreases |a|
  {
    if |a| > 1 {
      LatestIndexFollowsTimestamps(a[..|a| - 1], b[..|b| - 1]);
    }
  }

  /** `GET /api/stock`: the current row; an empty ledger is first given one
      all-zero row stamped `now`. */
  function GetStock(st: Store, now: int): (r: Step<Response>)
    ensures r.state.(stock := st.stock) == st
    ensures |st.stock| == 0 ==> r.state.stock == [Fresh(now)] && r.response == StockOk(Fresh(now))
    ensures |st.stock| > 0 ==> r.state == st && r.response.StockOk? && IsLatest(st.stock, r.response.stock)
  {
    if |st.stock| == 0 then
      Step(StockOk(Fresh(now)), st.(stock := [Fresh(now)]))
    else
      Step(StockOk(st.stock[LatestIndex(st.stock)]), st)
  }

  /** `PUT /api/stock/update`: appends a row holding the current counts
      plus `body`, stamped `now`, and answers with the row it read. On an
      empty ledger the read yields `null` and the handler fails with 500. */
  function PutStock(st: Store, body: Cans, now: int): (r: Step<Response>)
    ensures r.state.(stock := st.stock) == st
    ensures |st.stock| == 0 ==> r == Step(Failed(500, "Server error"), st)
    ensures |st.stock| > 0 ==>
      && r.response.StockOk?
      && IsLatest(st.stock, r.response.stock)
      && |r.state.stock| == |st.stock| + 1
      && r.state.stock[..|st.stock|] == st.stock
      && r.state.stock[|st.stock|] == Row(Add(r.response.stock.cans, body), now)
  {
    if |st.stock| == 0 then
      Step(Failed(500, "Server error"), st)
    else
      var current := st.stock[LatestIndex(st.stock)];
      var rows := st.stock + [Row(Add(current.cans, body), now)];
      assert rows[..|st.stock|] == st.stock;
      Step(StockOk(current), st.(stock := rows))
  }

  /** The ledger only grows: any sequence of GET and PUT requests keeps
      every earlier row where it was. */
  lemma StockHistoryAppendOnly(st: Store, body: Cans, now: int)
    ensures st.stock <= GetStock(st, now).state.stock
    ensures st.stock <= PutStock(st, body, now).state.stock
  {
  }

  /** A second GET writes nothing and answers with the same row. */
  lemma GetStockIdempotent(st: Store, now: int, later: int)
    ensures var first := GetStock(st, now);
            GetStock(first.state, later) == Step(first.response, first.state)
  {
    if |st.stock| == 0 {
      assert LatestIndex([Fresh(now)]) == 0;
    }
  }

  /** PUT is additive, not an overwrite: once its row is the newest, GET
      returns the previous current counts plus the request. */
  lemma PutThenGet(st: Store, body: Cans, now: int, later: int)
    requires |st.stock| > 0
    requires forall j :: 0 <= j < |st.stock| ==> st.stock[j].lastUpdated < now
    ensures var put := PutStock(st, body, now);
            GetStock(put.state, later).response == StockOk(Row(Add(put.response.stock.cans, body), now))
  {
    var put := PutStock(st, body, now);
    var rows := put.state.stock;
    assert rows[|st.stock|].lastUpdated == now;
  }
}
