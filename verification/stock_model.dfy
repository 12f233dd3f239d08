/** One row of the `Stock` collection (backend/models/stock.js). The stock
    routes only ever append rows, while a recorded delivery decrements one
    stored row in place; the "current" stock is the row with the latest
    `lastUpdated`.
    Timestamps are integers supplied by the caller in place of the clock. */
module StockModel {
  import opened Quantities

  datatype Row = Row(cans: Cans, lastUpdated: int)

  /** `new Stock()` at time `now`: every count takes its default 0 and
      `lastUpdated` its default `Date.now`. */
  function Fresh(now: int): Row {
    Row(Zero, now)
  }
}
