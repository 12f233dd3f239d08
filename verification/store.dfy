/** The whole database as one immutable value, and the shape of a request
    handler's result. */
module Store {
  import opened StockModel
  import opened ReportModel
  import opened OrderModel
  import opened UserModel

  /** The four collections. `stock`, `reports` and `users` are in natural
      (insertion) order, which is the order an unsorted query returns. */
  datatype Store = Store(stock: seq<Row>, reports: seq<Report>, orders: OrderTable, users: seq<User>) {

    /** What every handler keeps: fresh order ids and schema-valid reports. */
    ghost predicate Valid() {
      orders.Valid() && forall i :: 0 <= i < |reports| ==> ReportModel.Valid(reports[i])
    }
  }

  /** A handler's outcome: the HTTP response and the database after it. */
  datatype Step<R> = Step(response: R, state: Store)
}
