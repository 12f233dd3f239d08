/** Optional fields shared by the whole model.

    `Option` stands for a request-body field or a stored document field
    that may be absent (JavaScript `undefined`).
 */
module Wrappers {

  datatype Option<+T> = None | Some(value: T) {

    /** The value, or `default` when absent: the `x || 0` idiom of the
        handlers, for fields whose present values are never falsy except
        for the default itself. */
    function GetOr(default: T): T {
      match this
      case Some(v) => v
      case None => default
    }
  }

  /** A string field that Mongoose's `required` validator and the
      handlers' `if (!field)` tests accept: present and non-empty. */
  predicate Present(s: Option<string>) {
    s.Some? && |s.value| > 0
  }
}
