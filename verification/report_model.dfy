/** The `DeliveryReport` schema (backend/models/deliveryReport.js): the
    stored record, the unvalidated document a handler builds, and the
    defaults and validators Mongoose applies when the document is saved. */
module ReportModel {
  import opened Wrappers
  import opened Quantities

  /** A stored report. */
  datatype Report = Report(cans: Cans, deliveryPlace: string, userPhone: string, timestamp: int)

  /** A document before `save()`; every field may be absent. */
  datatype Draft = Draft(
    cans25L: Option<int>, cans10L: Option<int>, cans1L: Option<int>,
    deliveryPlace: Option<string>, userPhone: Option<string>, timestamp: Option<int>)

  /** What the schema guarantees of every stored report: counts at least
      0 (`min: 0`) and a non-empty place and phone (`required: true`). */
  predicate Valid(r: Report) {
    NonNegative(r.cans) && |r.deliveryPlace| > 0 && |r.userPhone| > 0
  }

  /** A present count below the schema minimum. */
  predicate BelowMin(c: Option<int>) {
    c.Some? && c.value < 0
  }

  function Timestamp(r: Report): int {
    r.timestamp
  }

  /** Saving `d` at time `now`: `Some` of the stored report, or `None`
      when a validator rejects the document. */
  function Validate(d: Draft, now: int): (r: Option<Report>)
    ensures BelowMin(d.cans25L) || BelowMin(d.cans10L) || BelowMin(d.cans1L) ==> r == None
    ensures !Present(d.deliveryPlace) || !Present(d.userPhone) ==> r == None
    ensures r.Some? ==> Valid(r.value)
    ensures r.Some? ==> DraftOf(r.value) == Draft(
      Some(d.cans25L.GetOr(0)), Some(d.cans10L.GetOr(0)), Some(d.cans1L.GetOr(0)),
      d.deliveryPlace, d.userPhone, Some(d.timestamp.GetOr(now)))
  {
    var cans := Cans(d.cans25L.GetOr(0), d.cans10L.GetOr(0), d.cans1L.GetOr(0));
    if NonNegative(cans) && Present(d.deliveryPlace) && Present(d.userPhone) then
      Some(Report(cans, d.deliveryPlace.value, d.userPhone.value, d.timestamp.GetOr(now)))
    else
      None
  }

  /** The document that stores `r` with every field given explicitly. */
  function DraftOf(r: Report): Draft {
    Draft(Some(r.cans.cans25L), Some(r.cans.cans10L), Some(r.cans.cans1L),
          Some(r.deliveryPlace), Some(r.userPhone), Some(r.timestamp))
  }

  /** Saving a valid report's own fields stores exactly that report, at any
      time: validation accepts every valid report and changes nothing. */
  lemma ValidateDraftOf(r: Report, now: int)
    ensures Validate(DraftOf(r), now) == Some(r) <==> Valid(r)
  {
  }

  /** Validation accepts exactly the documents whose present counts are at
      least 0 and whose place and phone are present and non-empty. */
  lemma ValidateAccepts(d: Draft, now: int)
    ensures Validate(d, now).Some?
        <==> !BelowMin(d.cans25L) && !BelowMin(d.cans10L) && !BelowMin(d.cans1L)
             && Present(d.deliveryPlace) && Present(d.userPhone)
  {
  }
}
