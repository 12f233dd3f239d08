/** The pure reductions of `GET /api/reports` (backend/routes/reportRoutes.js):
    the optional date filter, `totals` and `reportsByPlace`. */
module ReportAggregation {
  import opened Wrappers
  import opened Quantities
  import opened ReportModel
  import opened Filtering

  predicate InRange(r: Report, startDate: int, endDate: int) {
    startDate <= r.timestamp <= endDate
  }

  /** The query of `GET /api/reports`: restricted to `[startDate, endDate]`,
      both ends included, only when both bounds are given. */
  function DateFilter(reports: seq<Report>, startDate: Option<int>, endDate: Option<int>): (r: seq<Report>)
    ensures startDate.None? || endDate.None? ==> r == reports
    ensures startDate.Some? && endDate.Some? ==>
      forall x :: x in r <==> x in reports && InRange(x, startDate.value, endDate.value)
  {
    if startDate.Some? && endDate.Some? then
      Filter(reports, (x: Report) => InRange(x, startDate.value, endDate.value))
    else
      reports
  }

  /** `totals`: the reports' counts summed left to right, as `reduce` does. */
  function Totals(reports: seq<Report>): (r: Cans)
    ensures |reports| == 0 ==> r == Zero
    ensures |reports| == 1 ==> r == reports[0].cans
    decreases |reports|
  {
    if |reports| == 0 then Zero
    else Add(Totals(reports[..|reports| - 1]), reports[|reports| - 1].cans)
  }

  lemma {:induction false} TotalsAppend(a: seq<Report>, b: seq<Report>)
    ensures Totals(a + b) == Add(Totals(a), Totals(b))
    decreases |b|
  {
    if |b| == 0 {
      assert a + b == a;
    } else {
      var b' := b[..|b| - 1];
      assert (a + b)[..|a + b| - 1] == a + b';
      assert (a + b)[|a + b| - 1] == b[|b| - 1];
      TotalsAppend(a, b');
    }
  }

  /** Appending one report adds its counts. */
  lemma TotalsSnoc(reports: seq<Report>, r: Report)
    ensures Totals(reports + [r]) == Add(Totals(reports), r.cans)
  {
    assert (reports + [r])[..|reports|] == reports;
  }

  /** Taking one report out of the middle takes its counts off the totals. */
  lemma {:induction false} TotalsRemove(b: seq<Report>, i: nat)
    requires i < |b|
    ensures Totals(b) == Add(Totals(b[..i] + b[i + 1..]), b[i].cans)
    decreases |b|
  {
    if i == |b| - 1 {
      assert b[..i] + b[i + 1..] == b[..|b| - 1];
    } else {
      TotalsRemove(b[..|b| - 1], i);
      TotalsRemoveStep(b, i);
    }
  }

  /** The step of `TotalsRemove` that moves past the last report. */
  lemma TotalsRemoveStep(b: seq<Report>, i: nat)
    requires i < |b| - 1
    requires var init := b[..|b| - 1];
             Totals(init) == Add(Totals(init[..i] + init[i + 1..]), init[i].cans)
    ensures Totals(b) == Add(Totals(b[..i] + b[i + 1..]), b[i].cans)
  {
    var init, last := b[..|b| - 1], b[|b| - 1];
    var rest := init[..i] + init[i + 1..];
    assert b[..i] + b[i + 1..] == rest + [last];
    TotalsSnoc(rest, last);
    assert init[i] == b[i];
  }

  lemma MultisetRemove<T>(s: seq<T>, i: nat)
    requires i < |s|
    ensures multiset(s[..i] + s[i + 1..]) == multiset(s) - multiset{s[i]}
  {
    assert s == s[..i] + [s[i]] + s[i + 1..];
  }

  /** The totals do not depend on the order of the reports, so summing the
      sorted list gives the totals of the stored reports. */
  lemma {:induction false} TotalsPermutation(a: seq<Report>, b: seq<Report>)
    requires multiset(a) == multiset(b)
    ensures Totals(a) == Totals(b)
    decreases |a|
  {
    if |a| == 0 {
      assert |b| == |multiset(b)| == 0;
    } else {
      var a', x := a[..|a| - 1], a[|a| - 1];
      assert a == a' + [x];
      assert x in multiset(b);
      var i :| 0 <= i < |b| && b[i] == x;
      var b' := b[..i] + b[i + 1..];
      MultisetRemove(b, i);
      MultisetRemove(a, |a| - 1);
      assert a[..|a| - 1] + a[|a|..] == a';
      TotalsPermutation(a', b');
      TotalsRemove(b, i);
    }
  }

  /** Schema-valid reports have non-negative totals. */
  lemma {:induction false} TotalsNonNegative(reports: seq<Report>)
    requires forall i :: 0 <= i < |reports| ==> Valid(reports[i])
    ensures NonNegative(Totals(reports))
    decreases |reports|
  {
    if |reports| > 0 {
      TotalsNonNegative(reports[..|reports| - 1]);
    }
  }

  /** One entry of `reportsByPlace`: a place with its summed counts and its
      number of reports. */
  datatype PlaceTotals = PlaceTotals(place: string, cans: Cans, count: nat)

  /** The entries in the order their places were first met (the key order
      of the object the handler builds). */
  function Lookup(entries: seq<PlaceTotals>, place: string): Option<PlaceTotals> {
    if |entries| == 0 then None
    else if entries[0].place == place then Some(entries[0])
    else Lookup(entries[1..], place)
  }

  ghost predicate DistinctPlaces(entries: seq<PlaceTotals>) {
    forall i, j :: 0 <= i < j < |entries| ==> entries[i].place != entries[j].place
  }

  function Places(entries: seq<PlaceTotals>): set<string> {
    set i | 0 <= i < |entries| :: entries[i].place
  }

  lemma PlacesCons(e: PlaceTotals, rest: seq<PlaceTotals>)
    ensures Places([e] + rest) == {e.place} + Places(rest)
  {
    var s := [e] + rest;
    forall p | p in Places(s) ensures p in {e.place} + Places(rest) {
      var i :| 0 <= i < |s| && s[i].place == p;
      if i > 0 {
        assert rest[i - 1].place == p;
      }
    }
    forall p | p in Places(rest) ensures p in Places(s) {
      var i :| 0 <= i < |rest| && rest[i].place == p;
      assert s[i + 1].place == p;
    }
    assert s[0].place == e.place;
  }

  lemma DistinctCons(e: PlaceTotals, rest: seq<PlaceTotals>)
    ensures DistinctPlaces([e] + rest) <==> e.place !in Places(rest) && DistinctPlaces(rest)
  {
    var s := [e] + rest;
    assert forall i :: 0 <= i < |rest| ==> s[i + 1] == rest[i];
    if e.place in Places(rest) {
      var i :| 0 <= i < |rest| && rest[i].place == e.place;
      assert s[0].place == s[i + 1].place;
    }
    if DistinctPlaces(s) {
      forall i, j | 0 <= i < j < |rest| ensures rest[i].place != rest[j].place {
        assert s[i + 1].place != s[j + 1].place;
      }
    }
  }

  function SumCounts(entries: seq<PlaceTotals>): int {
    if |entries| == 0 then 0 else entries[0].count + SumCounts(entries[1..])
  }

  function SumCans(entries: seq<PlaceTotals>): Cans {
    if |entries| == 0 then Zero else Add(entries[0].cans, SumCans(entries[1..]))
  }

  /** One step of the grouping `reduce`: the report's place gets an entry
      if it has none, then that entry absorbs the report. */
  function Tally(entries: seq<PlaceTotals>, r: Report): (es: seq<PlaceTotals>)
    ensures SumCounts(es) == SumCounts(entries) + 1
    ensures SumCans(es) == Add(SumCans(entries), r.cans)
    decreases |entries|
  {
    if |entries| == 0 then
      [PlaceTotals(r.deliveryPlace, r.cans, 1)]
    else if entries[0].place == r.deliveryPlace then
      var es := [PlaceTotals(r.deliveryPlace, Add(entries[0].cans, r.cans), entries[0].count + 1)] + entries[1..];
      assert es[1..] == entries[1..];
      es
    else
      var rest := Tally(entries[1..], r);
      var es := [entries[0]] + rest;
      assert es[1..] == rest;
      es
  }

  /** Tallying a report updates its place's entry, or adds one, and leaves
      every other place's entry as it was. */
  lemma {:induction false} TallyLookup(entries: seq<PlaceTotals>, r: Report, p: string)
    ensures Lookup(Tally(entries, r), p) ==
              if p != r.deliveryPlace then Lookup(entries, p)
              else match Lookup(entries, p)
                case None => Some(PlaceTotals(p, r.cans, 1))
                case Some(e) => Some(PlaceTotals(p, Add(e.cans, r.cans), e.count + 1))
    decreases |entries|
  {
    if |entries| > 0 && entries[0].place != r.deliveryPlace {
      var rest := Tally(entries[1..], r);
      assert ([entries[0]] + rest)[1..] == rest;
      TallyLookup(entries[1..], r, p);
    }
  }

  /** Tallying adds the report's place to the places. */
  lemma {:induction false} TallyPlaces(entries: seq<PlaceTotals>, r: Report)
    ensures Places(Tally(entries, r)) == Places(entries) + {r.deliveryPlace}
    decreases |entries|
  {
    if |entries| == 0 {
      PlacesCons(PlaceTotals(r.deliveryPlace, r.cans, 1), []);
    } else {
      var first, others := entries[0], entries[1..];
      assert entries == [first] + others;
      PlacesCons(first, others);
      if first.place == r.deliveryPlace {
        var e := PlaceTotals(r.deliveryPlace, Add(first.cans, r.cans), first.count + 1);
        assert Tally(entries, r) == [e] + others;
        PlacesCons(e, others);
      } else {
        var rest := Tally(others, r);
        assert Tally(entries, r) == [first] + rest;
        TallyPlaces(others, r);
        PlacesCons(first, rest);
      }
    }
  }

  /** Tallying keeps places distinct. */
  lemma {:induction false} TallyDistinct(entries: seq<PlaceTotals>, r: Report)
    requires DistinctPlaces(entries)
    ensures DistinctPlaces(Tally(entries, r))
    decreases |entries|
  {
    if |entries| == 0 {
      DistinctCons(PlaceTotals(r.deliveryPlace, r.cans, 1), []);
    } else {
      var first, others := entries[0], entries[1..];
      assert entries == [first] + others;
      DistinctCons(first, others);
      if first.place == r.deliveryPlace {
        var e := PlaceTotals(r.deliveryPlace, Add(first.cans, r.cans), first.count + 1);
        assert Tally(entries, r) == [e] + others;
        DistinctCons(e, others);
      } else {
        var rest := Tally(others, r);
        assert Tally(entries, r) == [first] + rest;
        TallyPlaces(others, r);
        TallyDistinct(others, r);
        DistinctCons(first, rest);
      }
    }
  }

  /** The corrected `reportsByPlace`: every place of the reports, keyed by
      its own name. */
  function ByPlace(reports: seq<Report>): (r: seq<PlaceTotals>)
    ensures SumCounts(r) == |reports|
    ensures SumCans(r) == Totals(reports)
    decreases |reports|
  {
    if |reports| == 0 then []
    else Tally(ByPlace(reports[..|reports| - 1]), reports[|reports| - 1])
  }

  /** The reports delivered to `place`, in order. */
  function AtPlace(reports: seq<Report>, place: string): seq<Report> {
    Filter(reports, (x: Report) => x.deliveryPlace == place)
  }

  lemma AtPlaceSnoc(reports: seq<Report>, place: string)
    requires |reports| > 0
    ensures var last := reports[|reports| - 1];
            AtPlace(reports, place)
              == AtPlace(reports[..|reports| - 1], place) + if last.deliveryPlace == place then [last] else []
  {
  }

  /** Each place's entry holds exactly the totals and the number of the
      reports delivered there, and only places that occur have an entry. */
  lemma {:induction false} ByPlaceLookup(reports: seq<Report>, place: string)
    ensures Lookup(ByPlace(reports), place) ==
      if |AtPlace(reports, place)| == 0 then None
      else Some(PlaceTotals(place, Totals(AtPlace(reports, place)), |AtPlace(reports, place)|))
    decreases |reports|
  {
    if |reports| > 0 {
      var init, last := reports[..|reports| - 1], reports[|reports| - 1];
      ByPlaceLookup(init, place);
      var at := AtPlace(init, place);
      assert ByPlace(reports) == Tally(ByPlace(init), last);
      TallyLookup(ByPlace(init), last, place);
      AtPlaceSnoc(reports, place);
      if last.deliveryPlace == place {
        assert AtPlace(reports, place) == at + [last];
        TotalsSnoc(at, last);
        if |at| == 0 {
          assert at + [last] == [last];
          AddZero(last.cans);
        }
      } else {
        assert AtPlace(reports, place) == at;
      }
    }
  }

  /** The entries' counts add up to `count`, their cans to `totals`, and
      no place appears twice. */
  lemma {:induction false} ByPlaceDistinct(reports: seq<Report>)
    ensures DistinctPlaces(ByPlace(reports))
    decreases |reports|
  {
    if |reports| > 0 {
      ByPlaceDistinct(reports[..|reports| - 1]);
      TallyDistinct(ByPlace(reports[..|reports| - 1]), reports[|reports| - 1]);
    }
  }

  /** The names every plain JavaScript object inherits from
      `Object.prototype`. */
  const InheritedKeys: set<string> := {
    "constructor", "__defineGetter__", "__defineSetter__", "hasOwnProperty",
    "__lookupGetter__", "__lookupSetter__", "isPrototypeOf", "propertyIsEnumerable",
    "toString", "valueOf", "__proto__", "toLocaleString"}

  /** The grouping step as written: the accumulator is a plain `{}`, so
      `!acc[place]` is false for an inherited name, no entry of its own is
      made, and the increments land on the inherited value, which the JSON
      response does not include. */
  function TallyAsWritten(entries: seq<PlaceTotals>, r: Report): (es: seq<PlaceTotals>)
    ensures r.deliveryPlace in InheritedKeys ==> es == entries
    ensures SumCounts(es) == SumCounts(entries) + if r.deliveryPlace in InheritedKeys then 0 else 1
  {
    if r.deliveryPlace in InheritedKeys then entries else Tally(entries, r)
  }

  /** A report is grouped as written only if its place is not inherited. */
  predicate OwnKey(r: Report) {
    r.deliveryPlace !in InheritedKeys
  }

  function ByPlaceAsWritten(reports: seq<Report>): (es: seq<PlaceTotals>)
    ensures SumCounts(es) == |Filter(reports, OwnKey)|
    decreases |reports|
  {
    if |reports| == 0 then []
    else TallyAsWritten(ByPlaceAsWritten(reports[..|reports| - 1]), reports[|reports| - 1])
  }

  lemma ByPlaceSnoc(f: seq<Report>, last: Report)
    ensures ByPlace(f + [last]) == Tally(ByPlace(f), last)
  {
    assert (f + [last])[..|f|] == f;
  }

  /** One step of `ByPlaceAsWrittenIsByPlaceOfOwn`: the as-written step on
      the grouping of the own-key reports so far is the corrected grouping
      of the own-key reports including `last`. */
  lemma OwnStep(ai: seq<PlaceTotals>, fi: seq<Report>, last: Report, a: seq<PlaceTotals>, f: seq<Report>)
    requires ai == ByPlace(fi)
    requires a == TallyAsWritten(ai, last)
    requires f == fi + if OwnKey(last) then [last] else []
    ensures a == ByPlace(f)
  {
    if OwnKey(last) {
      ByPlaceSnoc(fi, last);
    } else {
      assert f == fi;
    }
  }

  /** As written, the grouping is the corrected grouping of just the
      reports whose place is an own key: every other report vanishes from
      it, entry and totals alike. */
  lemma {:induction false} ByPlaceAsWrittenIsByPlaceOfOwn(reports: seq<Report>)
    ensures ByPlaceAsWritten(reports) == ByPlace(Filter(reports, OwnKey))
    decreases |reports|
  {
    if |reports| > 0 {
      var init, last := reports[..|reports| - 1], reports[|reports| - 1];
      ByPlaceAsWrittenIsByPlaceOfOwn(init);
      OwnStep(ByPlaceAsWritten(init), Filter(init, OwnKey), last, ByPlaceAsWritten(reports), Filter(reports, OwnKey));
    }
  }

  /** As written, a place `Object.prototype` supplies never has an entry,
      and the entries' cans add up to the totals of the own-key reports. */
  lemma ByPlaceAsWrittenOwnOnly(reports: seq<Report>, place: string)
    requires place in InheritedKeys
    ensures Lookup(ByPlaceAsWritten(reports), place) == None
    ensures SumCans(ByPlaceAsWritten(reports)) == Totals(Filter(reports, OwnKey))
  {
    var own := Filter(reports, OwnKey);
    ByPlaceAsWrittenIsByPlaceOfOwn(reports);
    ByPlaceLookup(own, place);
  }

  /** As written, the grouping is right unless some place is an inherited name. */
  lemma {:induction false} ByPlaceAsWrittenAgrees(reports: seq<Report>)
    requires forall i :: 0 <= i < |reports| ==> reports[i].deliveryPlace !in InheritedKeys
    ensures ByPlaceAsWritten(reports) == ByPlace(reports)
    decreases |reports|
  {
    if |reports| > 0 {
      ByPlaceAsWrittenAgrees(reports[..|reports| - 1]);
    }
  }

  /** As written, one report delivered to the place "toString" is counted
      in `count` but in no entry of `reportsByPlace`. */
  lemma ByPlaceAsWrittenLosesReport()
    ensures var reports := [Report(Cans(2, 0, 0), "toString", "9876543210", 0)];
            SumCounts(ByPlaceAsWritten(reports)) == 0 != |reports|
  {
    var reports := [Report(Cans(2, 0, 0), "toString", "9876543210", 0)];
    assert reports[..0] == [];
  }
}
