# Sai agency inventory backend, modelled in Dafny

This project models the Express/Mongoose backend of a water-can delivery agency.

- **Stock ledger.** The stock is a list of rows. The stock routes only ever append rows, while a recorded delivery decrements one stored row in place, keeping its `lastUpdated`. The current stock is the row with the latest `lastUpdated`.
- **Delivery recorder.** `POST /api/report-delivery` checks a stock row against the request, decrements it and stores a delivery report. As written it reads the first row in natural order, not the current one (see Findings). `ReportRoutes.ReportDeliveryAsWritten` models that; `ReportRoutes.ReportDelivery` is the corrected handler, which uses the current row.
- **Report listing.** `GET /api/reports` returns the reports newest first, with their `totals`, their grouping by delivery place and their `count`. `GET /api/reports/:phone` lists one user's reports.
- **Activity feed.** `GET /api/activities` merges every report and every stock row into one list, tagged by kind and sorted newest first.
- **Order queue.** Orders can be listed, created, updated and deleted.
- **User routes.** Signup, login (with a hard-coded administrator), profile lookup, user listing and profile update.
- **Schema.** The `DeliveryReport` schema's defaults and validators.

The database is one immutable value, `Store.Store`. It holds four collections:

- `stock`, `reports` and `users` are sequences in natural (insertion) order.
- `orders` is a map from id to order, with a counter that stands in for ObjectId allocation.

Every route is a pure function from the store, the request and the request's clock value `now` to a `Step(response, state)`. `Server.Handle` dispatches a request to its route along the prefixes that `backend/server.js` mounts. It runs the corrected delivery handler and the corrected grouping by place of the two Findings, not the code as written; `ReportRoutes.ReportDeliveryAgreesOnFirstRow` and `ReportRoutes.ListReportsAgreesAsWritten` state when the two coincide. `Server.Run` applies a sequence of requests.

Model conventions:

- An unsorted `findOne` is the first match in natural order.
- A `.sort({ field: -1 })` and the feed's stable `Array.prototype.sort` are both `Sorting.SortDesc`, a stable insertion sort on an integer key, largest first. MongoDB does not specify the order of equal keys; the model uses insertion order.
- Absent JSON fields are `Option`s. `Wrappers.Present` is JavaScript truthiness of a string: present and non-empty.
- Counts are unbounded integers.

The client and the handler of `PUT /api/stock/update` disagree, and the model follows the handler. The admin dashboard fills its stock form with the current counts (`MyApp/components/adminDashboard.jsx:30-33`) and sends the edited values back unchanged in meaning (`adminDashboard.jsx:48-52`), so it expects the new counts to replace the old. The handler instead adds the given counts to the current row and writes the sum as a new row (`backend/routes/stockroutes.js:23-25`; `StockRoutes.PutStock`, `StockRoutes.PutThenGet`).

## Model

| member | source | states |
|---|---|---|
| Sorting.Insert | backend/routes/reportRoutes.js:98-99 | inserting into a sorted list keeps it sorted by the key, adds exactly one occurrence of the element, and puts it first or keeps the old head |
| Sorting.SortDesc | backend/routes/reportRoutes.js:98-99 | the result is ordered newest first, is a permutation of the input, and has its length |
| Sorting.InsertStable | backend/routes/activityRoutes.js:30 | inserting an element puts it in front of every element with the same key and keeps their order |
| Sorting.SortDescStable | backend/routes/activityRoutes.js:30 | the sort is stable: for every key, the elements with that key keep their input order |
| Filtering.Filter | backend/routes/reportRoutes.js:11 | a query keeps exactly the documents that match and never adds any; a one-document collection gives that document when it matches and nothing otherwise |
| Filtering.FilterMultiset | backend/routes/reportRoutes.js:11 | a query keeps each matching document as often as it is stored and drops every other one |
| Filtering.FilterAppend | backend/routes/reportRoutes.js:98 | querying a collection that grew by appending gives the old answer followed by the matches among the new documents; with the one-document case this means the answer keeps the documents in natural order |
| ReportModel.Validate | backend/models/deliveryReport.js:3-10 | saving rejects a count below 0 and a missing or empty place or phone; it fills absent counts with 0 and an absent timestamp with the save time; every stored report satisfies the schema |
| ReportModel.ValidateAccepts | backend/models/deliveryReport.js:3-10 | a document is accepted if and only if its present counts are at least 0 and its place and phone are present and non-empty |
| ReportModel.ValidateDraftOf | backend/models/deliveryReport.js:3-10 | saving a report's own fields stores exactly that report if and only if it satisfies the schema |
| OrderModel.FromBody | backend/routes/orderRoutes.js:19-31 | a body without a place gives no order; otherwise the order has the body's place, each given field as given, absent counts 0 and an absent date `now` |
| StockRoutes.LatestIndex | backend/routes/stockroutes.js:7 | the row read is a stored row with the largest `lastUpdated`, the earliest inserted among equals |
| StockRoutes.GetStock | backend/routes/stockroutes.js:5-16 | an empty ledger gets one zero row stamped `now`, which is returned; otherwise nothing changes and the current row is returned |
| StockRoutes.PutStock | backend/routes/stockroutes.js:18-32 | on an empty ledger the handler fails with 500 and writes nothing; otherwise it appends one row holding the current counts plus the body, stamped `now`, keeps every old row, and answers with the row it read |
| StockRoutes.StockHistoryAppendOnly | backend/routes/stockroutes.js:5-32 | neither stock route removes or changes a stored row |
| StockRoutes.GetStockIdempotent | backend/routes/stockroutes.js:7-11 | a second GET writes nothing and returns the row the first one returned |
| StockRoutes.PutThenGet | backend/routes/stockroutes.js:23-28 | after a PUT at a time later than every row, GET returns the previous current counts plus the request: the update adds and does not overwrite |
| ReportAggregation.DateFilter | backend/routes/reportRoutes.js:86-95 | the date range applies only when both bounds are given, and then keeps exactly the reports whose timestamp lies within it, both ends included |
| ReportAggregation.Totals | backend/routes/reportRoutes.js:102-111 | the totals of no reports are zero and of one report are its cans; with `TotalsAppend` this fixes the totals of every list as the size-by-size sum |
| ReportAggregation.TotalsAppend | backend/routes/reportRoutes.js:102-111 | the totals of two lists together are the sum of their totals |
| ReportAggregation.TotalsPermutation | backend/routes/reportRoutes.js:102-111 | the totals do not depend on the order of the reports, so the sorted list sums to the totals of the stored reports |
| ReportAggregation.TotalsNonNegative | backend/routes/reportRoutes.js:102-111 | reports that satisfy the schema have non-negative totals |
| ReportAggregation.Tally | backend/routes/reportRoutes.js:114-128 | one grouping step adds one to the entries' report count and the report's cans to their summed cans |
| ReportAggregation.TallyLookup | backend/routes/reportRoutes.js:115-126 | a grouping step creates the report's place entry with zero counts if it is missing, adds the report to it, and leaves every other place's entry as it was |
| ReportAggregation.TallyPlaces | backend/routes/reportRoutes.js:115-122 | a grouping step adds the report's place to the set of places and no other |
| ReportAggregation.TallyDistinct | backend/routes/reportRoutes.js:115-122 | a grouping step never gives a place two entries |
| ReportAggregation.ByPlaceLookup | backend/routes/reportRoutes.js:114-128 | a place has an entry if and only if some report was delivered there; the entry holds the totals and the number of exactly those reports |
| ReportAggregation.ByPlace | backend/routes/reportRoutes.js:114-135 | the corrected grouping: the entries' counts add up to the number of reports (`count`) and their cans add up to `totals` |
| ReportAggregation.ByPlaceDistinct | backend/routes/reportRoutes.js:114-128 | the corrected grouping never gives a place two entries |
| ReportAggregation.TallyAsWritten | backend/routes/reportRoutes.js:115-126 | as written, a grouping step leaves the entries exactly as they were when the place is a name `Object.prototype` supplies, and otherwise adds one to their report count |
| ReportAggregation.ByPlaceAsWritten | backend/routes/reportRoutes.js:114-128 | as written, the entries' counts add up to the number of reports whose place is not a name `Object.prototype` supplies, which falls short of `count` when such a place occurs |
| ReportAggregation.ByPlaceAsWrittenIsByPlaceOfOwn | backend/routes/reportRoutes.js:114-128 | as written, the grouping is the corrected grouping of just the reports whose place is not a name `Object.prototype` supplies |
| ReportAggregation.ByPlaceAsWrittenOwnOnly | backend/routes/reportRoutes.js:114-135 | as written, a place `Object.prototype` supplies never has an entry, and the entries' cans add up to the totals of the other reports only, which falls short of `totals` when such a place occurs |
| ReportAggregation.ByPlaceAsWrittenAgrees | backend/routes/reportRoutes.js:114-128 | the grouping as written matches the corrected grouping when no place is a name that `Object.prototype` supplies |
| ReportAggregation.ByPlaceAsWrittenLosesReport | backend/routes/reportRoutes.js:115-122 | as written, a report delivered to "toString" is counted in `count` but appears in no place's entry |
| ReportRoutes.ReportDeliveryAgreesOnFirstRow | backend/routes/reportRoutes.js:21-64 | when the ledger is empty or its first row is the current one, the corrected delivery answers and writes exactly as the code as written |
| ReportRoutes.RecordDelivery | backend/routes/reportRoutes.js:21-64 | for the row at index `at`: an empty ledger gives 404; a requested count above the row's gives 400 and changes nothing; otherwise the row drops by exactly the requested amounts (absent counts are 0), keeps its timestamp, and the other rows stay; a valid report with those amounts, the place, the phone and time `now` is appended; an invalid report gives 500 while the decremented stock stays saved; orders and users never change; the store stays valid |
| ReportRoutes.ReportDeliveryAsWritten | backend/routes/reportRoutes.js:21-64 | as written, an empty ledger gives 404 and a request above the first row's counts gives 400, both writing nothing; otherwise the first row in natural order drops by the requested amounts and keeps its `lastUpdated`, the other rows stay, and a schema-valid request is answered with the updated row and appends exactly one report with the delivered amounts, while an invalid one gives 500, stores no report and keeps the decrement; orders and users never change |
| ReportRoutes.ReportDelivery | backend/routes/reportRoutes.js:21-64 | the corrected handler: an empty ledger gives 404 and a request above the row GET shows gives 400, both writing nothing; when the delivery is accepted, only the current row changes, keeping its `lastUpdated`, and the next GET shows it less the delivered amounts; a schema-valid request is answered with the updated row and appends exactly one report with the delivered amounts, the place, the phone and time `now`, while an invalid one gives 500 and stores no report; orders and users never change |
| StockRoutes.LatestIndexFollowsTimestamps | backend/routes/stockroutes.js:7 | which row is current depends only on the rows' timestamps, so changing counts never moves it |
| ReportRoutes.DeliveryConservesCans | backend/routes/reportRoutes.js:39-54 | a recorded delivery moves cans from the row into the reports: row plus report totals is the same before and after |
| ReportRoutes.DeliveryKeepsStockNonNegative | backend/routes/reportRoutes.js:32-41 | a requested count that passes the check leaves that count at least 0; with non-negative stock and amounts, no count goes negative and none grows |
| ReportRoutes.ReportDeliveryAsWrittenInvisible | backend/routes/reportRoutes.js:26 | as written, with two rows, a recorded delivery decrements the older row, and GET shows the same 20 cans before and after |
| ReportRoutes.ReportDeliveryAsWrittenRefuses | backend/routes/reportRoutes.js:26-36 | as written, 15 cans are refused against the older row although GET shows 20; the corrected handler records the delivery |
| ReportRoutes.ListReports | backend/routes/reportRoutes.js:84-141 | with the corrected grouping, the listing writes nothing and returns exactly the stored reports in the date range, each as often as stored, newest first; `count` is their number; `totals` is the totals of the selected stored reports; the place entries add up to `count` and `totals` with no place twice |
| ReportRoutes.ListReportsPlaceEntry | backend/routes/reportRoutes.js:114-135 | with the corrected grouping, in the listing's response a place has an entry exactly when some listed report went there, and the entry's count and cans are the number and totals of those reports |
| ReportRoutes.ListReportsAgreesAsWritten | backend/routes/reportRoutes.js:114-128 | when no stored report's place is a name `Object.prototype` supplies, the listing's grouping is the grouping as written |
| ReportRoutes.UserReportList | backend/routes/reportRoutes.js:8-18 | the listing writes nothing and returns exactly that phone's reports, each as often as stored, newest first |
| ActivityRoutes.Deliveries | backend/routes/activityRoutes.js:17-21 | every report becomes one entry tagged delivery, in order |
| ActivityRoutes.Updates | backend/routes/activityRoutes.js:22-26 | every stock row becomes one entry tagged stock, in order |
| ActivityRoutes.Activities | backend/routes/activityRoutes.js:6-38 | the feed writes nothing, has one entry per report and per stock row, and is a newest-first permutation of the tagged entries |
| ActivityRoutes.ActivitiesStable | backend/routes/activityRoutes.js:30 | entries with equal timestamps keep reports before stock rows, each in natural order |
| ActivityRoutes.DeliveriesCount | backend/routes/activityRoutes.js:17-21 | tagging keeps each report's multiplicity and makes no stock entries |
| ActivityRoutes.UpdatesCount | backend/routes/activityRoutes.js:22-26 | tagging keeps each row's multiplicity and makes no delivery entries |
| ActivityRoutes.ActivitiesCount | backend/routes/activityRoutes.js:16-30 | every report appears in the feed as often as it is stored, tagged delivery, and every stock row likewise, tagged stock |
| OrderRoutes.Listing | backend/routes/orderRoutes.js:8 | the unsorted listing holds exactly the stored orders with ids below the counter, in increasing id order |
| OrderRoutes.ListOrders | backend/routes/orderRoutes.js:6-14 | the listing writes nothing and is ordered latest delivery date first; with fresh ids it holds every stored order and nothing else, each id once |
| OrderRoutes.SortedListingComplete | backend/routes/orderRoutes.js:8 | with fresh ids, the sorted listing holds exactly the stored orders |
| OrderRoutes.SortedListingDistinctIds | backend/routes/orderRoutes.js:8 | no id appears twice in the sorted listing |
| OrderRoutes.CreateOrder | backend/routes/orderRoutes.js:17-39 | a body without a place is refused with 400 and writes nothing; otherwise the body's order is stored under a new id, answered with 201, and the order count grows by one |
| OrderRoutes.UpdateOrder | backend/routes/orderRoutes.js:42-71 | a missing place gives 400 before the lookup; an unknown id gives 404; otherwise exactly that id's order is replaced by the body's order and the ids stay the same |
| OrderRoutes.DeleteOrder | backend/routes/orderRoutes.js:74-87 | an unknown id gives 404 and writes nothing; otherwise exactly that id is removed |
| OrderRoutes.CreateThenDelete | backend/routes/orderRoutes.js:74-87 | deleting an order just created gives back the orders there were |
| AuthRoutes.Signup | backend/routes/authroutes.js:6-20 | signup always succeeds and appends the body as one new user, keeping every stored user |
| AuthRoutes.SignupKeepsDuplicates | backend/routes/authroutes.js:11-12 | signup does not check for an existing phone: repeating it stores the same user once more |
| AuthRoutes.HasCredentials | backend/routes/authroutes.js:35 | the lookup succeeds if and only if some stored user has exactly this phone and password |
| AuthRoutes.Login | backend/routes/authroutes.js:23-47 | the administrator pair logs in as admin; any other pair logs in (not as admin) if and only if a stored user matches, and otherwise gets 401; nothing is written |
| AuthRoutes.AdminLoginIgnoresStore | backend/routes/authroutes.js:29-32 | the administrator login answers the same whatever the store holds |
| AuthRoutes.FirstWithPhone | backend/routes/authroutes.js:52 | the lookup finds nothing if and only if no user has the phone; otherwise it finds the first such user |
| AuthRoutes.GetProfile | backend/routes/authroutes.js:49-71 | a profile is returned if and only if some user has the phone; it is the first such user without the password; otherwise 404 |
| AuthRoutes.Visible | backend/routes/authroutes.js:76-84 | the listing is, position by position, the users whose phone is not "111" (users without a phone included) in stored order, each without the password |
| AuthRoutes.ListUsers | backend/routes/authroutes.js:73-91 | the listing writes nothing and is, position by position, the stored users whose phone is not "111", in stored order, without passwords |
| AuthRoutes.UpdateUser | backend/routes/authroutes.js:92-120 | an unknown phone gives 404 and writes nothing; otherwise only the first user with that phone gets the new name, age and gender, keeping phone and password, and the response is that updated user without the password |
| Server.StockStep | backend/server.js:19 | the stock routes change only the stock, and GET changes it only when the ledger is empty |
| Server.ReportStep | backend/server.js:20-21 | with the corrected delivery and grouping, the report and activity routes touch neither orders nor users, and only the delivery writes |
| Server.OrderStep | backend/server.js:22 | the order routes change only the orders, and the listing writes nothing |
| Server.AuthStep | backend/server.js:18 | the user routes change only the users, and login, profile and listing write nothing |
| Server.Handle | backend/server.js:18-22 | with the corrected delivery and grouping, every read-only route leaves the store unchanged, and every route changes only its own collections |
| Server.HandlePreservesValid | backend/server.js:18-22 | every route keeps the order ids fresh and every stored report within the schema |
| Server.Run | backend/server.js:18-22 | a sequence of read-only requests leaves the store as it was |
| Server.RunPreservesValid | backend/server.js:18-22 | any sequence of requests keeps the store valid |
| Server.RunKeepsReports | backend/routes/reportRoutes.js:21-64 | no sequence of requests changes or removes a stored report; reports are only appended |
| Server.MainStreetScenario | backend/routes/reportRoutes.js:26-54 | with 10 cans of each size, delivering 5 large cans leaves 5 and records one report; a following request for 6 is refused with 400 and changes nothing |

## Left out

- `GET /api/reports/range` (reportRoutes.js:67-82) never runs, because `GET /api/reports/:phone` is registered first and takes the path with phone "range". The model sends that path to `UserReportList`.
- Every 500 answer caused by a database or network failure is left out, because the store is a value and cannot fail. The 500 answers that follow from the data are modelled: PUT on an empty ledger, and a delivery report the schema rejects.
- Concurrency between requests is left out: each request is one atomic step.
- JavaScript type coercion is not modelled, because the model types every count as an integer and every place, phone and password as a string. This covers counts sent as strings, `NaN` from `parseInt`, `null`, and the `undefined + n` that PUT /api/stock/update computes when a body field is missing.
- The PUT /api/stock/update body and the login body are always complete in the model, for the same reason.
- Malformed order ids (a Mongoose `CastError`, answered with 500) are left out, because ids are natural numbers.
- Dates are integer timestamps supplied by the caller. Date parsing of `startDate` and `endDate` is left out.
- JSON serialisation is left out, in particular the way JavaScript lists integer-like keys of `reportsByPlace` before the others. The model keeps places in the order they were first met.
- MongoDB leaves the order of documents with equal sort keys unspecified; the model fixes it to insertion order.
- Logging, CORS, environment configuration and the database connection in `backend/server.js` are left out.
- The React Native client under `MyApp/` is not part of this model.
- Server.Handle: runs the corrected delivery handler (current row) and the corrected grouping (an entry for every place), not the code as written. On a ledger whose first row is not the current one it may accept a delivery the backend refuses, or refuse one the backend accepts, and decrements a different row. `ReportRoutes.ReportDeliveryAgreesOnFirstRow` gives the condition under which the two agree.
- Server.ReportStep: dispatches to the corrected `ReportRoutes.ReportDelivery` and `ReportRoutes.ListReports`, for the reason given under `Server.Handle`.
- ReportRoutes.ListReports: uses the corrected grouping. For a place that `Object.prototype` supplies, the backend as written gives no entry; `ReportRoutes.ListReportsAgreesAsWritten` gives the condition under which the two agree.
- ReportRoutes.ListReportsPlaceEntry: is stated of the corrected grouping. It is false of the code as written for places named after `Object.prototype` members such as "toString" (see Findings).
- ReportAggregation.ByPlaceAsWritten: does not model where the lost increments go. For "__proto__" they land on `Object.prototype` itself and persist across requests; the model drops them.
- StockRoutes.PutStock: stock can go negative, because PUT adds whatever counts it is given. Non-negativity of the stock is therefore not a store invariant. `ReportRoutes.DeliveryKeepsStockNonNegative` states what a delivery preserves.

## Findings

| source | as written | input that shows it | evidently intended | confidence | as-written member | corrected member |
|---|---|---|---|---|---|---|
| backend/routes/reportRoutes.js:26 | the delivery reads `Stock.findOne()` without a sort, so it checks and decrements the first row in natural order | a ledger with rows (10,10,10) at time 1 and (20,20,20) at time 2; delivering 5 large cans decrements the first row, and `GET /api/stock` still shows 20; a request for 15 is refused although 20 are shown | check and decrement the current row, the one `GET /api/stock` returns (`.sort({ lastUpdated: -1 })`) | not executed | ReportRoutes.ReportDeliveryAsWritten, ReportRoutes.ReportDeliveryAsWrittenInvisible, ReportRoutes.ReportDeliveryAsWrittenRefuses | ReportRoutes.ReportDelivery |
| backend/routes/reportRoutes.js:114-128 | the grouping accumulator is a plain `{}`, so for a place such as "toString" the test `!acc[place]` finds the inherited function, no entry is made, and the increments land on that inherited value, which the JSON response omits | one report with place "toString": `count` is 1 but `reportsByPlace` has no entry | every place gets its own entry (an accumulator without a prototype, or a `Map`) | not executed | ReportAggregation.ByPlaceAsWritten, ReportAggregation.ByPlaceAsWrittenIsByPlaceOfOwn, ReportAggregation.ByPlaceAsWrittenLosesReport | ReportAggregation.ByPlace, ReportAggregation.ByPlaceLookup, ReportAggregation.ByPlaceDistinct |
