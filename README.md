# Bus tracking API: validation, bearer guard and record store

This project models the core of a small REST API that tracks buses. It has three parts:

- **`validateBus`** (`src/middleware/busValidation.js`). This Express middleware checks a request body's
  `busNumber`, `route`, `capacity` and `currentLocation`. It collects every message in rule order. It then
  either calls `next()` or answers 400 with the list. The model is imperative: `BusValidation.ValidateBus`
  pushes messages statement by statement. It is proved equal to the functional description `BusErrors`,
  and the properties are proved about that description.
- **`auth`** (`src/middleware/auth.js`). It splits the `Authorization` header on spaces and answers 401 when
  the scheme is not `Bearer` or the token is empty. It answers 500 when no secret is configured, and 401
  when the token differs from the secret. Otherwise it calls `next()`. The model is pure: `Auth.Authorize`
  is stated in terms of the header's shape, with `String.prototype.split` modelled by `Auth.Split`.
- **The record store adapter** (`src/models/busModel.js`). It maps stored documents to bus objects, and
  provides `findAll`, `findById`, `create`, `update`, `remove` and the bulk loops `bulkCreate`, `bulkUpdate`
  and `bulkDelete`. The document collection is a map from document id to document. Each operation is first
  given as a function from the collection before to the collection after and the value returned
  (`BusModel.CreateStep`, `BusModel.BulkDeleteStep`, and so on). The class `BusModel.BusStore` owns one such
  map. Its methods perform the operations step by step, with loops where the source loops, and each method's
  `ensures` ties its new state and result to the function. `create` and `update` first build the data to
  write from the request alone (`CreateAttributes`, `UpdateAttributes`) and then write it (`StoreStep`,
  `ApplyStep`). So the bulk loops are also stated over the built data (`BulkStoreStep`, `BulkApplyStep`),
  and the properties of the loops are proved there.

The request bodies are JavaScript values (`JsValues.Value`: undefined, null, booleans, numbers, strings,
arrays, plain objects). The model uses JavaScript's truthiness, property access, indexing and array
destructuring on them. The TypeErrors that the source's destructuring and property reads throw become `Err`
results (`BusDocuments.StoreError`).

In `src/routes/buses.js`, `validateBus` guards creation and single updates, and `auth` guards updates and
deletes. The bulk create route has neither guard. The controllers and the route table are not part of this
model.

`bulkCreate` and `bulkUpdate` create or update one record at a time, and the first exception propagates
without undoing earlier writes: there is no rollback, so a failed bulk request can leave part of its
writes in place.
`BulkCreateStopsAtFirstError` and `BulkUpdateStopsAtFirstError` state exactly which writes survive.
`BulkCreateIsNotAtomic` and `BulkUpdateIsNotAtomic` give a two-item request whose first item stays written
when the second fails.

## Model

| member | source | states |
|---|---|---|
| BusValidation.MatchesAlnumRunExactly | src/middleware/busValidation.js:9 | the pattern `^[A-Za-z0-9]{4}$` matches exactly the strings of four ASCII letters or digits |
| BusValidation.BusNumberErrors | src/middleware/busValidation.js:7-11 | no message iff the bus number is a four-character alphanumeric string; a falsy value gets "required", any other bad value gets "not valid" |
| BusValidation.RouteErrors | src/middleware/busValidation.js:14-18 | no message iff the route is a string of at least 3 characters; falsy gets "required", otherwise "at least 3 characters" |
| BusValidation.CapacityErrors | src/middleware/busValidation.js:21-25 | no message iff the capacity is `undefined` or an integer from 1 to 100 inclusive (so `null` is rejected) |
| BusValidation.PairErrors | src/middleware/busValidation.js:34-40 | the longitude message iff the longitude is below -180 or above 180, the latitude message iff the latitude is below -90 or above 90, each independent of the other, longitude first |
| BusValidation.LocationErrors | src/middleware/busValidation.js:28-42 | no message iff the location is falsy or a two-element coordinate array within range; a truthy location without such a pair gets only the coordinates message, never a range message |
| BusValidation.BusErrors | src/middleware/busValidation.js:3-42 | the message list is empty iff every one of the four rules accepts the body, and holds at most five messages |
| BusValidation.BusErrorsInRuleOrder | src/middleware/busValidation.js:6-42 | messages appear in rule order: bus number, route, capacity, location |
| BusValidation.RulesReportedIndependently | src/middleware/busValidation.js:6-42 | no rule short-circuits another: the messages of each rule in the full list are exactly what that rule yields for its own field |
| BusValidation.CheckBusNumber | src/middleware/busValidation.js:7-11 | the statements push exactly the bus-number rule's messages |
| BusValidation.CheckRoute | src/middleware/busValidation.js:14-18 | the statements push exactly the route rule's messages |
| BusValidation.CheckCapacity | src/middleware/busValidation.js:21-25 | the statements push exactly the capacity rule's messages |
| BusValidation.CheckLocation | src/middleware/busValidation.js:28-42 | the statements push exactly the location rule's messages |
| BusValidation.TextsDistinct | src/middleware/busValidation.js:8-39 | no two messages share a text, so the list of messages and the list of strings in the 400 body determine each other |
| BusValidation.ValidateBus | src/middleware/busValidation.js:2-52 | `next()` runs iff the body is acceptable; otherwise status 400 with all messages of all rules in order |
| Auth.Split | src/middleware/auth.js:3 | `split(' ')` yields at least one segment, no segment contains the separator, and joining the segments with it gives back the header |
| Auth.SplitAfterWord | src/middleware/auth.js:3 | a separator-free word followed by the separator is split off as the first segment |
| Auth.HeadSegment | src/middleware/auth.js:3 | the first segment is the word `w` iff the string is `w` or starts with `w` and a separator |
| Auth.SchemeThenSegment | src/middleware/auth.js:3 | a string splits into a separator-free word `w` and a non-empty second segment iff it starts with `w`, the separator and a non-separator |
| Auth.SegmentAfterScheme | src/middleware/auth.js:3 | after `w` and the separator, the second segment is `k` iff `k` has no separator and ends the string or is followed by a separator |
| Auth.BearerShapeOfSplit | src/middleware/auth.js:3-5 | the scheme is `Bearer` with a non-empty token iff the header starts with "Bearer " followed by a non-space |
| Auth.TokenOfSplit | src/middleware/auth.js:3-14 | after "Bearer ", the token equals a secret iff the secret has no space and the header is "Bearer <secret>", possibly followed by a space and more |
| Auth.BearerShaped | src/middleware/auth.js:3-5 | a header is Bearer-shaped iff `split(' ')` gives the scheme `Bearer` and a non-empty token |
| Auth.PresentsSecret | src/middleware/auth.js:3-14 | a header presents the secret iff the secret is configured, the header is Bearer-shaped and its token, the second segment of `split(' ')`, equals the secret |
| Auth.Authorize | src/middleware/auth.js:1-19 | 401 "Missing or invalid" iff the header is not Bearer-shaped; 500 iff it is but no secret is configured; 401 "Unauthorized" iff it is, a secret is configured and the header does not present it; `next()` iff it presents it |
| BusDocuments.MapDocToBus | src/models/busModel.js:7-20 | the bus keeps the document's id and timestamps and has a `Point` location whose coordinates are longitude then latitude |
| BusDocuments.MapDocToBusLosesNothing | src/models/busModel.js:7-20 | the document can be read back from the bus object: nothing is dropped and the coordinates are never swapped |
| BusDocuments.StatusOrActive | src/models/busModel.js:54 | the stored status is always truthy: the request's status whenever that is truthy, and `'active'` otherwise |
| BusDocuments.CreateAttributes | src/models/busModel.js:45-56 | throws iff the data is nullish, has no location or has non-iterable coordinates; otherwise copies the fields, defaults the status, stamps `lastUpdated` and, for an array of coordinates, takes its elements 0 and 1 as longitude and latitude (`undefined` where the array is shorter) |
| BusDocuments.IfTruthy | src/models/busModel.js:76-79 | a field is carried into the patch iff its value is truthy |
| BusDocuments.UpdateAttributes | src/models/busModel.js:74-83 | throws iff the data is nullish or a truthy location has nullish coordinates; the patch has `lastUpdated`, the truthy fields, and a position iff the location is truthy |
| BusDocuments.Merge | src/models/busModel.js:85 | every field present in the patch (and the position as longitude then latitude) replaces the stored value, fields absent from it keep theirs, and `lastUpdated` is the patch's |
| BusDocuments.UpdateAppliesTruthyFields | src/models/busModel.js:74-86 | an update replaces exactly the truthy fields of the request; a falsy value such as a capacity of 0 leaves the stored value; a truthy location writes `coordinates[0]` as the longitude and `coordinates[1]` as the latitude |
| BusDocuments.MergeIdempotent | src/models/busModel.js:85 | applying the same update data twice leaves what applying it once leaves |
| BusModel.Lookup | src/models/busModel.js:32-41 | `findById` finds a bus iff the id is stored, and then it is the mapped document |
| BusModel.CreateStep | src/models/busModel.js:43-70 | succeeds iff the data is creatable; an error writes nothing; success adds exactly the new id, returns the stored record mapped, and leaves every other record unchanged |
| BusModel.UpdateStep | src/models/busModel.js:72-92 | throws iff the data is not patchable; never adds or removes ids; answers `null` iff the data is patchable and the id absent; otherwise only that record changes, to the merge, with the server's update time |
| BusModel.StoreStep | src/models/busModel.js:58-65 | an error in building writes nothing and is passed on; otherwise the document is stored under the fresh id with the server's time as creation and update time, and the returned bus is the stored document mapped |
| BusModel.ApplyStep | src/models/busModel.js:85-86 | fails iff building `updateData` failed; never adds or removes an id; changes no record other than the named one |
| BusModel.RemoveStep | src/models/busModel.js:94-103 | answers `true` iff the id was stored, and afterwards the id is gone and nothing else changed |
| BusModel.CreateThenFind | src/models/busModel.js:43-70 | a created bus is found again under its id as it was returned, with the request's fields, the status defaulted to `'active'` when falsy, and the coordinate pair in the order given |
| BusModel.AbsentIdChangesNothing | src/models/busModel.js:32-103 | for an absent id, `findById` answers `null`, `update` changes nothing and answers `null` unless it throws, and `remove` answers `false` and changes nothing |
| BusModel.BulkDeleteRemovesListed | src/models/busModel.js:131-143 | afterwards the collection is the original without the listed ids |
| BusModel.BulkDeleteCountsRemoved | src/models/busModel.js:131-143 | the count is the number of distinct listed ids that were stored: absent ids count zero and repeats count once |
| BusModel.BulkDeleteCountBounded | src/models/busModel.js:131-143 | the count never exceeds the length of the list and no listed id remains |
| BusModel.BulkCreateStep | src/models/busModel.js:105-117 | succeeds iff every item is creatable, then with one bus per item; keeps every id, adds only the given ids, and when the given ids are fresh leaves every earlier record unchanged |
| BusModel.BulkStoreShape | src/models/busModel.js:105-117 | the store loop succeeds iff every `docData` was built, returns one bus per entry, keeps every id, adds only the given ids, and when the given ids are fresh leaves every earlier record unchanged |
| BusModel.BulkUpdateStep | src/models/busModel.js:119-129 | succeeds, answering `true`, iff every pair's data can be patched; never adds or removes an id |
| BusModel.BulkApplyShape | src/models/busModel.js:119-129 | the update loop succeeds, answering `true`, iff every `updateData` was built, and never adds or removes an id |
| BusModel.BulkDeleteStep | src/models/busModel.js:131-143 | removes records only: no id is added and every record that remains is unchanged |
| BusModel.BulkCreateStopsAtFirstError | src/models/busModel.js:105-117 | with `k` the first item whose creation throws: the call succeeds iff there is none, the first `k` items stay created under their ids, nothing else is added and earlier records are untouched |
| BusModel.BulkCreateResultInOrder | src/models/busModel.js:105-117 | on success, one bus per item in input order, each equal to the stored record mapped |
| BusModel.BulkStoreOkIff | src/models/busModel.js:105-117 | the create loop succeeds iff building no item's `docData` threw |
| BusModel.BulkStoreResultInOrder | src/models/busModel.js:105-117 | on success the create loop returns one bus per item in input order, each equal to the stored record mapped |
| BusModel.BulkStoreErrorStays | src/models/busModel.js:108-111 | once an item has failed, later items are not attempted: state and error are those at the failure |
| BusModel.BulkUpdateStopsAtFirstError | src/models/busModel.js:119-129 | with `k` the first update whose data throws: the call succeeds (with `true`) iff there is none, and the store is as the first `k` updates leave it |
| BusModel.BulkApplyStopsAtFirstError | src/models/busModel.js:119-129 | with `k` the first pair whose `updateData` threw, the update loop succeeds (with `true`) iff there is none, and ends as its first `k` steps leave the store |
| BusModel.BulkApplyErrorStays | src/models/busModel.js:121-123 | once an update has failed, later updates are not attempted: state and error are those at the failure |
| BusModel.BulkApplyTouchesOnlyNamedRecords | src/models/busModel.js:119-129 | the update loop adds and removes no id, and leaves every record no pair names as it was |
| BusModel.BulkCreateIsNotAtomic | src/models/busModel.js:105-117 | a creatable item followed by `null` makes the call throw with the first record still stored, so the collection has changed |
| BusModel.BulkUpdateIsNotAtomic | src/models/busModel.js:119-129 | an update followed by an entry whose `data` is `null` makes the call throw with the first update still applied |
| BusModel.BulkUpdateTouchesOnlyNamedRecords | src/models/busModel.js:119-129 | no id is added or removed, and every record no update names is unchanged |
| BusModel.ListDocuments | src/models/busModel.js:24 | the listing names every stored id exactly once and nothing else |
| BusModel.MapListing | src/models/busModel.js:25 | mapping a listing gives one bus per listed id, each the stored document mapped, no id twice |
| BusModel.BuildUpdateData | src/models/busModel.js:74-83 | building `updateData` statement by statement gives exactly the patch `UpdateAttributes` describes, or its TypeError |
| BusModel.BusStore.FindAll | src/models/busModel.js:22-30 | one bus per stored document, each the mapped document, no id twice, every stored id present |
| BusModel.BusStore.FindById | src/models/busModel.js:32-41 | the result is `Lookup` on the current collection |
| BusModel.BusStore.Create | src/models/busModel.js:43-70 | new collection and result are those of `CreateStep` on the old collection; ids stay well keyed |
| BusModel.BusStore.Update | src/models/busModel.js:72-92 | building `updateData` with `BuildUpdateData`, then merging, gives exactly `UpdateStep` on the old collection |
| BusModel.BusStore.Remove | src/models/busModel.js:94-103 | new collection and result are those of `RemoveStep` on the old collection |
| BusModel.BusStore.BulkCreate | src/models/busModel.js:105-117 | the loop of `Create` calls with early exit on error ends exactly as `BulkCreateStep` on the old collection |
| BusModel.BusStore.BulkUpdate | src/models/busModel.js:119-129 | the loop of `Update` calls with early exit on error ends exactly as `BulkUpdateStep` on the old collection |
| BusModel.BusStore.BulkDelete | src/models/busModel.js:131-143 | the loop of `Remove` calls with its counter ends exactly as `BulkDeleteStep` on the old collection |

## Left out

- The Appwrite client is not part of this model. Its network errors, schema validation of attributes,
  permission errors and any status other than 404 are not modelled. The only errors modelled are the
  TypeErrors the source's own property reads and destructuring throw.
- `ID.unique()` is a caller-supplied fresh id: `BusStore.Create` requires an id not already stored, and
  `BusStore.BulkCreate` takes one distinct fresh id per item.
- The process clock (`lastUpdated`) and the server's `$createdAt`/`$updatedAt` are parameters. A bulk call
  takes one pair of times for all its items, where the source reads the clock once per item.
- BusModel.BusStore.FindAll: the order of `listDocuments` and its default page size of 25 documents are not
  modelled. The method returns every document in an unspecified order.
- `async`/`await` interleaving and concurrent requests are not modelled; every operation runs to completion
  alone.
- `console.error` logging is not modelled.
- BusValidation.PairErrors: JavaScript's coercion of strings, booleans, `null` and one-element arrays to
  numbers in `<` and `>` is not modelled. A non-number coordinate is never out of range here, where `"200"`
  would be in the source. Capacities are unaffected, since `Number.isInteger` already rejects non-numbers.
- Numbers are unbounded reals: NaN, the infinities and floating-point rounding are not modelled.
- String length counts characters rather than UTF-16 code units; route lengths differ only for characters
  outside the Basic Multilingual Plane.
- Fields that hold `undefined` are sent to and returned from the store as they are. JSON serialisation,
  which drops them, is not modelled.
- Bulk request entries that are not objects, such as a `bulkUpdate` entry without `id` or `data`, are not
  modelled; entries are typed as an id and a value.
- The controllers, the route table and server set-up (`src/routes/buses.js`, `src/server.js`, the
  `ntc-bus-tracking2` copy) are not part of this model.
