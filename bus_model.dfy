/**
  The record store over the document collection (`busModel.js`). The
  collection is a map from document id to document; every operation is
  first given as a function from the collection before to the collection
  after and the value returned, and the class `BusStore` then performs it
  step by step on its own map.
*/
module BusModel {
  import opened Wrappers
  import opened JsValues
  import opened BusDocuments

  /** The documents of the collection, by id. */
  type Collection = map<Id, Doc>

  /** Every document is stored under its own `$id`. */
  predicate WellKeyed(c: Collection)
  {
    forall id :: id in c ==> c[id].id == id
  }

  /** The collection after an operation, and what the operation returned. */
  datatype Step<T> = Step(docs: Collection, result: T)

  // ---------------------------------------------------------------------------
  // Single-record operations

  /** `findById`: the mapped document, or `null` (here `None`) when the store answers 404. */
  function Lookup(c: Collection, id: Id): (r: Option<Bus>)
    ensures r.Some? <==> id in c
    ensures r.Some? ==> r.value == MapDocToBus(c[id])
  {
    if id in c then Some(MapDocToBus(c[id])) else None
  }

  /** `create` under the fresh id `id`: build `docData`, then store it, or throw before any write. */
  function CreateStep(c: Collection, data: Value, id: Id, now: Timestamp, serverTime: Timestamp)
    : (s: Step<Result<Bus, StoreError>>)
    ensures s.result.Ok? <==> Creatable(data)
    ensures s.result.Err? ==> s.docs == c
    ensures s.result.Ok? ==> s.docs.Keys == c.Keys + {id} && id in s.docs
    ensures s.result.Ok? ==> s.result.value == MapDocToBus(s.docs[id])
    ensures s.docs - {id} == c - {id}
  {
    StoreStep(c, CreateAttributes(data, now), id, serverTime)
  }

  /** The second half of `create`: `createDocument` with the built `docData` and the bus it maps to, or the error building it threw. */
  function StoreStep(c: Collection, built: Result<Attributes, StoreError>, id: Id, serverTime: Timestamp)
    : (s: Step<Result<Bus, StoreError>>)
    ensures s.result.Ok? <==> built.Ok?
    ensures built.Err? ==> s.docs == c && s.result.error == built.error
    ensures built.Ok? ==> s.docs == c[id := Doc(id, serverTime, serverTime, built.value)]
    ensures s.result.Ok? ==> s.result.value == MapDocToBus(s.docs[id])
  {
    match built
    case Err(e) => Step(c, Err(e))
    case Ok(attrs) =>
      var d := Doc(id, serverTime, serverTime, attrs);
      Step(c[id := d], Ok(MapDocToBus(d)))
  }

  /** `update`: throw while building `updateData`; otherwise merge into the document, or return `null` when it is absent. */
  function UpdateStep(c: Collection, id: Id, data: Value, now: Timestamp, serverTime: Timestamp)
    : (s: Step<Result<Option<Bus>, StoreError>>)
    ensures s.result.Err? <==> !Patchable(data)
    ensures s.docs.Keys == c.Keys
    ensures s.result == Ok(None) <==> Patchable(data) && id !in c
    ensures s.result.Err? || id !in c ==> s.docs == c
    ensures s.result.Ok? && id in c ==>
      && s.docs == c[id := s.docs[id]]
      && s.docs[id] == c[id].(updatedAt := serverTime,
                              attrs := Merge(c[id].attrs, UpdateAttributes(data, now).value))
      && s.result.value == Some(MapDocToBus(s.docs[id]))
  {
    ApplyStep(c, id, UpdateAttributes(data, now), serverTime)
  }

  /** The write half of `update`: merge the built `updateData` into the stored document, if there is one. */
  function ApplyStep(c: Collection, id: Id, patched: Result<Patch, StoreError>, serverTime: Timestamp)
    : (s: Step<Result<Option<Bus>, StoreError>>)
    ensures s.result.Err? <==> patched.Err?
    ensures s.docs.Keys == c.Keys
    ensures forall other :: other in c && other != id ==> s.docs[other] == c[other]
  {
    match patched
    case Err(e) => Step(c, Err(e))
    case Ok(patch) =>
      if id !in c then Step(c, Ok(None))
      else
        var d := c[id].(updatedAt := serverTime, attrs := Merge(c[id].attrs, patch));
        Step(c[id := d], Ok(Some(MapDocToBus(d))))
  }

  /** `remove`: `true` and the document gone when it existed, `false` and nothing changed otherwise. */
  function RemoveStep(c: Collection, id: Id): (s: Step<bool>)
    ensures s.result <==> id in c
    ensures s.docs == c - {id}
  {
    if id in c then Step(c - {id}, true) else Step(c, false)
  }

  // ---------------------------------------------------------------------------
  // Bulk operations, one item at a time in list order

  /** All ids different from each other. */
  predicate Distinct(ids: seq<Id>)
  {
    forall i, j :: 0 <= i < j < |ids| ==> ids[i] != ids[j]
  }

  /**
    `bulkCreate`: `create` for each item in order, under the fresh ids `ids`;
    the first error stops the loop and nothing is undone. Building an item's
    `docData` reads only the item, so it is done for all items up front and
    the loop stores them in order.
  */
  function BulkCreateStep(c: Collection, items: seq<Value>, ids: seq<Id>, now: Timestamp, serverTime: Timestamp)
    : (s: Step<Result<seq<Bus>, StoreError>>)
    requires |ids| == |items|
    ensures s.result.Ok? <==> forall j :: 0 <= j < |items| ==> Creatable(items[j])
    ensures s.result.Ok? ==> |s.result.value| == |items|
    ensures forall id :: id in c ==> id in s.docs
    ensures forall id :: id in s.docs ==> id in c || id in ids
    ensures (forall j :: 0 <= j < |ids| ==> ids[j] !in c) ==> forall id :: id in c ==> s.docs[id] == c[id]
  {
    BulkStoreShape(c, Built(items, now), ids, serverTime);
    BulkStoreStep(c, Built(items, now), ids, serverTime)
  }

  /** The `docData` that `create` builds for each item, or the error building it throws. */
  function Built(items: seq<Value>, now: Timestamp): (r: seq<Result<Attributes, StoreError>>)
    ensures |r| == |items|
    ensures forall j :: 0 <= j < |items| ==> r[j] == CreateAttributes(items[j], now)
  {
    seq(|items|, j requires 0 <= j < |items| => CreateAttributes(items[j], now))
  }

  /** The loop of `bulkCreate` over built `docData`: store each in order, stop at the first error. */
  function BulkStoreStep(c: Collection, built: seq<Result<Attributes, StoreError>>, ids: seq<Id>, serverTime: Timestamp)
    : Step<Result<seq<Bus>, StoreError>>
    requires |ids| == |built|
    decreases |built|
  {
    if built == [] then Step(c, Ok([]))
    else
      var n := |built| - 1;
      var before := BulkStoreStep(c, built[..n], ids[..n], serverTime);
      if before.result.Err? then before
      else
        var s := StoreStep(before.docs, built[n], ids[n], serverTime);
        Step(s.docs, if s.result.Ok? then Ok(before.result.value + [s.result.value]) else Err(s.result.error))
  }

  /**
    `bulkUpdate`: `update` for each pair in order; an absent id is skipped, the
    first error stops the loop and nothing is undone. Building a pair's
    `updateData` reads only the pair, so it is done for all pairs up front and
    the loop applies them in order.
  */
  function BulkUpdateStep(c: Collection, updates: seq<(Id, Value)>, now: Timestamp, serverTime: Timestamp)
    : (s: Step<Result<bool, StoreError>>)
    ensures s.result.Ok? <==> forall j :: 0 <= j < |updates| ==> Patchable(updates[j].1)
    ensures s.result.Ok? ==> s.result.value
    ensures s.docs.Keys == c.Keys
  {
    BulkApplyShape(c, Prepared(updates, now), serverTime);
    BulkApplyStep(c, Prepared(updates, now), serverTime)
  }

  /** Each pair's id with the `updateData` built from its data, or the error building it throws. */
  function Prepared(updates: seq<(Id, Value)>, now: Timestamp): (r: seq<(Id, Result<Patch, StoreError>)>)
    ensures |r| == |updates|
    ensures forall j :: 0 <= j < |updates| ==> r[j] == (updates[j].0, UpdateAttributes(updates[j].1, now))
  {
    seq(|updates|, j requires 0 <= j < |updates| => (updates[j].0, UpdateAttributes(updates[j].1, now)))
  }

  /** The loop of `bulkUpdate` over built `updateData`: apply each in order, stop at the first error. */
  function BulkApplyStep(c: Collection, prepared: seq<(Id, Result<Patch, StoreError>)>, serverTime: Timestamp)
    : Step<Result<bool, StoreError>>
    decreases |prepared|
  {
    if prepared == [] then Step(c, Ok(true))
    else
      var n := |prepared| - 1;
      var before := BulkApplyStep(c, prepared[..n], serverTime);
      if before.result.Err? then before
      else
        var s := ApplyStep(before.docs, prepared[n].0, prepared[n].1, serverTime);
        Step(s.docs, if s.result.Ok? then Ok(true) else Err(s.result.error))
  }

  /** `bulkDelete`: `remove` for each id in order, counting the calls that answered `true`. */
  function BulkDeleteStep(c: Collection, ids: seq<Id>): (s: Step<nat>)
    ensures s.docs.Keys <= c.Keys
    ensures forall id :: id in s.docs ==> s.docs[id] == c[id]
    decreases |ids|
  {
    if ids == [] then Step(c, 0)
    else
      var n := |ids| - 1;
      var before := BulkDeleteStep(c, ids[..n]);
      var s := RemoveStep(before.docs, ids[n]);
      Step(s.docs, before.result + if s.result then 1 else 0)
  }

  /** The store loop succeeds iff every entry was built, returns one bus per entry, keeps every id, adds only the given ids, and under fresh ids leaves every earlier record unchanged. */
  lemma {:induction false} BulkStoreShape(
    c: Collection, built: seq<Result<Attributes, StoreError>>, ids: seq<Id>, serverTime: Timestamp)
    requires |ids| == |built|
    ensures var s := BulkStoreStep(c, built, ids, serverTime);
      && (s.result.Ok? <==> forall j :: 0 <= j < |built| ==> built[j].Ok?)
      && (s.result.Ok? ==> |s.result.value| == |built|)
      && (forall id :: id in c ==> id in s.docs)
      && (forall id :: id in s.docs ==> id in c || id in ids)
      && ((forall j :: 0 <= j < |ids| ==> ids[j] !in c) ==> forall id :: id in c ==> s.docs[id] == c[id])
    decreases |built|
  {
    if built != [] {
      var n := |built| - 1;
      assert forall j :: 0 <= j < n ==> built[..n][j] == built[j];
      assert forall j :: 0 <= j < n ==> ids[..n][j] == ids[j];
      assert forall id :: id in ids[..n] ==> id in ids;
      BulkStoreShape(c, built[..n], ids[..n], serverTime);
      BulkStoreLastStep(c, built, ids, serverTime);
    }
  }

  /** The apply loop succeeds, with `true`, iff every `updateData` was built, and never adds or removes an id. */
  lemma {:induction false} BulkApplyShape(
    c: Collection, prepared: seq<(Id, Result<Patch, StoreError>)>, serverTime: Timestamp)
    ensures var s := BulkApplyStep(c, prepared, serverTime);
      && (s.result.Ok? <==> forall j :: 0 <= j < |prepared| ==> prepared[j].1.Ok?)
      && (s.result.Ok? ==> s.result.value)
      && s.docs.Keys == c.Keys
    decreases |prepared|
  {
    if prepared != [] {
      var n := |prepared| - 1;
      assert forall j :: 0 <= j < n ==> prepared[..n][j] == prepared[j];
      BulkApplyShape(c, prepared[..n], serverTime);
    }
  }

  // ---------------------------------------------------------------------------
  // What the operations promise

  /** A created bus reads back as it was returned: the request's fields, the defaulted status, and the coordinate pair in the order given. */
  lemma CreateThenFind(c: Collection, data: Value, id: Id, now: Timestamp, serverTime: Timestamp)
    requires Creatable(data)
    ensures var s := CreateStep(c, data, id, now, serverTime);
      && s.result.Ok?
      && Lookup(s.docs, id) == Some(s.result.value)
      && s.result.value.id == id
      && s.result.value.busNumber == Prop(data, "busNumber")
      && s.result.value.route == Prop(data, "route")
      && s.result.value.capacity == Prop(data, "capacity")
      && s.result.value.status == StatusOrActive(Prop(data, "status"))
      && (!Truthy(Prop(data, "status")) ==> s.result.value.status == Str("active"))
      && s.result.value.lastUpdated == now
      && (Coordinates(data).Arr? && |Coordinates(data).elems| == 2 ==>
            s.result.value.currentLocation.coordinates == Coordinates(data).elems)
  {
  }

  /** `findById`, `update` and `remove` of an absent id change nothing, and answer `null` or `false` (or throw for a malformed update). */
  lemma AbsentIdChangesNothing(c: Collection, id: Id, data: Value, now: Timestamp, serverTime: Timestamp)
    requires id !in c
    ensures Lookup(c, id) == None
    ensures UpdateStep(c, id, data, now, serverTime).docs == c
    ensures UpdateStep(c, id, data, now, serverTime).result.Ok? ==> UpdateStep(c, id, data, now, serverTime).result.value == None
    ensures RemoveStep(c, id) == Step(c, false)
  {
    assert c - {id} == c;
  }

  /** The set of ids listed in a sequence has no more elements than the sequence. */
  lemma {:induction false} ListedIdsAtMostLength(ids: seq<Id>)
    ensures |Listed(ids)| <= |ids|
  {
    if ids != [] {
      var n := |ids| - 1;
      ListedIdsAtMostLength(ids[..n]);
      assert ids == ids[..n] + [ids[n]];
      ListedSnoc(ids[..n], ids[n]);
    }
  }

  /** The ids listed in a sequence. */
  function Listed(ids: seq<Id>): (r: set<Id>)
    ensures forall id :: id in r <==> id in ids
  {
    set id | id in ids
  }

  lemma ListedSnoc(ids: seq<Id>, x: Id)
    ensures Listed(ids + [x]) == Listed(ids) + {x}
  {
  }

  /** The one-step facts the two `bulkDelete` lemmas below build on. */
  lemma BulkDeleteUnfold(c: Collection, ids: seq<Id>)
    requires ids != []
    ensures var n := |ids| - 1; var before := BulkDeleteStep(c, ids[..n]);
      && BulkDeleteStep(c, ids).docs == before.docs - {ids[n]}
      && BulkDeleteStep(c, ids).result == before.result + (if ids[n] in before.docs then 1 else 0)
      && Listed(ids) == Listed(ids[..n]) + {ids[n]}
  {
    var n := |ids| - 1;
    assert ids == ids[..n] + [ids[n]];
    ListedSnoc(ids[..n], ids[n]);
  }

  /** `bulkDelete` leaves the collection without any listed id, and with everything else. */
  lemma {:induction false} BulkDeleteRemovesListed(c: Collection, ids: seq<Id>)
    ensures BulkDeleteStep(c, ids).docs == c - Listed(ids)
  {
    if ids == [] {
      assert c - Listed(ids) == c;
    } else {
      var n := |ids| - 1;
      BulkDeleteRemovesListed(c, ids[..n]);
      BulkDeleteUnfold(c, ids);
      assert c - Listed(ids[..n]) - {ids[n]} == c - (Listed(ids[..n]) + {ids[n]});
    }
  }

  /**
    `bulkDelete` counts each record that existed once: absent ids are ignored
    and a repeated id counts once.
  */
  lemma {:induction false} BulkDeleteCountsRemoved(c: Collection, ids: seq<Id>)
    ensures BulkDeleteStep(c, ids).result == |c.Keys * Listed(ids)|
  {
    if ids != [] {
      var n := |ids| - 1;
      var x := ids[n];
      var listed := Listed(ids[..n]);
      BulkDeleteCountsRemoved(c, ids[..n]);
      BulkDeleteRemovesListed(c, ids[..n]);
      BulkDeleteUnfold(c, ids);
      if x in c && x !in listed {
        assert c.Keys * (listed + {x}) == (c.Keys * listed) + {x};
      } else {
        assert c.Keys * (listed + {x}) == c.Keys * listed;
      }
    }
  }

  /** The count never exceeds the length of the list, and no listed id remains afterwards. */
  lemma BulkDeleteCountBounded(c: Collection, ids: seq<Id>)
    ensures BulkDeleteStep(c, ids).result <= |ids|
    ensures forall id :: id in ids ==> id !in BulkDeleteStep(c, ids).docs
  {
    BulkDeleteCountsRemoved(c, ids);
    BulkDeleteRemovesListed(c, ids);
    ListedIdsAtMostLength(ids);
    SubsetSize(c.Keys * Listed(ids), Listed(ids));
  }

  lemma {:induction false} SubsetSize(a: set<Id>, b: set<Id>)
    requires a <= b
    ensures |a| <= |b|
    decreases |b|
  {
    if a != {} {
      var x :| x in a;
      SubsetSize(a - {x}, b - {x});
    }
  }

  lemma InPrefixGrows(ids: seq<Id>, n: nat)
    requires n < |ids|
    ensures forall id :: id in ids[..n + 1] <==> id in ids[..n] || id == ids[n]
  {
    assert ids[..n + 1] == ids[..n] + [ids[n]];
  }

  /** The document `create` stores for a creatable request under `id`. */
  function NewDoc(data: Value, id: Id, now: Timestamp, serverTime: Timestamp): Doc
    requires Creatable(data)
  {
    Doc(id, serverTime, serverTime, CreateAttributes(data, now).value)
  }

  /** `k` is the index of the first `docData` whose building threw, or the length when none did. */
  predicate FirstError(built: seq<Result<Attributes, StoreError>>, k: nat)
  {
    && k <= |built|
    && (forall j :: 0 <= j < k ==> built[j].Ok?)
    && (k < |built| ==> built[k].Err?)
  }

  /** The first error of a list, seen from the list without its last entry. */
  lemma FirstErrorOfPrefix(built: seq<Result<Attributes, StoreError>>, k: nat) returns (k': nat)
    requires built != [] && FirstError(built, k)
    ensures k' == (if k < |built| then k else |built| - 1)
    ensures FirstError(built[..|built| - 1], k')
  {
    k' := if k < |built| then k else |built| - 1;
    assert forall j :: 0 <= j < |built| - 1 ==> built[..|built| - 1][j] == built[j];
  }

  /** One step of the store loop, the last entry after all the others. */
  lemma BulkStoreLastStep(c: Collection, built: seq<Result<Attributes, StoreError>>, ids: seq<Id>, serverTime: Timestamp)
    requires |ids| == |built| && built != []
    ensures var n := |built| - 1;
      var before := BulkStoreStep(c, built[..n], ids[..n], serverTime);
      var after := BulkStoreStep(c, built, ids, serverTime);
      && (before.result.Err? ==> after == before)
      && (after.result.Ok? <==> before.result.Ok? && built[n].Ok?)
      && (after.result.Ok? ==>
            var d := Doc(ids[n], serverTime, serverTime, built[n].value);
            after.docs == before.docs[ids[n] := d] && after.result.value == before.result.value + [MapDocToBus(d)])
      && (after.result.Err? ==> after.docs == before.docs)
  {
  }

  /** The store loop succeeds exactly when no `docData` threw. */
  lemma {:induction false} BulkStoreOkIff(
    c: Collection, built: seq<Result<Attributes, StoreError>>, ids: seq<Id>, serverTime: Timestamp, k: nat)
    requires |ids| == |built| && FirstError(built, k)
    ensures BulkStoreStep(c, built, ids, serverTime).result.Ok? <==> k == |built|
  {
    if built != [] {
      var n := |built| - 1;
      var k' := FirstErrorOfPrefix(built, k);
      BulkStoreOkIff(c, built[..n], ids[..n], serverTime, k');
      BulkStoreLastStep(c, built, ids, serverTime);
    }
  }

  /** The documents the store loop writes for `docData` that was all built. */
  function StoredDocs(built: seq<Result<Attributes, StoreError>>, ids: seq<Id>, serverTime: Timestamp): (r: seq<Doc>)
    requires |ids| == |built| && forall j :: 0 <= j < |built| ==> built[j].Ok?
    ensures |r| == |built|
    ensures forall j :: 0 <= j < |r| ==> r[j] == Doc(ids[j], serverTime, serverTime, built[j].value)
  {
    seq(|built|, j requires 0 <= j < |built| => Doc(ids[j], serverTime, serverTime, built[j].value))
  }

  /** The collection after storing `docs` one after the other, each under the id at the same position. */
  function Inserted(c: Collection, ids: seq<Id>, docs: seq<Doc>): Collection
    requires |ids| == |docs|
    decreases |ids|
  {
    if ids == [] then c
    else
      var n := |ids| - 1;
      Inserted(c, ids[..n], docs[..n])[ids[n] := docs[n]]
  }

  /** When every `docData` was built, the store loop succeeds and writes all the documents in order. */
  lemma {:induction false} BulkStoreAllOk(
    c: Collection, built: seq<Result<Attributes, StoreError>>, ids: seq<Id>, serverTime: Timestamp)
    requires |ids| == |built| && forall j :: 0 <= j < |built| ==> built[j].Ok?
    ensures BulkStoreStep(c, built, ids, serverTime).result.Ok?
    ensures BulkStoreStep(c, built, ids, serverTime).docs == Inserted(c, ids, StoredDocs(built, ids, serverTime))
  {
    if built != [] {
      var n := |built| - 1;
      assert forall j :: 0 <= j < n ==> built[..n][j] == built[j];
      BulkStoreAllOk(c, built[..n], ids[..n], serverTime);
      BulkStoreLastStep(c, built, ids, serverTime);
      assert StoredDocs(built, ids, serverTime)[..n] == StoredDocs(built[..n], ids[..n], serverTime);
    }
  }

  /** Once an entry has failed, later entries are not attempted: longer prefixes end in the same state with the same error. */
  lemma {:induction false} BulkStoreErrorStays(
    c: Collection, built: seq<Result<Attributes, StoreError>>, ids: seq<Id>, serverTime: Timestamp, m: nat)
    requires |ids| == |built| && m <= |built|
    requires BulkStoreStep(c, built[..m], ids[..m], serverTime).result.Err?
    ensures BulkStoreStep(c, built, ids, serverTime) == BulkStoreStep(c, built[..m], ids[..m], serverTime)
    decreases |built|
  {
    if m < |built| {
      var n := |built| - 1;
      assert built[..n][..m] == built[..m] && ids[..n][..m] == ids[..m];
      BulkStoreErrorStays(c, built[..n], ids[..n], serverTime, m);
    } else {
      assert built[..m] == built && ids[..m] == ids;
    }
  }

  /** Storing entry `i` after the first `i`: either the loop goes on with one more bus, or it ends there with that error. */
  lemma BulkStoreAdvance(
    c: Collection, built: seq<Result<Attributes, StoreError>>, ids: seq<Id>, serverTime: Timestamp,
    i: nat, results: seq<Bus>, s: Step<Result<Bus, StoreError>>)
    requires |ids| == |built| && i < |built|
    requires BulkStoreStep(c, built[..i], ids[..i], serverTime).result == Ok(results)
    requires s == StoreStep(BulkStoreStep(c, built[..i], ids[..i], serverTime).docs, built[i], ids[i], serverTime)
    ensures s.result.Ok? ==> BulkStoreStep(c, built[..i + 1], ids[..i + 1], serverTime) == Step(s.docs, Ok(results + [s.result.value]))
    ensures s.result.Err? ==> BulkStoreStep(c, built, ids, serverTime) == Step(s.docs, Err(s.result.error))
  {
    assert built[..i + 1][..i] == built[..i] && ids[..i + 1][..i] == ids[..i];
    if s.result.Err? {
      BulkStoreErrorStays(c, built, ids, serverTime, i + 1);
    }
  }

  /** The store loop leaves the records as storing the documents before the first error leaves them. */
  lemma BulkStoreDocs(
    c: Collection, built: seq<Result<Attributes, StoreError>>, ids: seq<Id>, serverTime: Timestamp, k: nat)
    requires |ids| == |built| && FirstError(built, k)
    ensures forall j :: 0 <= j < k ==> built[..k][j] == built[j]
    ensures BulkStoreStep(c, built, ids, serverTime).docs == Inserted(c, ids[..k], StoredDocs(built[..k], ids[..k], serverTime))
  {
    assert forall j :: 0 <= j < k ==> built[..k][j] == built[j];
    if k == |built| {
      assert built[..k] == built && ids[..k] == ids;
      BulkStoreAllOk(c, built, ids, serverTime);
    } else {
      BulkStoreAllOk(c, built[..k], ids[..k], serverTime);
      BulkStoreDocsAtError(c, built, ids, serverTime, k);
    }
  }

  /** When entry `k` fails, the records are those the first `k` entries leave. */
  lemma BulkStoreDocsAtError(
    c: Collection, built: seq<Result<Attributes, StoreError>>, ids: seq<Id>, serverTime: Timestamp, k: nat)
    requires |ids| == |built| && k < |built| && FirstError(built, k)
    ensures BulkStoreStep(c, built, ids, serverTime).docs == BulkStoreStep(c, built[..k], ids[..k], serverTime).docs
  {
    var upTo, upToIds := built[..k + 1], ids[..k + 1];
    assert upTo[..k] == built[..k] && upToIds[..k] == ids[..k] && upTo[k] == built[k];
    BulkStoreLastStep(c, upTo, upToIds, serverTime);
    BulkStoreErrorStays(c, built, ids, serverTime, k + 1);
  }

  /** Storing documents adds exactly their ids. */
  lemma {:induction false} InsertedKeys(c: Collection, ids: seq<Id>, docs: seq<Doc>)
    requires |ids| == |docs|
    ensures forall id :: id in Inserted(c, ids, docs) <==> id in c || id in ids
    decreases |ids|
  {
    if ids != [] {
      var n := |ids| - 1;
      InsertedKeys(c, ids[..n], docs[..n]);
      InPrefixGrows(ids, n);
      assert ids[..n + 1] == ids;
    }
  }

  /** Storing documents under ids not yet stored leaves every old record as it was. */
  lemma {:induction false} InsertedKeepsOld(c: Collection, ids: seq<Id>, docs: seq<Doc>)
    requires |ids| == |docs|
    requires forall m :: 0 <= m < |ids| ==> ids[m] !in c
    ensures forall id :: id in c ==> id in Inserted(c, ids, docs) && Inserted(c, ids, docs)[id] == c[id]
    decreases |ids|
  {
    if ids != [] {
      var n := |ids| - 1;
      assert forall m :: 0 <= m < n ==> ids[..n][m] == ids[m];
      InsertedKeepsOld(c, ids[..n], docs[..n]);
    }
  }

  /** A document whose id no later document reuses is the one stored under that id. */
  lemma {:induction false} InsertedStores(c: Collection, ids: seq<Id>, docs: seq<Doc>, j: nat)
    requires |ids| == |docs| && j < |ids|
    requires forall m :: j < m < |ids| ==> ids[m] != ids[j]
    ensures ids[j] in Inserted(c, ids, docs) && Inserted(c, ids, docs)[ids[j]] == docs[j]
    decreases |ids|
  {
    var n := |ids| - 1;
    if j < n {
      assert ids[..n][j] == ids[j] && docs[..n][j] == docs[j];
      assert forall m :: j < m < n ==> ids[..n][m] == ids[m];
      InsertedStores(c, ids[..n], docs[..n], j);
    }
  }

  /**
    `bulkCreate` creates the items in order until the first item whose
    creation throws (index `k`, or the length when there is none): the first
    `k` records stay created, earlier records are untouched and nothing after
    `k` is written.
  */
  lemma BulkCreateStopsAtFirstError(
    c: Collection, items: seq<Value>, ids: seq<Id>, now: Timestamp, serverTime: Timestamp, k: nat)
    requires |ids| == |items| && Distinct(ids)
    requires forall j :: 0 <= j < |ids| ==> ids[j] !in c
    requires k <= |items|
    requires forall j :: 0 <= j < k ==> Creatable(items[j])
    requires k < |items| ==> !Creatable(items[k])
    ensures var s := BulkCreateStep(c, items, ids, now, serverTime);
      && (s.result.Ok? <==> k == |items|)
      && (forall id :: id in s.docs <==> id in c || id in ids[..k])
      && (forall id :: id in c ==> s.docs[id] == c[id])
      && (forall j :: 0 <= j < k ==> s.docs[ids[j]] == NewDoc(items[j], ids[j], now, serverTime))
  {
    var built := Built(items, now);
    assert FirstError(built, k);
    BulkStoreOkIff(c, built, ids, serverTime, k);
    BulkStoreDocs(c, built, ids, serverTime, k);
    var prefixIds := ids[..k];
    var docs := StoredDocs(built[..k], prefixIds, serverTime);
    assert forall m :: 0 <= m < k ==> prefixIds[m] == ids[m];
    InsertedKeys(c, prefixIds, docs);
    InsertedKeepsOld(c, prefixIds, docs);
    forall j | 0 <= j < k
      ensures BulkStoreStep(c, built, ids, serverTime).docs[ids[j]] == NewDoc(items[j], ids[j], now, serverTime)
    {
      InsertedStores(c, prefixIds, docs, j);
    }
  }

  /** On success the store loop returns one bus per entry, in input order, each as stored. */
  lemma {:induction false} BulkStoreResultInOrder(
    c: Collection, built: seq<Result<Attributes, StoreError>>, ids: seq<Id>, serverTime: Timestamp)
    requires |ids| == |built| && Distinct(ids)
    ensures var s := BulkStoreStep(c, built, ids, serverTime);
      s.result.Ok? ==>
        && |s.result.value| == |built|
        && forall j :: 0 <= j < |built| ==> ids[j] in s.docs && s.result.value[j] == MapDocToBus(s.docs[ids[j]])
  {
    if built != [] {
      var n := |built| - 1;
      var s := BulkStoreStep(c, built, ids, serverTime);
      BulkStoreResultInOrder(c, built[..n], ids[..n], serverTime);
      BulkStoreLastStep(c, built, ids, serverTime);
      if s.result.Ok? {
        var before := BulkStoreStep(c, built[..n], ids[..n], serverTime);
        var d := Doc(ids[n], serverTime, serverTime, built[n].value);
        assert s.docs == before.docs[ids[n] := d];
        assert s.result.value == before.result.value + [MapDocToBus(d)];
        forall j | 0 <= j < |built|
          ensures ids[j] in s.docs && s.result.value[j] == MapDocToBus(s.docs[ids[j]])
        {
          if j < n {
            assert ids[j] == ids[..n][j] && ids[j] != ids[n];
            assert s.docs[ids[j]] == before.docs[ids[j]];
            assert s.result.value[j] == before.result.value[j];
          } else {
            assert s.docs[ids[j]] == d;
          }
        }
      }
    }
  }

  /** On success `bulkCreate` returns one bus per item, in input order, each as stored. */
  lemma BulkCreateResultInOrder(
    c: Collection, items: seq<Value>, ids: seq<Id>, now: Timestamp, serverTime: Timestamp)
    requires |ids| == |items| && Distinct(ids)
    ensures var s := BulkCreateStep(c, items, ids, now, serverTime);
      s.result.Ok? ==>
        && |s.result.value| == |items|
        && forall j :: 0 <= j < |items| ==> ids[j] in s.docs && s.result.value[j] == MapDocToBus(s.docs[ids[j]])
  {
    BulkStoreResultInOrder(c, Built(items, now), ids, serverTime);
  }

  /** `k` is the index of the first `updateData` whose building threw, or the length when none did. */
  predicate FirstPatchError(prepared: seq<(Id, Result<Patch, StoreError>)>, k: nat)
  {
    && k <= |prepared|
    && (forall j :: 0 <= j < k ==> prepared[j].1.Ok?)
    && (k < |prepared| ==> prepared[k].1.Err?)
  }

  /** The apply loop ends as its first `k` steps leave the store, and fails exactly when some `updateData` threw. */
  lemma {:induction false} BulkApplyStopsAtFirstError(
    c: Collection, prepared: seq<(Id, Result<Patch, StoreError>)>, serverTime: Timestamp, k: nat)
    requires FirstPatchError(prepared, k)
    ensures var s := BulkApplyStep(c, prepared, serverTime);
      && (s.result.Ok? <==> k == |prepared|)
      && (s.result.Ok? ==> s.result.value)
      && s.docs == BulkApplyStep(c, prepared[..k], serverTime).docs
      && BulkApplyStep(c, prepared[..k], serverTime).result == Ok(true)
  {
    if prepared != [] {
      var n := |prepared| - 1;
      var k' := if k <= n then k else n;
      assert forall j :: 0 <= j < n ==> prepared[..n][j] == prepared[j];
      BulkApplyStopsAtFirstError(c, prepared[..n], serverTime, k');
      assert prepared[..n][..k'] == prepared[..k'];
      if k == |prepared| {
        assert prepared[..k] == prepared;
      }
    }
  }

  /**
    `bulkUpdate` applies the updates in order until the first one whose data
    throws (index `k`, or the length when there is none): the store ends as
    the first `k` updates leave it, absent ids are skipped, and success is
    always reported as `true`.
  */
  lemma BulkUpdateStopsAtFirstError(
    c: Collection, updates: seq<(Id, Value)>, now: Timestamp, serverTime: Timestamp, k: nat)
    requires k <= |updates|
    requires forall j :: 0 <= j < k ==> Patchable(updates[j].1)
    requires k < |updates| ==> !Patchable(updates[k].1)
    ensures var s := BulkUpdateStep(c, updates, now, serverTime);
      && (s.result.Ok? <==> k == |updates|)
      && (s.result.Ok? ==> s.result.value)
      && s.docs == BulkUpdateStep(c, updates[..k], now, serverTime).docs
      && BulkUpdateStep(c, updates[..k], now, serverTime).result == Ok(true)
  {
    var prepared := Prepared(updates, now);
    assert FirstPatchError(prepared, k);
    BulkApplyStopsAtFirstError(c, prepared, serverTime, k);
    assert Prepared(updates[..k], now) == prepared[..k];
  }

  /** Once a prefix of the apply loop has failed, longer prefixes end in the same state with the same error. */
  lemma {:induction false} BulkApplyErrorStays(
    c: Collection, prepared: seq<(Id, Result<Patch, StoreError>)>, serverTime: Timestamp, m: nat)
    requires m <= |prepared|
    requires BulkApplyStep(c, prepared[..m], serverTime).result.Err?
    ensures BulkApplyStep(c, prepared, serverTime) == BulkApplyStep(c, prepared[..m], serverTime)
    decreases |prepared|
  {
    if m < |prepared| {
      var n := |prepared| - 1;
      assert prepared[..n][..m] == prepared[..m];
      BulkApplyErrorStays(c, prepared[..n], serverTime, m);
    } else {
      assert prepared[..m] == prepared;
    }
  }

  /** `bulkCreate` is not all-or-nothing: a good item followed by a `null` one throws, and the good one stays stored. */
  lemma BulkCreateIsNotAtomic(c: Collection, good: Value, a: Id, b: Id, now: Timestamp, serverTime: Timestamp)
    requires Creatable(good) && a !in c && b !in c && a != b
    ensures var s := BulkCreateStep(c, [good, Null], [a, b], now, serverTime);
      && s.result.Err?
      && a in s.docs && s.docs != c
      && s.docs == c[a := NewDoc(good, a, now, serverTime)]
  {
    var built := Built([good, Null], now);
    assert built[0].Ok? && built[1].Err?;
    assert FirstError(built, 1);
    BulkStoreOkIff(c, built, [a, b], serverTime, 1);
    BulkStoreDocs(c, built, [a, b], serverTime, 1);
    var docs := StoredDocs(built[..1], [a, b][..1], serverTime);
    assert [a, b][..1] == [a] && [a][..0] == [] && docs[..0] == [];
    assert Inserted(c, [a], docs) == c[a := docs[0]];
  }

  /** `bulkUpdate` is not all-or-nothing either: an update followed by a `null` one throws, and the first update stays applied. */
  lemma BulkUpdateIsNotAtomic(c: Collection, id: Id, data: Value, other: Id, now: Timestamp, serverTime: Timestamp)
    requires Patchable(data)
    ensures var s := BulkUpdateStep(c, [(id, data), (other, Null)], now, serverTime);
      && s.result.Err?
      && s.docs == UpdateStep(c, id, data, now, serverTime).docs
  {
    var prepared := Prepared([(id, data), (other, Null)], now);
    assert prepared[..1][..0] == [] && prepared[..1] == [prepared[0]];
    assert !Patchable(Null);
    assert BulkApplyStep(c, prepared[..1], serverTime).docs == UpdateStep(c, id, data, now, serverTime).docs;
    BulkApplyStopsAtFirstError(c, prepared, serverTime, 1);
  }

  /** One step of the apply loop, the last pair after all the others. */
  lemma BulkApplyLastStep(c: Collection, prepared: seq<(Id, Result<Patch, StoreError>)>, serverTime: Timestamp)
    requires prepared != []
    ensures var n := |prepared| - 1;
      var before := BulkApplyStep(c, prepared[..n], serverTime);
      var after := BulkApplyStep(c, prepared, serverTime);
      && (before.result.Err? ==> after == before)
      && (before.result.Ok? ==> after.docs == ApplyStep(before.docs, prepared[n].0, prepared[n].1, serverTime).docs)
  {
  }

  /** The apply loop never adds or removes a record, and leaves every record it does not name as it was. */
  lemma {:induction false} BulkApplyTouchesOnlyNamedRecords(
    c: Collection, prepared: seq<(Id, Result<Patch, StoreError>)>, serverTime: Timestamp)
    ensures var s := BulkApplyStep(c, prepared, serverTime);
      && s.docs.Keys == c.Keys
      && forall id :: id in c && (forall j :: 0 <= j < |prepared| ==> prepared[j].0 != id) ==> s.docs[id] == c[id]
  {
    if prepared != [] {
      var n := |prepared| - 1;
      assert forall j :: 0 <= j < n ==> prepared[..n][j] == prepared[j];
      BulkApplyTouchesOnlyNamedRecords(c, prepared[..n], serverTime);
      BulkApplyLastStep(c, prepared, serverTime);
    }
  }

  /** `bulkUpdate` never adds or removes a record, and leaves every record it does not name as it was. */
  lemma BulkUpdateTouchesOnlyNamedRecords(
    c: Collection, updates: seq<(Id, Value)>, now: Timestamp, serverTime: Timestamp)
    ensures var s := BulkUpdateStep(c, updates, now, serverTime);
      && s.docs.Keys == c.Keys
      && forall id :: id in c && (forall j :: 0 <= j < |updates| ==> updates[j].0 != id) ==> s.docs[id] == c[id]
  {
    var prepared := Prepared(updates, now);
    BulkApplyTouchesOnlyNamedRecords(c, prepared, serverTime);
    assert forall j :: 0 <= j < |updates| ==> prepared[j].0 == updates[j].0;
  }

  // ---------------------------------------------------------------------------
  // The adapter itself

  /**
    `documents.map(mapDocToBus)` over a listing of the whole collection: one
    bus per stored document, each as stored, no id twice.
  */
  function MapListing(c: Collection, ids: seq<Id>): (buses: seq<Bus>)
    requires WellKeyed(c)
    requires forall i :: 0 <= i < |ids| ==> ids[i] in c
    requires forall i, j :: 0 <= i < j < |ids| ==> ids[i] != ids[j]
    ensures |buses| == |ids|
    ensures forall i :: 0 <= i < |buses| ==> buses[i].id in c && buses[i] == MapDocToBus(c[buses[i].id])
    ensures forall i, j :: 0 <= i < j < |buses| ==> buses[i].id != buses[j].id
    ensures forall id :: id in ids ==> exists i :: 0 <= i < |buses| && buses[i].id == id
  {
    var buses := seq(|ids|, i requires 0 <= i < |ids| => MapDocToBus(c[ids[i]]));
    assert forall i :: 0 <= i < |ids| ==> buses[i].id == ids[i] by {
      forall i | 0 <= i < |ids|
        ensures buses[i].id == ids[i]
      {
        assert buses[i] == MapDocToBus(c[ids[i]]);
      }
    }
    buses
  }

  /** The statements of `update` that build `updateData`: the timestamp, then each truthy field, then the coordinate pair when a location is given. */
  method BuildUpdateData(data: Value, now: Timestamp) returns (updateData: Result<Patch, StoreError>)
    ensures updateData == UpdateAttributes(data, now)
  {
    if Nullish(data) {
      return Err(TypeError("data is not an object"));
    }
    var patch := Patch(None, None, None, None, None, now);
    if Truthy(Prop(data, "busNumber")) { patch := patch.(busNumber := Some(Prop(data, "busNumber"))); }
    if Truthy(Prop(data, "route")) { patch := patch.(route := Some(Prop(data, "route"))); }
    if Truthy(Prop(data, "capacity")) { patch := patch.(capacity := Some(Prop(data, "capacity"))); }
    if Truthy(Prop(data, "status")) { patch := patch.(status := Some(Prop(data, "status"))); }
    var currentLocation := Prop(data, "currentLocation");
    if Truthy(currentLocation) {
      var coordinates := Prop(currentLocation, "coordinates");
      if Nullish(coordinates) {
        return Err(TypeError("coordinates is undefined"));
      }
      patch := patch.(position := Some((Index(coordinates, 0), Index(coordinates, 1))));
    }
    updateData := Ok(patch);
  }

  /** `listDocuments`: the ids of the stored documents, each once, in an order the store chooses. */
  method ListDocuments(c: Collection) returns (ids: seq<Id>)
    ensures |ids| == |c|
    ensures forall i :: 0 <= i < |ids| ==> ids[i] in c
    ensures forall i, j :: 0 <= i < j < |ids| ==> ids[i] != ids[j]
    ensures forall id :: id in c ==> id in ids
  {
    ids := [];
    var remaining := c.Keys;
    while remaining != {}
      invariant remaining <= c.Keys
      invariant |ids| + |remaining| == |c|
      invariant forall i :: 0 <= i < |ids| ==> ids[i] in c && ids[i] !in remaining
      invariant forall i, j :: 0 <= i < j < |ids| ==> ids[i] != ids[j]
      invariant forall id :: id in c && id !in remaining ==> id in ids
      decreases remaining
    {
      var id :| id in remaining;
      ids := ids + [id];
      remaining := remaining - {id};
    }
  }

  /** The adapter over one document collection, which it owns. */
  class BusStore {
    var docs: Collection

    ghost predicate Valid()
      reads this
    {
      WellKeyed(docs)
    }

    constructor ()
      ensures Valid() && docs == map[]
    {
      docs := map[];
    }

    /** `findAll`: every stored document once, mapped; the store's listing order is left open. */
    method FindAll() returns (buses: seq<Bus>)
      requires Valid()
      ensures |buses| == |docs|
      ensures forall i :: 0 <= i < |buses| ==> buses[i].id in docs && buses[i] == MapDocToBus(docs[buses[i].id])
      ensures forall i, j :: 0 <= i < j < |buses| ==> buses[i].id != buses[j].id
      ensures forall id :: id in docs ==> exists i :: 0 <= i < |buses| && buses[i].id == id
    {
      var ids := ListDocuments(docs);
      buses := MapListing(docs, ids);
    }

    /** `findById`: the mapped document, or `None` for an absent id. */
    method FindById(id: Id) returns (bus: Option<Bus>)
      requires Valid()
      ensures bus == Lookup(docs, id)
      ensures bus.Some? ==> bus.value.id == id
    {
      if id !in docs {
        return None;
      }
      bus := Some(MapDocToBus(docs[id]));
    }

    /** `create`, with `newId` the fresh id `ID.unique()` hands out. */
    method Create(data: Value, newId: Id, now: Timestamp, serverTime: Timestamp)
      returns (created: Result<Bus, StoreError>)
      requires Valid() && newId !in docs
      modifies this
      ensures Valid()
      ensures Step(docs, created) == CreateStep(old(docs), data, newId, now, serverTime)
    {
      var docData := CreateAttributes(data, now);
      if docData.Err? {
        return Err(docData.error);
      }
      var doc := Doc(newId, serverTime, serverTime, docData.value);
      docs := docs[newId := doc];
      created := Ok(MapDocToBus(doc));
    }

    /** `update`: `updateData` is built field by field, then merged into the stored document if there is one. */
    method Update(id: Id, data: Value, now: Timestamp, serverTime: Timestamp)
      returns (updated: Result<Option<Bus>, StoreError>)
      requires Valid()
      modifies this
      ensures Valid()
      ensures Step(docs, updated) == UpdateStep(old(docs), id, data, now, serverTime)
    {
      var updateData := BuildUpdateData(data, now);
      if updateData.Err? {
        return Err(updateData.error);
      }
      if id !in docs {
        return Ok(None);
      }
      var doc := docs[id].(updatedAt := serverTime, attrs := Merge(docs[id].attrs, updateData.value));
      docs := docs[id := doc];
      updated := Ok(Some(MapDocToBus(doc)));
    }

    /** `remove`: `true` when the document existed and is now gone, `false` when it was absent. */
    method Remove(id: Id) returns (removed: bool)
      requires Valid()
      modifies this
      ensures Valid()
      ensures Step(docs, removed) == RemoveStep(old(docs), id)
    {
      if id !in docs {
        assert docs - {id} == docs;
        return false;
      }
      docs := docs - {id};
      removed := true;
    }

    /** `bulkCreate`: `create` item after item, under the fresh ids `newIds`; an error propagates and earlier items stay. */
    method BulkCreate(items: seq<Value>, newIds: seq<Id>, now: Timestamp, serverTime: Timestamp)
      returns (created: Result<seq<Bus>, StoreError>)
      requires Valid()
      requires |newIds| == |items| && Distinct(newIds)
      requires forall j :: 0 <= j < |newIds| ==> newIds[j] !in docs
      modifies this
      ensures Valid()
      ensures Step(docs, created) == BulkCreateStep(old(docs), items, newIds, now, serverTime)
    {
      ghost var built := Built(items, now);
      var results: seq<Bus> := [];
      for i := 0 to |items|
        invariant Valid()
        invariant Step(docs, Ok(results)) == BulkStoreStep(old(docs), built[..i], newIds[..i], serverTime)
        invariant forall id :: id in docs ==> id in old(docs) || id in newIds[..i]
      {
        assert newIds[i] !in docs by {
          forall j | 0 <= j < i ensures newIds[..i][j] != newIds[i] { }
        }
        InPrefixGrows(newIds, i);
        var result := Create(items[i], newIds[i], now, serverTime);
        BulkStoreAdvance(old(docs), built, newIds, serverTime, i, results, Step(docs, result));
        if result.Err? {
          return Err(result.error);
        }
        results := results + [result.value];
      }
      assert built[..|items|] == built && newIds[..|items|] == newIds;
      created := Ok(results);
    }

    /** `bulkUpdate`: `update` pair after pair; absent ids are skipped, an error propagates and earlier updates stay. */
    method BulkUpdate(updates: seq<(Id, Value)>, now: Timestamp, serverTime: Timestamp)
      returns (done: Result<bool, StoreError>)
      requires Valid()
      modifies this
      ensures Valid()
      ensures Step(docs, done) == BulkUpdateStep(old(docs), updates, now, serverTime)
    {
      ghost var prepared := Prepared(updates, now);
      for i := 0 to |updates|
        invariant Valid()
        invariant Step(docs, Ok(true)) == BulkApplyStep(old(docs), prepared[..i], serverTime)
      {
        assert prepared[..i + 1][..i] == prepared[..i];
        var (id, data) := updates[i];
        var result := Update(id, data, now, serverTime);
        if result.Err? {
          BulkApplyErrorStays(old(docs), prepared, serverTime, i + 1);
          return Err(result.error);
        }
      }
      assert prepared[..|updates|] == prepared;
      done := Ok(true);
    }

    /** `bulkDelete`: `remove` id after id, counting the removals that found their document. */
    method BulkDelete(ids: seq<Id>) returns (count: nat)
      requires Valid()
      modifies this
      ensures Valid()
      ensures Step(docs, count) == BulkDeleteStep(old(docs), ids)
    {
      count := 0;
      for i := 0 to |ids|
        invariant Valid()
        invariant Step(docs, count) == BulkDeleteStep(old(docs), ids[..i])
      {
        assert ids[..i + 1][..i] == ids[..i];
        var deleted := Remove(ids[i]);
        if deleted {
          count := count + 1;
        }
      }
      assert ids[..|ids|] == ids;
    }
  }
}
