/**
  One bus record in the document collection: the document as stored, the bus
  object the API returns for it (`mapDocToBus`), and the attribute sets that
  `create` and `update` send to the store.
*/
module BusDocuments {
  import opened Wrappers
  import opened JsValues

  /** A document id, as the store assigns it. */
  type Id = string

  /** An ISO-8601 time stamp, kept opaque. */
  type Timestamp = string

  /** The collection's own attributes of a bus document. */
  datatype Attributes = Attributes(
    busNumber: Value,
    route: Value,
    capacity: Value,
    longitude: Value,
    latitude: Value,
    status: Value,
    lastUpdated: Timestamp)

  /** A stored document: the store-managed `$id`, `$createdAt`, `$updatedAt`, and the attributes. */
  datatype Doc = Doc(id: Id, createdAt: Timestamp, updatedAt: Timestamp, attrs: Attributes)

  /** A GeoJSON-style point: `{ type: 'Point', coordinates: [longitude, latitude] }`. */
  datatype Location = Location(kind: string, coordinates: seq<Value>)

  /** The bus object handed back to the API. */
  datatype Bus = Bus(
    id: Id,
    busNumber: Value,
    route: Value,
    capacity: Value,
    currentLocation: Location,
    status: Value,
    lastUpdated: Timestamp,
    createdAt: Timestamp,
    updatedAt: Timestamp)

  /** What a thrown JavaScript TypeError stands for (reading a property of `undefined`, destructuring a non-iterable). */
  datatype StoreError = TypeError(reason: string)

  // ---------------------------------------------------------------------------
  // mapDocToBus

  /** `mapDocToBus`: the document's fields under the API's names, the two scalar coordinates as a longitude-first pair. */
  function MapDocToBus(d: Doc): (b: Bus)
    ensures b.id == d.id && b.createdAt == d.createdAt && b.updatedAt == d.updatedAt
    ensures b.currentLocation.kind == "Point"
    ensures |b.currentLocation.coordinates| == 2
    ensures b.currentLocation.coordinates[0] == d.attrs.longitude
    ensures b.currentLocation.coordinates[1] == d.attrs.latitude
  {
    Bus(d.id, d.attrs.busNumber, d.attrs.route, d.attrs.capacity,
        Location("Point", [d.attrs.longitude, d.attrs.latitude]),
        d.attrs.status, d.attrs.lastUpdated, d.createdAt, d.updatedAt)
  }

  /** Reads a document back from a bus object; defined for the shape `MapDocToBus` produces. */
  function DocOfBus(b: Bus): (r: Option<Doc>)
    ensures r.Some? <==> |b.currentLocation.coordinates| == 2
  {
    if |b.currentLocation.coordinates| != 2 then None
    else
      var attrs := Attributes(b.busNumber, b.route, b.capacity,
                              b.currentLocation.coordinates[0], b.currentLocation.coordinates[1],
                              b.status, b.lastUpdated);
      Some(Doc(b.id, b.createdAt, b.updatedAt, attrs))
  }

  /** The mapping loses nothing, and in particular never swaps longitude and latitude. */
  lemma MapDocToBusLosesNothing(d: Doc)
    ensures DocOfBus(MapDocToBus(d)) == Some(d)
  {
  }

  // ---------------------------------------------------------------------------
  // create: the document data

  /** The coordinates a create request carries: `data.currentLocation.coordinates`, if reading it does not throw. */
  predicate Creatable(data: Value)
  {
    && !Nullish(data)
    && !Nullish(Prop(data, "currentLocation"))
    && Iterable(Prop(Prop(data, "currentLocation"), "coordinates"))
  }

  function Coordinates(data: Value): Value
    requires Creatable(data)
  {
    Prop(Prop(data, "currentLocation"), "coordinates")
  }

  /** The status a new record gets: the request's own when truthy, `'active'` otherwise. */
  function StatusOrActive(status: Value): (r: Value)
    ensures Truthy(r)
    ensures Truthy(status) ==> r == status
    ensures !Truthy(status) ==> r == Str("active")
  {
    if Truthy(status) then status else Str("active")
  }

  /**
    `docData` of `create`: destructuring `data` and `[longitude, latitude]` of
    its coordinates throws on a missing location or non-iterable coordinates;
    otherwise the fields are copied, the status defaults and `lastUpdated` is `now`.
  */
  function CreateAttributes(data: Value, now: Timestamp): (r: Result<Attributes, StoreError>)
    ensures r.Ok? <==> Creatable(data)
    ensures r.Ok? ==>
      && r.value.busNumber == Prop(data, "busNumber")
      && r.value.route == Prop(data, "route")
      && r.value.capacity == Prop(data, "capacity")
      && r.value.status == StatusOrActive(Prop(data, "status"))
      && r.value.lastUpdated == now
    ensures r.Ok? && Coordinates(data).Arr? ==>
      r.value.longitude == Index(Coordinates(data), 0) && r.value.latitude == Index(Coordinates(data), 1)
  {
    if Nullish(data) then Err(TypeError("data is not an object"))
    else
      var currentLocation := Prop(data, "currentLocation");
      if Nullish(currentLocation) then Err(TypeError("currentLocation is undefined"))
      else
        var coordinates := Prop(currentLocation, "coordinates");
        if !Iterable(coordinates) then Err(TypeError("coordinates is not iterable"))
        else
          Ok(Attributes(
            busNumber := Prop(data, "busNumber"),
            route := Prop(data, "route"),
            capacity := Prop(data, "capacity"),
            longitude := Destructure(coordinates, 0),
            latitude := Destructure(coordinates, 1),
            status := StatusOrActive(Prop(data, "status")),
            lastUpdated := now))
  }

  // ---------------------------------------------------------------------------
  // update: the partial data and the merge

  /** `updateData` of `update`: `lastUpdated` always; each other field only when the request's value is truthy. */
  datatype Patch = Patch(
    busNumber: Option<Value>,
    route: Option<Value>,
    capacity: Option<Value>,
    status: Option<Value>,
    position: Option<(Value, Value)>,
    lastUpdated: Timestamp)

  /** A field of the request when it is truthy. */
  function IfTruthy(data: Value, key: string): (r: Option<Value>)
    requires !Nullish(data)
    ensures r.Some? <==> Truthy(Prop(data, key))
    ensures r.Some? ==> r.value == Prop(data, key)
  {
    if Truthy(Prop(data, key)) then Some(Prop(data, key)) else None
  }

  /** Building `updateData` throws when `data` is not an object, or when a truthy location has no coordinates to index. */
  predicate Patchable(data: Value)
  {
    && !Nullish(data)
    && (Truthy(Prop(data, "currentLocation")) ==> !Nullish(Prop(Prop(data, "currentLocation"), "coordinates")))
  }

  /** The patch a request yields: see `Patch`. */
  function UpdateAttributes(data: Value, now: Timestamp): (r: Result<Patch, StoreError>)
    ensures r.Ok? <==> Patchable(data)
    ensures r.Ok? ==> r.value.lastUpdated == now
    ensures r.Ok? ==>
      && r.value.busNumber == IfTruthy(data, "busNumber")
      && r.value.route == IfTruthy(data, "route")
      && r.value.capacity == IfTruthy(data, "capacity")
      && r.value.status == IfTruthy(data, "status")
    ensures r.Ok? ==> (r.value.position.Some? <==> Truthy(Prop(data, "currentLocation")))
    ensures r.Ok? && r.value.position.Some? ==>
      var coordinates := Prop(Prop(data, "currentLocation"), "coordinates");
      r.value.position.value == (Index(coordinates, 0), Index(coordinates, 1))
  {
    if Nullish(data) then Err(TypeError("data is not an object"))
    else
      var currentLocation := Prop(data, "currentLocation");
      if Truthy(currentLocation) && Nullish(Prop(currentLocation, "coordinates")) then
        Err(TypeError("coordinates is undefined"))
      else
        var position :=
          if Truthy(currentLocation) then
            var coordinates := Prop(currentLocation, "coordinates");
            Some((Index(coordinates, 0), Index(coordinates, 1)))
          else None;
        Ok(Patch(IfTruthy(data, "busNumber"), IfTruthy(data, "route"), IfTruthy(data, "capacity"),
                 IfTruthy(data, "status"), position, now))
  }

  function Or(o: Option<Value>, fallback: Value): Value
  {
    if o.Some? then o.value else fallback
  }

  /** What `updateDocument` does to the stored attributes: the patch's fields replace, the rest stay. */
  function Merge(a: Attributes, p: Patch): (r: Attributes)
    ensures r.lastUpdated == p.lastUpdated
    ensures p.busNumber.None? ==> r.busNumber == a.busNumber
    ensures p.route.None? ==> r.route == a.route
    ensures p.capacity.None? ==> r.capacity == a.capacity
    ensures p.status.None? ==> r.status == a.status
    ensures p.position.None? ==> r.longitude == a.longitude && r.latitude == a.latitude
    ensures p.busNumber.Some? ==> r.busNumber == p.busNumber.value
    ensures p.route.Some? ==> r.route == p.route.value
    ensures p.capacity.Some? ==> r.capacity == p.capacity.value
    ensures p.status.Some? ==> r.status == p.status.value
    ensures p.position.Some? ==> r.longitude == p.position.value.0 && r.latitude == p.position.value.1
  {
    var (longitude, latitude) := if p.position.Some? then p.position.value else (a.longitude, a.latitude);
    Attributes(Or(p.busNumber, a.busNumber), Or(p.route, a.route), Or(p.capacity, a.capacity),
               longitude, latitude, Or(p.status, a.status), p.lastUpdated)
  }

  /**
    An update applies exactly the truthy fields of the request: a falsy one
    (a capacity of 0, an empty status) leaves the stored value as it was, and
    a truthy location writes its first coordinate as the longitude and its
    second as the latitude.
  */
  lemma UpdateAppliesTruthyFields(a: Attributes, data: Value, now: Timestamp)
    requires Patchable(data)
    ensures var m := Merge(a, UpdateAttributes(data, now).value);
      && m.lastUpdated == now
      && m.busNumber == (if Truthy(Prop(data, "busNumber")) then Prop(data, "busNumber") else a.busNumber)
      && m.route == (if Truthy(Prop(data, "route")) then Prop(data, "route") else a.route)
      && m.capacity == (if Truthy(Prop(data, "capacity")) then Prop(data, "capacity") else a.capacity)
      && m.status == (if Truthy(Prop(data, "status")) then Prop(data, "status") else a.status)
      && (!Truthy(Prop(data, "currentLocation")) ==> m.longitude == a.longitude && m.latitude == a.latitude)
      && (Truthy(Prop(data, "currentLocation")) ==>
            var coordinates := Prop(Prop(data, "currentLocation"), "coordinates");
            m.longitude == Index(coordinates, 0) && m.latitude == Index(coordinates, 1))
  {
  }

  /** Applying the same update twice gives what applying it once gives. */
  lemma MergeIdempotent(a: Attributes, p: Patch)
    ensures Merge(Merge(a, p), p) == Merge(a, p)
  {
  }
}
