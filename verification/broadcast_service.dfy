/**
 * The four broadcast handlers of routes.py with the HTTP layer removed:
 * each is a pure function from the store and the decoded request to the
 * store after the request and the outcome it reports. A handler that fails
 * returns before the commit, so the store it reports is the one it got.
 */
module BroadcastService {
  import opened Wrappers
  import opened Sequences
  import opened RequestValues
  import opened Validators
  import opened Timestamps
  import opened BroadcastStore

  /** A decoded JSON request body: the keys present and their values. */
  type Payload = map<string, Json>

  /** The fields create requires, in the order their presence is checked. */
  const RequiredFields: seq<string> := ["latitude", "longitude", "minyanType", "earliestTime", "latestTime"]

  const TimeOrderMsg := "latestTime must be after earliestTime"
  const RadiusMsg := "Radius must be non-negative"

  function MissingFieldMsg(field: string): string {
    "Missing required field: " + field
  }

  function MissingParameterMsg(name: string): string {
    "Missing required parameter: " + name
  }

  /** Create's message for a timestamp that does not parse; it does not say which field. */
  function TimeFormatMsg(complaint: string): string {
    "Invalid time format: " + complaint
  }

  function EarliestFormatMsg(complaint: string): string {
    "Invalid earliestTime format: " + complaint
  }

  function LatestFormatMsg(complaint: string): string {
    "Invalid latestTime format: " + complaint
  }

  /** The position of the first of `fields` that `data` lacks, if any. */
  function FirstMissing(data: Payload, fields: seq<string>): (r: Option<nat>)
    ensures r.None? <==> forall i :: 0 <= i < |fields| ==> fields[i] in data
    ensures r.Some? ==> r.value < |fields| && fields[r.value] !in data
    ensures r.Some? ==> forall j :: 0 <= j < r.value ==> fields[j] in data
  {
    if fields == [] then None
    else if fields[0] !in data then Some(0)
    else
      match FirstMissing(data, fields[1..])
      case None => None
      case Some(i) => Some(i + 1)
  }

  // ---------------------------------------------------------------- create

  /** Every check of the create handler passes for `data`. */
  predicate CreateAccepted(data: Payload, fromIso: IsoParser) {
    && "latitude" in data && "longitude" in data && "minyanType" in data
    && "earliestTime" in data && "latestTime" in data
    && LatitudeInRange(data["latitude"]) && LongitudeInRange(data["longitude"])
    && IsMinyanType(data["minyanType"])
    && ParseTime(data["earliestTime"], fromIso).Parsed?
    && ParseTime(data["latestTime"], fromIso).Parsed?
    && ParseTime(data["earliestTime"], fromIso).at < ParseTime(data["latestTime"], fromIso).at
  }

  /** `b` is the active record of the request `data`, stored under `id`. */
  predicate RecordsRequest(b: Broadcast, id: Id, data: Payload, fromIso: IsoParser) {
    && "latitude" in data && "longitude" in data && "minyanType" in data
    && "earliestTime" in data && "latestTime" in data
    && b.id == id
    && data["latitude"] == JNumber(Real(b.latitude))
    && data["longitude"] == JNumber(Real(b.longitude))
    && data["minyanType"] == JString(b.minyanType)
    && ParseTime(data["earliestTime"], fromIso) == Parsed(b.earliestTime)
    && ParseTime(data["latestTime"], fromIso) == Parsed(b.latestTime)
    && b.active
  }

  /** `store'` is `store` with one record added under the previously unused key `id`. */
  predicate InsertedUnder(store: Store, store': Store, id: Id) {
    && id !in store
    && store'.Keys == store.Keys + {id}
    && forall k :: k in store ==> store'[k] == store[k]
  }

  /**
   * `Broadcasts.post`: presence of the required fields in order, then the
   * coordinates, the prayer type, the two timestamps (earliest first) and
   * their strict order; on success one record with `active = true` is
   * inserted under `newId`, the identifier the model layer generates.
   */
  function Create(store: Store, data: Payload, fromIso: IsoParser, newId: Id): (r: Step<Id>)
    requires newId !in store
    ensures !r.outcome.NotFound?
    ensures r.outcome.Ok? <==> CreateAccepted(data, fromIso)
    ensures !r.outcome.Ok? ==> r.store == store
    ensures r.outcome.Ok? ==> r.outcome.value == newId && InsertedUnder(store, r.store, newId)
    ensures r.outcome.Ok? ==> newId in r.store && RecordsRequest(r.store[newId], newId, data, fromIso)
  {
    match FirstMissing(data, RequiredFields)
    case Some(i) => Step(store, ValidationError(MissingFieldMsg(RequiredFields[i])))
    case None =>
      assert forall i :: 0 <= i < |RequiredFields| ==> RequiredFields[i] in data;
      assert RequiredFields[0] in data && RequiredFields[1] in data && RequiredFields[2] in data;
      assert RequiredFields[3] in data && RequiredFields[4] in data;
      var coordinates := ValidateCoordinates(data["latitude"], data["longitude"]);
      if !coordinates.ok then Step(store, ValidationError(coordinates.message))
      else
        var minyanType := ValidateMinyanType(data["minyanType"]);
        if !minyanType.ok then Step(store, ValidationError(minyanType.message))
        else
          var earliest := ParseTime(data["earliestTime"], fromIso);
          if earliest.Unparsable? then Step(store, ValidationError(TimeFormatMsg(earliest.complaint)))
          else
            var latest := ParseTime(data["latestTime"], fromIso);
            if latest.Unparsable? then Step(store, ValidationError(TimeFormatMsg(latest.complaint)))
            else if latest.at <= earliest.at then Step(store, ValidationError(TimeOrderMsg))
            else
              var b := Broadcast(newId, data["latitude"].f.x, data["longitude"].f.x,
                                 data["minyanType"].s, earliest.at, latest.at, true);
              Step(store[newId := b], Ok(newId))
  }

  // ----------------------------------------------------------- find nearby

  /** The query string of a nearby search; an argument that is not a float arrives as None. */
  datatype NearbyQuery = NearbyQuery(
    latitude: Option<Float>,
    longitude: Option<Float>,
    radius: Option<Float>,
    minyanType: Option<string>)

  /** `calculate_distance(lat1, lon1, lat2, lon2)`, left uninterpreted. */
  type Distance = (real, real, real, real) -> real

  /** `scan` lists every key of `store` exactly once: the order the store returns its rows in. */
  predicate IsScanOf(store: Store, scan: seq<Id>) {
    && (forall i :: 0 <= i < |scan| ==> scan[i] in store)
    && (forall k :: k in store ==> k in scan)
    && (forall i, j :: 0 <= i < j < |scan| ==> scan[i] != scan[j])
  }

  /** The records of `store` in the order `scan` lists them. */
  function Rows(store: Store, scan: seq<Id>): (rows: seq<Broadcast>)
    requires forall i :: 0 <= i < |scan| ==> scan[i] in store
    ensures |rows| == |scan|
    ensures forall i :: 0 <= i < |scan| ==> rows[i] == store[scan[i]]
  {
    if scan == [] then [] else [store[scan[0]]] + Rows(store, scan[1..])
  }

  /** The prayer-type filter in force: only a present, non-empty argument filters. */
  function TypeFilter(q: NearbyQuery): Option<string> {
    if q.minyanType.Some? && q.minyanType.value != "" then q.minyanType else None
  }

  /** Every parameter check of the nearby search passes for `q`. */
  predicate QueryAccepted(q: NearbyQuery) {
    && q.latitude.Some? && q.longitude.Some? && q.radius.Some?
    && LatitudeInRange(JNumber(q.latitude.value))
    && LongitudeInRange(JNumber(q.longitude.value))
    && !Below(q.radius.value, 0.0)
    && (TypeFilter(q).Some? ==> IsMinyanType(JString(TypeFilter(q).value)))
  }

  /** `b` belongs in the answer to `q`: active, of the requested type, within the radius. */
  predicate Matches(q: NearbyQuery, distance: Distance, b: Broadcast) {
    && q.latitude.Some? && q.latitude.value.Real?
    && q.longitude.Some? && q.longitude.value.Real?
    && q.radius.Some?
    && b.active
    && (TypeFilter(q).Some? ==> b.minyanType == TypeFilter(q).value)
    && AtMost(distance(q.latitude.value.x, q.longitude.value.x, b.latitude, b.longitude), q.radius.value)
  }

  /**
   * `NearbyBroadcasts.get`: the required parameters in order, the
   * coordinates, the sign of the radius and the optional type; then the
   * store's active rows of that type, in scan order, kept when their
   * distance from the query point is at most the radius. It returns no
   * store: the search never writes.
   */
  function FindNearby(store: Store, scan: seq<Id>, q: NearbyQuery, distance: Distance): (r: Outcome<seq<Broadcast>>)
    requires IsScanOf(store, scan)
    ensures !r.NotFound?
    ensures r.Ok? <==> QueryAccepted(q)
    ensures q.latitude.None? ==> r == ValidationError(MissingParameterMsg("latitude"))
    ensures q.latitude.Some? && q.longitude.None? ==> r == ValidationError(MissingParameterMsg("longitude"))
    ensures q.latitude.Some? && q.longitude.Some? && q.radius.None? ==>
              r == ValidationError(MissingParameterMsg("radius"))
    ensures r.Ok? ==> forall i :: 0 <= i < |r.value| ==> r.value[i] in store.Values && Matches(q, distance, r.value[i])
    ensures r.Ok? ==> forall k :: k in store && Matches(q, distance, store[k]) ==> store[k] in r.value
  {
    if q.latitude.None? then ValidationError(MissingParameterMsg("latitude"))
    else if q.longitude.None? then ValidationError(MissingParameterMsg("longitude"))
    else if q.radius.None? then ValidationError(MissingParameterMsg("radius"))
    else
      var coordinates := ValidateCoordinates(JNumber(q.latitude.value), JNumber(q.longitude.value));
      if !coordinates.ok then ValidationError(coordinates.message)
      else if Below(q.radius.value, 0.0) then ValidationError(RadiusMsg)
      else if TypeFilter(q).Some? && !ValidateMinyanType(JString(TypeFilter(q).value)).ok then
        ValidationError(ValidateMinyanType(JString(TypeFilter(q).value)).message)
      else Ok(NearbyRows(store, scan, q, distance))
  }

  /** Every record of `store` occurs in its scan, and nothing else does. */
  lemma RowsAreTheStore(store: Store, scan: seq<Id>)
    requires IsScanOf(store, scan)
    ensures forall b :: b in Rows(store, scan) ==> b in store.Values
    ensures forall k :: k in store ==> store[k] in Rows(store, scan)
  {
  }

  /** The scan of lines 105-119: the store's candidate rows, then the distance test. */
  function NearbyRows(store: Store, scan: seq<Id>, q: NearbyQuery, distance: Distance): (rows: seq<Broadcast>)
    requires IsScanOf(store, scan)
    requires q.latitude.Some? && q.latitude.value.Real?
    requires q.longitude.Some? && q.longitude.value.Real?
    requires q.radius.Some?
    ensures forall i :: 0 <= i < |rows| ==> rows[i] in store.Values && Matches(q, distance, rows[i])
    ensures forall k :: k in store && Matches(q, distance, store[k]) ==> store[k] in rows
  {
    var candidates := Filter(Rows(store, scan), Candidate(q));
    var rows := Filter(candidates, Near(q, distance));
    NearbyRowsExact(store, scan, q, distance, candidates, rows);
    rows
  }

  /** The two-stage selection keeps exactly the matching records of the store. */
  lemma NearbyRowsExact(store: Store, scan: seq<Id>, q: NearbyQuery, distance: Distance,
                        candidates: seq<Broadcast>, rows: seq<Broadcast>)
    requires IsScanOf(store, scan)
    requires q.latitude.Some? && q.latitude.value.Real?
    requires q.longitude.Some? && q.longitude.value.Real?
    requires q.radius.Some?
    requires candidates == Filter(Rows(store, scan), Candidate(q))
    requires rows == Filter(candidates, Near(q, distance))
    ensures forall b :: b in rows ==> b in store.Values && Matches(q, distance, b)
    ensures forall k :: k in store && Matches(q, distance, store[k]) ==> store[k] in rows
  {
    RowsAreTheStore(store, scan);
    forall b | b in rows
      ensures b in store.Values && Matches(q, distance, b)
    {
      FilterMember(candidates, Near(q, distance), b);
      FilterMember(Rows(store, scan), Candidate(q), b);
    }
    forall k | k in store && Matches(q, distance, store[k])
      ensures store[k] in rows
    {
      FilterKeeps(Rows(store, scan), Candidate(q), store[k]);
      FilterKeeps(candidates, Near(q, distance), store[k]);
    }
  }

  /** The query the store runs: active rows, narrowed by type when a filter is in force. */
  function Candidate(q: NearbyQuery): Broadcast -> bool {
    (b: Broadcast) => b.active && (TypeFilter(q).None? || b.minyanType == TypeFilter(q).value)
  }

  /** The distance test of the scan loop. */
  function Near(q: NearbyQuery, distance: Distance): Broadcast -> bool
    requires q.latitude.Some? && q.latitude.value.Real?
    requires q.longitude.Some? && q.longitude.value.Real?
    requires q.radius.Some?
  {
    (b: Broadcast) => AtMost(distance(q.latitude.value.x, q.longitude.value.x, b.latitude, b.longitude), q.radius.value)
  }

  // ---------------------------------------------------------------- update

  /** `data.get('latitude', broadcast.latitude)`. */
  function MergedLatitude(b: Broadcast, data: Payload): Json {
    if "latitude" in data then data["latitude"] else JNumber(Real(b.latitude))
  }

  /** `data.get('longitude', broadcast.longitude)`. */
  function MergedLongitude(b: Broadcast, data: Payload): Json {
    if "longitude" in data then data["longitude"] else JNumber(Real(b.longitude))
  }

  /**
   * `b'` is `b` after the update `data`: the same id, type and flag; the
   * merged coordinates, in range when either was given; each supplied time
   * parsed and each other time kept; and the resulting window non-empty.
   */
  predicate UpdatedAsRequested(b: Broadcast, b': Broadcast, data: Payload, fromIso: IsoParser) {
    && SameIdentity(b, b')
    && MergedLatitude(b, data) == JNumber(Real(b'.latitude))
    && MergedLongitude(b, data) == JNumber(Real(b'.longitude))
    && (("latitude" in data || "longitude" in data) ==>
          LatitudeInRange(JNumber(Real(b'.latitude))) && LongitudeInRange(JNumber(Real(b'.longitude))))
    && (if "earliestTime" in data then ParseTime(data["earliestTime"], fromIso) == Parsed(b'.earliestTime)
        else b'.earliestTime == b.earliestTime)
    && (if "latestTime" in data then ParseTime(data["latestTime"], fromIso) == Parsed(b'.latestTime)
        else b'.latestTime == b.latestTime)
    && b'.earliestTime < b'.latestTime
  }

  /**
   * The coordinate step of an update passes: neither coordinate is given,
   * or the merged pair validates.
   */
  predicate CoordinatesPass(b: Broadcast, data: Payload) {
    ("latitude" in data || "longitude" in data) ==> ValidateCoordinates(MergedLatitude(b, data), MergedLongitude(b, data)).ok
  }

  /** The earliestTime after an update: the parsed value when given, the stored one otherwise. */
  function UpdatedEarliest(b: Broadcast, data: Payload, fromIso: IsoParser): ParseResult {
    if "earliestTime" in data then ParseTime(data["earliestTime"], fromIso) else Parsed(b.earliestTime)
  }

  /** The latestTime after an update: the parsed value when given, the stored one otherwise. */
  function UpdatedLatest(b: Broadcast, data: Payload, fromIso: IsoParser): ParseResult {
    if "latestTime" in data then ParseTime(data["latestTime"], fromIso) else Parsed(b.latestTime)
  }

  /** Some record realises the update `data` of `b`. */
  ghost predicate UpdateAccepted(b: Broadcast, data: Payload, fromIso: IsoParser) {
    exists b' :: UpdatedAsRequested(b, b', data, fromIso)
  }

  /**
   * `BroadcastById.put`: look the record up; merge and validate the
   * coordinates when either is given; parse each given time; check the
   * order of the resulting window; commit. Every failure returns before the
   * commit, so the store is unchanged.
   */
  function Update(store: Store, id: Id, data: Payload, fromIso: IsoParser): (r: Step<()>)
    ensures r.outcome.NotFound? <==> id !in store
    ensures !r.outcome.Ok? ==> r.store == store
    ensures r.outcome.Ok? <==> id in store && UpdateAccepted(store[id], data, fromIso)
    ensures r.outcome.Ok? ==> id in store && r.store.Keys == store.Keys
    ensures r.outcome.Ok? ==> forall k :: k in store && k != id ==> r.store[k] == store[k]
    ensures r.outcome.Ok? ==> id in store && UpdatedAsRequested(store[id], r.store[id], data, fromIso)
  {
    if id !in store then Step(store, NotFound)
    else
      var b := store[id];
      var moved := "latitude" in data || "longitude" in data;
      var latitude := MergedLatitude(b, data);
      var longitude := MergedLongitude(b, data);
      var coordinates := ValidateCoordinates(latitude, longitude);
      if moved && !coordinates.ok then Step(store, ValidationError(coordinates.message))
      else
        var b1 := if moved then b.(latitude := latitude.f.x, longitude := longitude.f.x) else b;
        var earliest := UpdatedEarliest(b, data, fromIso);
        if earliest.Unparsable? then Step(store, ValidationError(EarliestFormatMsg(earliest.complaint)))
        else
          var latest := UpdatedLatest(b, data, fromIso);
          if latest.Unparsable? then Step(store, ValidationError(LatestFormatMsg(latest.complaint)))
          else
            var b2 := b1.(earliestTime := earliest.at, latestTime := latest.at);
            if b2.latestTime <= b2.earliestTime then Step(store, ValidationError(TimeOrderMsg))
            else
              assert UpdatedAsRequested(b, b2, data, fromIso);
              Step(store[id := b2], Ok(()))
  }

  // ---------------------------------------------------------------- delete

  /** `BroadcastById.delete`: a hard delete of the record under `id`. */
  function Delete(store: Store, id: Id): (r: Step<()>)
    ensures id !in store ==> r == Step(store, NotFound)
    ensures id in store ==> r.outcome == Ok(())
    ensures r.store.Keys == store.Keys - {id}
    ensures forall k :: k in r.store ==> r.store[k] == store[k]
  {
    if id !in store then Step(store, NotFound)
    else Step(store - {id}, Ok(()))
  }
}
