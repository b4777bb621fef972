/**
 * Properties that relate the handlers of `BroadcastService` to each other,
 * to the record invariants of `BroadcastStore`, and to the order in which
 * the source runs its checks.
 */
module BroadcastProperties {
  import opened Wrappers
  import opened Sequences
  import opened RequestValues
  import opened Validators
  import opened Timestamps
  import opened BroadcastStore
  import opened BroadcastService

  // ---------------------------------------------------------------- create

  /** The first absent required field, in the fixed order, is the one reported; nothing is stored. */
  lemma CreateReportsFirstMissingField(store: Store, data: Payload, fromIso: IsoParser, newId: Id, i: nat)
    requires newId !in store
    requires i < |RequiredFields| && RequiredFields[i] !in data
    requires forall j :: 0 <= j < i ==> RequiredFields[j] in data
    ensures Create(store, data, fromIso, newId) == Step(store, ValidationError(MissingFieldMsg(RequiredFields[i])))
  {
  }

  /** With every field present, bad coordinates are reported whatever the type and the times. */
  lemma CreateChecksCoordinatesFirst(store: Store, data: Payload, fromIso: IsoParser, newId: Id)
    requires newId !in store
    requires forall f :: f in RequiredFields ==> f in data
    requires !ValidateCoordinates(data["latitude"], data["longitude"]).ok
    ensures Create(store, data, fromIso, newId)
         == Step(store, ValidationError(ValidateCoordinates(data["latitude"], data["longitude"]).message))
  {
  }

  /** The prayer type is checked after the coordinates and before either time is parsed. */
  lemma CreateChecksTypeBeforeTimes(store: Store, data: Payload, fromIso: IsoParser, newId: Id)
    requires newId !in store
    requires forall f :: f in RequiredFields ==> f in data
    requires ValidateCoordinates(data["latitude"], data["longitude"]).ok
    requires !IsMinyanType(data["minyanType"])
    ensures Create(store, data, fromIso, newId) == Step(store, ValidationError(MinyanTypeMsg))
  {
  }

  /** An unparsable earliestTime is reported before latestTime is looked at. */
  lemma CreateParsesEarliestFirst(store: Store, data: Payload, fromIso: IsoParser, newId: Id)
    requires newId !in store
    requires forall f :: f in RequiredFields ==> f in data
    requires ValidateCoordinates(data["latitude"], data["longitude"]).ok
    requires IsMinyanType(data["minyanType"])
    requires ParseTime(data["earliestTime"], fromIso).Unparsable?
    ensures Create(store, data, fromIso, newId)
         == Step(store, ValidationError(TimeFormatMsg(ParseTime(data["earliestTime"], fromIso).complaint)))
  {
  }

  /** An unparsable latestTime after a good earliestTime is reported with its own complaint. */
  lemma CreateReportsUnparsableLatest(store: Store, data: Payload, fromIso: IsoParser, newId: Id)
    requires newId !in store
    requires forall f :: f in RequiredFields ==> f in data
    requires ValidateCoordinates(data["latitude"], data["longitude"]).ok
    requires IsMinyanType(data["minyanType"])
    requires ParseTime(data["earliestTime"], fromIso).Parsed?
    requires ParseTime(data["latestTime"], fromIso).Unparsable?
    ensures Create(store, data, fromIso, newId)
         == Step(store, ValidationError(TimeFormatMsg(ParseTime(data["latestTime"], fromIso).complaint)))
  {
  }

  /**
   * The order test is strict: a window that ends when it begins, or before,
   * is refused with the order message and nothing is stored.
   */
  lemma CreateRejectsUnorderedWindow(store: Store, data: Payload, fromIso: IsoParser, newId: Id,
                                     earliest: Instant, latest: Instant)
    requires newId !in store
    requires forall f :: f in RequiredFields ==> f in data
    requires ValidateCoordinates(data["latitude"], data["longitude"]).ok
    requires IsMinyanType(data["minyanType"])
    requires ParseTime(data["earliestTime"], fromIso) == Parsed(earliest)
    requires ParseTime(data["latestTime"], fromIso) == Parsed(latest)
    requires latest <= earliest
    ensures Create(store, data, fromIso, newId) == Step(store, ValidationError(TimeOrderMsg))
  {
  }

  /** Create keeps every stored record valid and filed under its own id. */
  lemma CreatePreservesWellFormed(store: Store, data: Payload, fromIso: IsoParser, newId: Id)
    requires newId !in store && WellFormed(store)
    ensures WellFormed(Create(store, data, fromIso, newId).store)
  {
  }

  // ----------------------------------------------------------- find nearby

  /** Parameters are checked in order: coordinates, then the radius sign, then the type. */
  lemma FindNearbyCheckOrder(store: Store, scan: seq<Id>, q: NearbyQuery, distance: Distance)
    requires IsScanOf(store, scan)
    requires q.latitude.Some? && q.longitude.Some? && q.radius.Some?
    ensures var coordinates := ValidateCoordinates(JNumber(q.latitude.value), JNumber(q.longitude.value));
            !coordinates.ok ==> FindNearby(store, scan, q, distance) == ValidationError(coordinates.message)
    ensures var coordinates := ValidateCoordinates(JNumber(q.latitude.value), JNumber(q.longitude.value));
            coordinates.ok && Below(q.radius.value, 0.0) ==> FindNearby(store, scan, q, distance) == ValidationError(RadiusMsg)
    ensures var coordinates := ValidateCoordinates(JNumber(q.latitude.value), JNumber(q.longitude.value));
            coordinates.ok && !Below(q.radius.value, 0.0) && TypeFilter(q).Some? && !IsMinyanType(JString(TypeFilter(q).value))
            ==> FindNearby(store, scan, q, distance) == ValidationError(MinyanTypeMsg)
  {
  }

  /** A radius of zero is allowed; only a negative radius is refused. */
  lemma ZeroRadiusAllowed(store: Store, scan: seq<Id>, q: NearbyQuery, distance: Distance)
    requires IsScanOf(store, scan)
    requires q.latitude.Some? && q.longitude.Some? && q.radius == Some(Real(0.0))
    requires ValidateCoordinates(JNumber(q.latitude.value), JNumber(q.longitude.value)).ok
    requires q.minyanType.None?
    ensures FindNearby(store, scan, q, distance).Ok?
  {
  }

  /** An absent and an empty minyanType argument give the same answer: no type filter. */
  lemma EmptyTypeMeansNoFilter(store: Store, scan: seq<Id>, q: NearbyQuery, distance: Distance)
    requires IsScanOf(store, scan)
    ensures FindNearby(store, scan, q.(minyanType := Some("")), distance)
         == FindNearby(store, scan, q.(minyanType := None), distance)
  {
  }

  /**
   * The answer is the store's rows in scan order with the non-matching
   * ones removed: one order-preserving selection by `Matches`.
   */
  lemma FindNearbyInScanOrder(store: Store, scan: seq<Id>, q: NearbyQuery, distance: Distance)
    requires IsScanOf(store, scan)
    requires QueryAccepted(q)
    ensures FindNearby(store, scan, q, distance) == Ok(Filter(Rows(store, scan), (b: Broadcast) => Matches(q, distance, b)))
  {
    FilterTwice(Rows(store, scan), Candidate(q), Near(q, distance), (b: Broadcast) => Matches(q, distance, b));
  }

  /** A broadcast at the query point itself is found with radius zero (the boundary is inclusive). */
  lemma ExactMatchAtRadiusZero(store: Store, scan: seq<Id>, q: NearbyQuery, distance: Distance, id: Id)
    requires IsScanOf(store, scan)
    requires id in store && store[id].active
    requires q == NearbyQuery(Some(Real(store[id].latitude)), Some(Real(store[id].longitude)), Some(Real(0.0)), None)
    requires ValidateCoordinates(JNumber(Real(store[id].latitude)), JNumber(Real(store[id].longitude))).ok
    requires distance(store[id].latitude, store[id].longitude, store[id].latitude, store[id].longitude) == 0.0
    ensures FindNearby(store, scan, q, distance).Ok?
    ensures store[id] in FindNearby(store, scan, q, distance).value
  {
  }

  /** A NaN radius passes the sign check, then no distance is at most it: the answer is empty. */
  lemma NaNRadiusFindsNothing(store: Store, scan: seq<Id>, q: NearbyQuery, distance: Distance)
    requires IsScanOf(store, scan)
    requires q.latitude.Some? && q.longitude.Some? && q.radius == Some(NaN)
    requires ValidateCoordinates(JNumber(q.latitude.value), JNumber(q.longitude.value)).ok
    requires q.minyanType.None?
    ensures FindNearby(store, scan, q, distance) == Ok([])
  {
    FindNearbyInScanOrder(store, scan, q, distance);
    FilterNone(Rows(store, scan), (b: Broadcast) => Matches(q, distance, b));
  }

  /** An infinite radius passes the sign check and keeps every active row of the requested type. */
  lemma InfiniteRadiusKeepsEveryCandidate(store: Store, scan: seq<Id>, q: NearbyQuery, distance: Distance)
    requires IsScanOf(store, scan)
    requires q.latitude.Some? && q.longitude.Some? && q.radius == Some(PosInf)
    requires ValidateCoordinates(JNumber(q.latitude.value), JNumber(q.longitude.value)).ok
    requires q.minyanType.None?
    ensures FindNearby(store, scan, q, distance) == Ok(Filter(Rows(store, scan), Candidate(q)))
  {
    var candidates := Filter(Rows(store, scan), Candidate(q));
    var near := Near(q, distance);
    assert LatitudeInRange(JNumber(q.latitude.value)) && LongitudeInRange(JNumber(q.longitude.value));
    forall i | 0 <= i < |candidates|
      ensures near(candidates[i])
    {
      var b := candidates[i];
      assert AtMost(distance(q.latitude.value.x, q.longitude.value.x, b.latitude, b.longitude), PosInf);
    }
    FilterAll(candidates, near);
    assert NearbyRows(store, scan, q, distance) == Filter(candidates, near);
    assert FindNearby(store, scan, q, distance) == Ok(NearbyRows(store, scan, q, distance));
  }

  // ---------------------------------------------------------------- update

  /** A lone latitude is validated together with the stored longitude. */
  lemma UpdateMergesLoneLatitude(store: Store, id: Id, data: Payload, fromIso: IsoParser)
    requires id in store
    requires "latitude" in data && "longitude" !in data
    requires !ValidateCoordinates(data["latitude"], JNumber(Real(store[id].longitude))).ok
    ensures Update(store, id, data, fromIso)
         == Step(store, ValidationError(ValidateCoordinates(data["latitude"], JNumber(Real(store[id].longitude))).message))
  {
  }

  /** A lone longitude is validated together with the stored latitude. */
  lemma UpdateMergesLoneLongitude(store: Store, id: Id, data: Payload, fromIso: IsoParser)
    requires id in store
    requires "longitude" in data && "latitude" !in data
    requires !ValidateCoordinates(JNumber(Real(store[id].latitude)), data["longitude"]).ok
    ensures Update(store, id, data, fromIso)
         == Step(store, ValidationError(ValidateCoordinates(JNumber(Real(store[id].latitude)), data["longitude"]).message))
  {
  }

  /** A lone latestTime is compared with the stored earliestTime. */
  lemma UpdateLoneLatestAgainstStoredEarliest(store: Store, id: Id, data: Payload, fromIso: IsoParser, t: Instant)
    requires id in store
    requires data.Keys == {"latestTime"}
    requires ParseTime(data["latestTime"], fromIso) == Parsed(t)
    ensures var r := Update(store, id, data, fromIso);
            (r.outcome.Ok? <==> store[id].earliestTime < t)
            && (t <= store[id].earliestTime ==> r == Step(store, ValidationError(TimeOrderMsg)))
            && (r.outcome.Ok? ==> r.store == store[id := store[id].(latestTime := t)])
  {
  }

  /** A lone earliestTime is compared with the stored latestTime. */
  lemma UpdateLoneEarliestAgainstStoredLatest(store: Store, id: Id, data: Payload, fromIso: IsoParser, t: Instant)
    requires id in store
    requires data.Keys == {"earliestTime"}
    requires ParseTime(data["earliestTime"], fromIso) == Parsed(t)
    ensures var r := Update(store, id, data, fromIso);
            (r.outcome.Ok? <==> t < store[id].latestTime)
            && (store[id].latestTime <= t ==> r == Step(store, ValidationError(TimeOrderMsg)))
  {
  }

  /** Coordinates are checked before either time is parsed. */
  lemma UpdateChecksCoordinatesFirst(store: Store, id: Id, data: Payload, fromIso: IsoParser)
    requires id in store
    requires "latitude" in data || "longitude" in data
    requires !ValidateCoordinates(MergedLatitude(store[id], data), MergedLongitude(store[id], data)).ok
    ensures Update(store, id, data, fromIso)
         == Step(store, ValidationError(ValidateCoordinates(MergedLatitude(store[id], data), MergedLongitude(store[id], data)).message))
  {
  }

  /**
   * With the coordinate step passed, an unparsable earliestTime is reported
   * under its own name, whatever latestTime holds; nothing changes.
   */
  lemma UpdateParsesEarliestFirst(store: Store, id: Id, data: Payload, fromIso: IsoParser)
    requires id in store
    requires CoordinatesPass(store[id], data)
    requires UpdatedEarliest(store[id], data, fromIso).Unparsable?
    ensures Update(store, id, data, fromIso)
         == Step(store, ValidationError(EarliestFormatMsg(UpdatedEarliest(store[id], data, fromIso).complaint)))
  {
  }

  /** After a good or absent earliestTime, an unparsable latestTime is reported under its own name. */
  lemma UpdateReportsUnparsableLatest(store: Store, id: Id, data: Payload, fromIso: IsoParser)
    requires id in store
    requires CoordinatesPass(store[id], data)
    requires UpdatedEarliest(store[id], data, fromIso).Parsed?
    requires UpdatedLatest(store[id], data, fromIso).Unparsable?
    ensures Update(store, id, data, fromIso)
         == Step(store, ValidationError(LatestFormatMsg(UpdatedLatest(store[id], data, fromIso).complaint)))
  {
  }

  /**
   * The order test runs on the resulting window, whichever times were given:
   * latest at or before earliest is refused and nothing changes; otherwise
   * the update commits with exactly those two times.
   */
  lemma UpdateChecksResultingWindow(store: Store, id: Id, data: Payload, fromIso: IsoParser, earliest: Instant, latest: Instant)
    requires id in store
    requires CoordinatesPass(store[id], data)
    requires UpdatedEarliest(store[id], data, fromIso) == Parsed(earliest)
    requires UpdatedLatest(store[id], data, fromIso) == Parsed(latest)
    ensures latest <= earliest ==> Update(store, id, data, fromIso) == Step(store, ValidationError(TimeOrderMsg))
    ensures earliest < latest ==>
              var r := Update(store, id, data, fromIso);
              r.outcome.Ok? && r.store[id].earliestTime == earliest && r.store[id].latestTime == latest
  {
  }

  /** An update never changes a record's id, type or flag, and never touches another record. */
  lemma UpdateKeepsIdentity(store: Store, id: Id, data: Payload, fromIso: IsoParser, k: Id)
    requires k in store
    ensures k in Update(store, id, data, fromIso).store
    ensures SameIdentity(store[k], Update(store, id, data, fromIso).store[k])
    ensures k != id ==> Update(store, id, data, fromIso).store[k] == store[k]
  {
  }

  /** Update keeps every stored record valid and filed under its own id. */
  lemma UpdatePreservesWellFormed(store: Store, id: Id, data: Payload, fromIso: IsoParser)
    requires WellFormed(store)
    ensures WellFormed(Update(store, id, data, fromIso).store)
  {
  }

  // ---------------------------------------------------------------- delete

  /** Deleting twice: the second request finds nothing and changes nothing. */
  lemma DeleteTwiceNotFound(store: Store, id: Id)
    requires id in store
    ensures var once := Delete(store, id);
            once.outcome.Ok? && id !in once.store && Delete(once.store, id) == Step(once.store, NotFound)
  {
  }

  /** Delete keeps every remaining record valid and filed under its own id. */
  lemma DeletePreservesWellFormed(store: Store, id: Id)
    requires WellFormed(store)
    ensures WellFormed(Delete(store, id).store)
  {
  }
}
