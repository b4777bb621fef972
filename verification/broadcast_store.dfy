/**
 * The broadcast record and the store that holds them. The record's fields
 * are those the create handler passes to the `Broadcast` constructor
 * (routes.py:49-56) plus the identifier the model layer assigns.
 */
module BroadcastStore {
  import opened RequestValues
  import opened Validators
  import opened Timestamps

  /** The opaque identifier of a broadcast, as it appears in the request path. */
  type Id = string

  /** A request for a prayer quorum at a place and within a time window. */
  datatype Broadcast = Broadcast(
    id: Id,
    latitude: real,
    longitude: real,
    minyanType: string,
    earliestTime: Instant,
    latestTime: Instant,
    active: bool)

  /** The persisted broadcasts, keyed by identifier. */
  type Store = map<Id, Broadcast>

  /** What a handler reports: success with a value, a 400 with its message, or a 404. */
  datatype Outcome<+T> = Ok(value: T) | ValidationError(message: string) | NotFound

  /** A handler's effect: the store after the request and the outcome reported. */
  datatype Step<+T> = Step(store: Store, outcome: Outcome<T>)

  /** The invariants a broadcast has when it was written by the handlers. */
  predicate ValidBroadcast(b: Broadcast) {
    && LatitudeInRange(JNumber(Real(b.latitude)))
    && LongitudeInRange(JNumber(Real(b.longitude)))
    && IsMinyanType(JString(b.minyanType))
    && b.earliestTime < b.latestTime
    && b.active
  }

  /** Every record sits under its own id and satisfies the record invariants. */
  predicate WellFormed(store: Store) {
    forall k :: k in store ==> store[k].id == k && ValidBroadcast(store[k])
  }

  /** The fields an update may not touch (id, minyanType, active) agree. */
  predicate SameIdentity(b: Broadcast, b': Broadcast) {
    b'.id == b.id && b'.minyanType == b.minyanType && b'.active == b.active
  }
}
