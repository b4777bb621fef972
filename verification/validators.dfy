/**
 * The two validators of utils.py: the coordinate range check and the
 * prayer-type membership check. Each returns the source's
 * `(is_valid, error_message)` pair.
 */
module Validators {
  import opened RequestValues

  /** The `(is_valid, error_message)` pair returned by both validators. */
  datatype Check = Check(ok: bool, message: string)

  const NotNumbersMsg := "Latitude and longitude must be numbers"
  const LatitudeRangeMsg := "Latitude must be between -90 and 90"
  const LongitudeRangeMsg := "Longitude must be between -180 and 180"

  /** The accepted prayer types, in the order the error message lists them. */
  const MinyanTypes: seq<string> := ["shacharit", "mincha", "maariv"]
  const MinyanTypeMsg := "Minyan type must be one of: shacharit, mincha, maariv"

  /** The documented latitude domain: a number in [-90, 90]. */
  predicate LatitudeInRange(v: Json) {
    v.JNumber? && v.f.Real? && -90.0 <= v.f.x && v.f.x <= 90.0
  }

  /** The documented longitude domain: a number in [-180, 180]. */
  predicate LongitudeInRange(v: Json) {
    v.JNumber? && v.f.Real? && -180.0 <= v.f.x && v.f.x <= 180.0
  }

  /**
   * `validate_coordinates` exactly as written: the type check, then
   * `latitude < -90 or latitude > 90`, then the same for longitude. Both
   * comparisons are false for NaN, so NaN passes the range checks.
   */
  function ValidateCoordinatesAsWritten(latitude: Json, longitude: Json): (r: Check)
    ensures r.ok <==> r.message == ""
    ensures r.ok ==> latitude.JNumber? && longitude.JNumber?
    ensures !latitude.JNumber? || !longitude.JNumber? ==> r.message == NotNumbersMsg
  {
    if !latitude.JNumber? || !longitude.JNumber? then Check(false, NotNumbersMsg)
    else if Below(latitude.f, -90.0) || Above(latitude.f, 90.0) then Check(false, LatitudeRangeMsg)
    else if Below(longitude.f, -180.0) || Above(longitude.f, 180.0) then Check(false, LongitudeRangeMsg)
    else Check(true, "")
  }

  /** The source's range checks let a NaN coordinate pair through. */
  lemma AsWrittenAcceptsNaN()
    ensures ValidateCoordinatesAsWritten(JNumber(NaN), JNumber(NaN)).ok
    ensures !LatitudeInRange(JNumber(NaN))
  {
  }

  /**
   * `validate_coordinates` with the range checks read as "lies in the
   * interval", which rejects NaN with the range message. On every input
   * without NaN it agrees with the code as written (lemma
   * `CorrectedAgreesWithoutNaN`). The service handlers use this one.
   */
  function ValidateCoordinates(latitude: Json, longitude: Json): (r: Check)
    ensures r.ok <==> LatitudeInRange(latitude) && LongitudeInRange(longitude)
    ensures r.ok <==> r.message == ""
    ensures !latitude.JNumber? || !longitude.JNumber? ==> r.message == NotNumbersMsg
    ensures latitude.JNumber? && longitude.JNumber? && !LatitudeInRange(latitude) ==>
              r.message == LatitudeRangeMsg
    ensures longitude.JNumber? && LatitudeInRange(latitude) && !LongitudeInRange(longitude) ==>
              r.message == LongitudeRangeMsg
  {
    if !latitude.JNumber? || !longitude.JNumber? then Check(false, NotNumbersMsg)
    else if !Between(latitude.f, -90.0, 90.0) then Check(false, LatitudeRangeMsg)
    else if !Between(longitude.f, -180.0, 180.0) then Check(false, LongitudeRangeMsg)
    else Check(true, "")
  }

  /** Away from NaN the corrected validator is the source's validator. */
  lemma CorrectedAgreesWithoutNaN(latitude: Json, longitude: Json)
    requires latitude != JNumber(NaN) && longitude != JNumber(NaN)
    ensures ValidateCoordinates(latitude, longitude) == ValidateCoordinatesAsWritten(latitude, longitude)
  {
  }

  /** A JSON value that names one of the three prayer types, spelled exactly. */
  predicate IsMinyanType(v: Json) {
    v == JString("shacharit") || v == JString("mincha") || v == JString("maariv")
  }

  /**
   * `validate_minyan_type`: membership in the three-element list, compared
   * with Python `==`, so case matters, nothing is trimmed and a non-string
   * never matches.
   */
  function ValidateMinyanType(minyanType: Json): (r: Check)
    ensures r.ok <==> IsMinyanType(minyanType)
    ensures r.ok <==> r.message == ""
    ensures !r.ok ==> r.message == MinyanTypeMsg
  {
    if !(minyanType.JString? && minyanType.s in MinyanTypes) then Check(false, MinyanTypeMsg)
    else Check(true, "")
  }
}
