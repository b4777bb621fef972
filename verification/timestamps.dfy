/**
 * Timestamps as the handlers see them. `datetime.fromisoformat` is not
 * interpreted: it is a parameter from text to a point on a totally ordered
 * time line, or a complaint. The `.replace('Z', '+00:00')` step the
 * handlers apply before it is modelled.
 */
module Timestamps {
  import opened RequestValues

  /** A point in time; the order of `int` is the order of the time line. */
  type Instant = int

  /** What `datetime.fromisoformat` does with a string: a value, or a `ValueError` text. */
  datatype ParseResult = Parsed(at: Instant) | Unparsable(complaint: string)

  /** `datetime.fromisoformat`, left uninterpreted. */
  type IsoParser = string -> ParseResult

  /** The suffix written in place of every 'Z' before parsing. */
  const UtcOffset := "+00:00"

  /** The complaint raised when the request value is not a string (it has no `replace`). */
  const NotAStringComplaint := "object has no attribute 'replace'"

  /**
   * `s.replace('Z', '+00:00')`: EVERY 'Z' is rewritten, not only a trailing
   * one, so the parser never sees a 'Z'.
   */
  function ReplaceZ(s: string): (r: string)
    ensures forall i :: 0 <= i < |r| ==> r[i] != 'Z'
    ensures (forall i :: 0 <= i < |s| ==> s[i] != 'Z') ==> r == s
  {
    if s == [] then []
    else (if s[0] == 'Z' then UtcOffset else [s[0]]) + ReplaceZ(s[1..])
  }

  /** The rewrite works character by character, so it distributes over concatenation. */
  lemma {:induction false} ReplaceZAppend(s: string, t: string)
    ensures ReplaceZ(s + t) == ReplaceZ(s) + ReplaceZ(t)
  {
    if s == [] {
      assert s + t == t;
    } else {
      assert (s + t)[1..] == s[1..] + t;
      ReplaceZAppend(s[1..], t);
    }
  }

  /** A trailing 'Z' becomes the explicit UTC offset "+00:00". */
  lemma TrailingZIsUtc(s: string)
    ensures ReplaceZ(s + "Z") == ReplaceZ(s) + UtcOffset
  {
    ReplaceZAppend(s, "Z");
  }

  /**
   * `datetime.fromisoformat(v.replace('Z', '+00:00'))` on a request value:
   * a string is rewritten and parsed; any other value fails, as the source's
   * `AttributeError` does.
   */
  function ParseTime(v: Json, fromIso: IsoParser): (r: ParseResult)
    ensures v.JString? ==> r == fromIso(ReplaceZ(v.s))
    ensures !v.JString? ==> r == Unparsable(NotAStringComplaint)
  {
    match v
    case JString(s) => fromIso(ReplaceZ(s))
    case _ => Unparsable(NotAStringComplaint)
  }
}
