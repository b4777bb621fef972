# Minyan Finder core, modelled in Dafny

The Minyan Finder API lets a client post a *broadcast*: a request for a prayer
quorum (a minyan) at a place and within a time window. Other clients search for
active broadcasts near a point. This project models three parts of it.

- **Validators** (`utils.py`). `validate_coordinates` checks that latitude and
  longitude are numbers within range. `validate_minyan_type` checks the prayer
  type: shacharit, mincha or maariv.
- **Broadcast handlers** (`routes.py`). Create, find-nearby, update and delete
  are pure functions over a store `map<Id, Broadcast>`. Each returns the store
  after the request and an outcome: `Ok`, `ValidationError(message)` (HTTP 400)
  or `NotFound` (HTTP 404).
- **DATABASE_URL start-up logic** (`app.py`). The setting is stripped. An empty
  value counts as unset. A `postgres://` scheme is rewritten to
  `postgresql://`. The result decides whether a session factory exists, whether
  the broadcast routes are registered, and what `get_db_session` does.

Some collaborators are not interpreted:

- The great-circle distance is a parameter `(real, real, real, real) -> real`.
- `datetime.fromisoformat` is a parameter from a string to a parse result. The
  result is either an `int` instant or a complaint.
- The engine start is a parameter `string -> bool`.
- The identifier of a new broadcast is a parameter of `Create`. Its
  precondition `newId !in store` is the uniqueness the model layer's id
  generator provides.
- `findNearby` reads the store in an order the database picks. That order is a
  parameter `scan` listing every key once.

Files: `wrappers.dfy` (Option), `sequences.dfy` (order-preserving filter),
`request_values.dfy` (JSON values and Python floats with their comparisons),
`validators.dfy`, `timestamps.dfy`, `broadcast_store.dfy` (record, store,
record invariants), `broadcast_service.dfy` (the four handlers),
`broadcast_properties.dfy` (lemmas relating them), `database_url.dfy`.

Create's timestamp error does not say which field failed: both give
`Invalid time format: <complaint>` (routes.py:42-43). Update's errors do name
the field (routes.py:157, 164).

## Model

| member | source | states |
|---|---|---|
| `Validators.ValidateCoordinates` | utils.py:54-63 | ok exactly when both values are numbers with latitude in [-90, 90] and longitude in [-180, 180], boundaries included. A non-number gets the "must be numbers" message whatever the other value is. Latitude is checked before longitude. The message is empty exactly on success. NaN is rejected (see Findings) |
| `Validators.ValidateCoordinatesAsWritten` | utils.py:54-63 | the validator with the source's `<`/`>` comparisons: ok only for two numbers, the non-number message first, an empty message exactly on success |
| `Validators.AsWrittenAcceptsNaN` | utils.py:57-61 | the source's range checks accept a NaN pair, which is not a latitude in range |
| `Validators.CorrectedAgreesWithoutNaN` | utils.py:54-63 | on every input without NaN, the corrected validator returns the same pair as the source's |
| `Validators.ValidateMinyanType` | utils.py:76-80 | ok exactly for the strings "shacharit", "mincha" and "maariv": case matters, nothing is trimmed, non-strings fail. Every failure carries the one-of message; success carries the empty message |
| `Timestamps.ReplaceZ` | routes.py:40-41 | after `.replace('Z', '+00:00')` no 'Z' is left, and a string without 'Z' is unchanged |
| `Timestamps.ReplaceZAppend` | routes.py:40-41 | the rewrite works one character at a time, so every 'Z' is rewritten, not only a trailing one |
| `Timestamps.TrailingZIsUtc` | routes.py:40-41 | a trailing 'Z' becomes the offset "+00:00" |
| `Timestamps.ParseTime` | routes.py:39-43 | a string is rewritten and handed to the parser, whose answer is the result. A value that is not a string fails with the missing-`replace` complaint |
| `BroadcastService.FirstMissing` | routes.py:23-26 | returns the position of the first absent field, with all earlier fields present, or nothing exactly when every field is present |
| `BroadcastService.Create` | routes.py:16-64 | never reports NotFound. Succeeds exactly when every check passes: all fields present, coordinates in range, a valid type, both times parse, latest strictly after earliest. A failure leaves the store unchanged. A success adds exactly one key, `newId`, which was unused. Every old record is kept. The new record holds the request's coordinates, type and parsed times, with `active = true` |
| `BroadcastService.FindNearby` | routes.py:72-121 | reports a missing latitude, then longitude, then radius. Succeeds exactly when the parameters are accepted: radius not below 0, so 0 is allowed; an empty or absent type means no filter. The answer holds only store records that are active, of the requested type and within the radius (inclusive). It holds every such record. It returns no store, so it cannot write |
| `BroadcastService.NearbyRows` | routes.py:104-119 | the active, type-filtered query followed by the distance loop keeps exactly the matching store records |
| `BroadcastService.RowsAreTheStore` | routes.py:112 | the rows of a full scan are exactly the store's records |
| `BroadcastService.Update` | routes.py:128-172 | NotFound exactly for an unknown id. Every failure leaves the store unchanged. Succeeds exactly when the merged record passes the checks. On success the keys are the same and every other record is unchanged. The updated record keeps its id, type and flag and takes the merged coordinates (in range when either was given). A given time is parsed and an absent one is kept. The resulting window is non-empty |
| `BroadcastService.Delete` | routes.py:178-191 | an unknown id gives NotFound and leaves the store unchanged. A known id gives Ok and removes exactly that key. All other records are unchanged |
| `Sequences.Filter` | routes.py:115-119 | the kept elements all come from the input and satisfy the test, and every input element that satisfies it is kept |
| `Sequences.FilterAppend` | routes.py:115-119 | selection distributes over concatenation, so kept rows stay in scan order |
| `Sequences.FilterTwice` | routes.py:105-119 | filtering in the database and then in the loop equals one filter by both conditions |
| `BroadcastProperties.CreateReportsFirstMissingField` | routes.py:23-26 | the first absent field, in the order latitude, longitude, minyanType, earliestTime, latestTime, is named in the message, and the store is unchanged |
| `BroadcastProperties.CreateChecksCoordinatesFirst` | routes.py:28-31 | with all fields present, invalid coordinates give the validator's message whatever the type and the times |
| `BroadcastProperties.CreateChecksTypeBeforeTimes` | routes.py:33-36 | valid coordinates with an invalid type give the type message before any time is parsed |
| `BroadcastProperties.CreateParsesEarliestFirst` | routes.py:38-43 | an unparsable earliestTime is reported with its complaint before latestTime is looked at |
| `BroadcastProperties.CreateReportsUnparsableLatest` | routes.py:39-43 | with a good earliestTime, an unparsable latestTime is reported with its own complaint and nothing is stored |
| `BroadcastProperties.CreateRejectsUnorderedWindow` | routes.py:45-46 | a latestTime equal to or before earliestTime is refused with the order message, and nothing is stored |
| `BroadcastProperties.CreatePreservesWellFormed` | routes.py:29-56 | create keeps every record in range, of a valid type, with an ordered window, active, and filed under its own id |
| `BroadcastProperties.FindNearbyCheckOrder` | routes.py:90-102 | invalid coordinates are reported first, then a negative radius, then an invalid non-empty type |
| `BroadcastProperties.ZeroRadiusAllowed` | routes.py:95-96 | radius 0 with valid coordinates and no type filter is accepted |
| `BroadcastProperties.EmptyTypeMeansNoFilter` | routes.py:99-109 | an empty minyanType argument gives the same answer as an absent one |
| `BroadcastProperties.FindNearbyInScanOrder` | routes.py:104-121 | the answer is the store's rows in scan order, filtered by "active, of the type, within the radius" |
| `BroadcastProperties.ExactMatchAtRadiusZero` | routes.py:117-119 | an active broadcast at distance 0 from the query point is found with radius 0 |
| `BroadcastProperties.InfiniteRadiusKeepsEveryCandidate` | routes.py:95-119 | a radius of +inf passes the sign check, and the answer is every active row in scan order |
| `BroadcastProperties.NaNRadiusFindsNothing` | routes.py:95-118 | a NaN radius passes the sign check, and then no broadcast is within it: the answer is empty |
| `BroadcastProperties.UpdateMergesLoneLatitude` | routes.py:141-147 | a lone latitude is validated together with the stored longitude, and a failure changes nothing |
| `BroadcastProperties.UpdateMergesLoneLongitude` | routes.py:141-147 | a lone longitude is validated together with the stored latitude, and a failure changes nothing |
| `BroadcastProperties.UpdateLoneLatestAgainstStoredEarliest` | routes.py:159-168 | a lone latestTime succeeds exactly when it is after the stored earliestTime. Otherwise the order message is returned and the store is unchanged. On success only latestTime changes |
| `BroadcastProperties.UpdateLoneEarliestAgainstStoredLatest` | routes.py:152-168 | a lone earliestTime succeeds exactly when it is before the stored latestTime |
| `BroadcastProperties.UpdateChecksCoordinatesFirst` | routes.py:141-147 | invalid merged coordinates are reported whatever the times, and the store is unchanged |
| `BroadcastProperties.UpdateParsesEarliestFirst` | routes.py:152-157 | once the coordinate step passes, an unparsable earliestTime is reported as `Invalid earliestTime format: <complaint>`, whatever latestTime holds, and nothing changes |
| `BroadcastProperties.UpdateReportsUnparsableLatest` | routes.py:159-164 | after an absent or good earliestTime, an unparsable latestTime is reported as `Invalid latestTime format: <complaint>`, and nothing changes |
| `BroadcastProperties.UpdateChecksResultingWindow` | routes.py:166-172 | the order test runs on the resulting window, whichever times were given: latest at or before earliest gets the order message with nothing changed, otherwise the update commits exactly those two times |
| `BroadcastProperties.UpdateKeepsIdentity` | routes.py:140-170 | no update changes any record's id, minyanType or active flag or removes a record. Records under other ids are unchanged |
| `BroadcastProperties.UpdatePreservesWellFormed` | routes.py:141-170 | update keeps every record valid and filed under its own id |
| `BroadcastProperties.DeleteTwiceNotFound` | routes.py:183-191 | after a successful delete, deleting the same id again gives NotFound and changes nothing |
| `BroadcastProperties.DeletePreservesWellFormed` | routes.py:183-189 | delete keeps every remaining record valid |
| `DatabaseConfig.Strip` | app.py:55 | the result is a slice of the input. Everything cut off is whitespace, in the sense of Python's `str.isspace`. The result neither starts nor ends with whitespace |
| `DatabaseConfig.StripUnique` | app.py:55 | only one string meets that description, so it fully specifies stripping |
| `DatabaseConfig.StripSurrounded` | app.py:55 | whitespace around a trimmed string is exactly what stripping removes |
| `DatabaseConfig.StripBlank` | app.py:55-56 | a string made only of whitespace strips to the empty string |
| `DatabaseConfig.StripIdempotent` | app.py:55 | stripping twice is stripping once |
| `DatabaseConfig.ReplaceFirst` | app.py:63 | `replace(pattern, replacement, 1)` splices the replacement in at the first occurrence and leaves a string without an occurrence unchanged |
| `DatabaseConfig.NormalizeDatabaseUrl` | app.py:52-63 | None exactly when the setting is unset or strips to empty. Otherwise the stripped value, with a leading "postgres://" replaced by "postgresql://" and the rest unchanged. The result never starts with "postgres://", is non-empty and has no surrounding whitespace |
| `DatabaseConfig.NormalizeIdempotent` | app.py:62-63 | normalising a normalised URL changes nothing |
| `DatabaseConfig.SurroundingWhitespaceIgnored` | app.py:55-63 | whitespace around the setting is removed before the scheme is examined |
| `DatabaseConfig.ConfigureDatabase` | app.py:52-78 | a session factory exists exactly when the normalised URL exists and the engine starts for it, and it is bound to that URL |
| `DatabaseConfig.GetDbSession` | app.py:81-88 | a session exactly when the routes are registered, that is, when a factory exists. Otherwise the "Database not configured" error |
| `DatabaseConfig.UnsetOrBlankMeansNoDatabase` | app.py:52-59 | an unset or whitespace-only DATABASE_URL leaves no factory and no registered routes, and `get_db_session` fails with its error message |

## Findings

| source | as written | input that shows it | evidently intended | confidence | as-written member | corrected member |
|---|---|---|---|---|---|---|
| utils.py:57-61 | `latitude < -90 or latitude > 90` (and the same for longitude) rejects values outside the range. Every comparison with NaN is false, so NaN passes both checks | latitude = longitude = NaN: the JSON literal `NaN`, which Python's json decoder accepts, or `?latitude=nan` on the nearby search | NaN is rejected like any other value outside [-90, 90] | medium, not executed | `Validators.ValidateCoordinatesAsWritten` (exhibited by `Validators.AsWrittenAcceptsNaN`) | `Validators.ValidateCoordinates` |

The handlers use the corrected validator. Where a NaN coordinate reaches them,
they therefore answer differently from the code as written. The lines for
`BroadcastService.Create`, `BroadcastService.FindNearby` and
`BroadcastService.Update` under "## Left out" say how.

## Left out

- HTTP routing, status codes, JSON shaping and `Broadcast.to_dict` are not modelled. Success bodies ("Broadcast created successfully") are also left out. Outcomes are `Ok` / `ValidationError` / `NotFound`.
- `models.py` is not part of this model. The record's fields come from the constructor call in create. The id generator is replaced by the `newId` parameter.
- The SQLAlchemy session (add, commit, rollback, close, teardown) is not modelled. Neither are the catch-all `except Exception` handlers, and so neither are store faults.
- A request body that is not a JSON object is not modelled; the body is a map from keys to values. For a JSON array or string, `in` tests membership (an element) or a substring. Until a handler indexes the body, it acts like an object whose keys are the field names it contains. Create indexes only after all five names are found (routes.py:24-29), so it reaches the catch-all only when the body contains all five. Otherwise it reports the first missing field: `[]`, `[1]` and `"abc"` all give the missing latitude. Update indexes a field only after finding its name (routes.py:141-164), so it reaches the catch-all only when the body contains one of its four names. Otherwise it commits nothing and answers success when the stored window is ordered (routes.py:166-172): `[]` and `"abc"` do so. A number, boolean or `null` body raises `TypeError` at the first `in` and reaches the catch-all.
- Comparing a timezone-naive with a timezone-aware timestamp raises `TypeError` in the source, which reaches the catch-all. Instants are totally ordered integers, so that failure is not modelled.
- The haversine trigonometry in `calculate_distance` (utils.py:21-40) is floating-point work, so distance is an uninterpreted parameter. No symmetry or metric fact is assumed.
- `datetime.fromisoformat` is an uninterpreted parameter. The `'Z'` rewrite before it is modelled.
- `Timestamps.ParseTime`: for a value that is not a string, Python's complaint names the value's type. The model uses one fixed complaint.
- Python's bool-is-int quirk in the `isinstance` check is not modelled: booleans are `JOther`, so they are not numbers here.
- The order in which the database returns rows is the `scan` parameter. It must list every key exactly once.
- The root and health endpoints, CORS, dotenv loading, the error handlers and `app.run` are not modelled.
- The start-up `print` warnings and `create_engine`/`create_all` are not modelled: whether the engine starts is the `engineStarts` parameter.
- Caching the session in Flask's `g` for the rest of a request is not modelled.
- BroadcastService.Create: a NaN latitude or longitude is refused with the range message. As written (utils.py:57-61), NaN passes validation and the record is stored with NaN coordinates. `Broadcast` holds real coordinates and cannot represent that record. This follows the corrected validator of "## Findings".
- BroadcastService.FindNearby: a NaN query latitude or longitude is refused with the range message. As written, it passes validation, every distance is NaN, `NaN <= radius` is false (routes.py:118), and the answer is `[]`. This follows the corrected validator of "## Findings".
- BroadcastService.Update: NaN merged coordinates are refused with the range message. As written, they pass validation and are committed (routes.py:145-150). This follows the corrected validator of "## Findings".
