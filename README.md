# Audit-log read path of the IT Litigation System

This project models the read path of the audit-log service, a FastAPI application over MongoDB. The request `GET /audit-logs/` works in four steps:

- It turns up to five optional query parameters into a filter document: `filename`, `status_id`, `pid`, `start_date` and `end_date`.
- It asks the collection for the matching records, newest `created_at` first, skipping `skip` of them and keeping at most `limit`.
- It decodes each stored record into the response shape with `audit_logs_helper`.
- It returns the decoded list.

The pydantic models that describe the entries are modelled too, together with what "validates as this model" means for a raw value.

Modules:

- `Wrappers` (wrappers.dfy): the `Option` and `Result` types.
- `Bson` (bson.dfy):
  - the kinds of raw value the stored audit records use: strings, dates, ObjectIds, null and nested documents;
  - resolution of a dotted path (`session.status.status_id`);
  - Python's `str()` of an identifier;
  - the order in which MongoDB sorts field values.
- `Schemas` (schemas.dfy, for schemas.py): the pydantic models as datatypes, each with a validator from a raw value and an encoder back to one.
- `Models` (models.dfy, for models.py): the three decoding helpers.
  - A subscript on a missing key is a `Failure` that carries the Python exception it stands for.
  - The two date defaults use `now`, which is passed in.
- `Filters` (filters.dfy, for main.py:86-99):
  - the filter document is a map from dotted paths to conditions;
  - `BuildFilter` builds it key by key, as the endpoint does;
  - `CompileFilter` states which keys it holds;
  - `Matches` says what a filter means of a record, and `Satisfies` gives the parameters' meaning read directly.
- `Listing` (listing.dfy, for main.py:101-105):
  - the cursor is a function of the collection, the filter, `skip`, `limit` and the search function: select, then sort by `created_at` descending, then drop `skip`, then take `limit`;
  - `DecodeAll` decodes a page;
  - `ListAuditLogs` is the endpoint's body. It builds the filter, takes the cursor and hands it to `DecodePage`, the decoding loop, which appends to `documents` one record at a time.

Several environment details are modelled as values:

- MongoDB's `$regex` search is a parameter, `Matcher`, which maps (pattern, options, subject) to whether the pattern is found. The source passes the user's text to `$regex` unescaped, so filename and PID searches are pattern searches. `LiteralSearch` is what such a search amounts to for an ASCII pattern without metacharacters: a substring search that ignores ASCII case.
- MongoDB applies `sort` before `skip` and `limit`, whatever their order in the call chain. `Cursor` does the same.
- Dates are integers (instants).
- The collection is a sequence of records.

## Model

| member | source | states |
|---|---|---|
| Bson.ObjectIdStringInjective | models.py:22 | `str()` of an ObjectId is 24 characters long, and distinct ObjectIds give distinct `id` strings |
| Bson.KeyLeTotalPreorder | main.py:102 | the order MongoDB sorts `created_at` values by is reflexive, total and transitive |
| Bson.MissingSortsBelowDates | main.py:102 | a missing or null `created_at` sorts strictly below every date |
| Schemas.ParseStatus | schemas.py:5-7 | `DocumentStatus` validates exactly when `status_id` and `message` are both strings, and it then carries them |
| Schemas.ParseSession | schemas.py:9-11 | `DocumentSession` validates exactly when `PID` is a string and `status` validates as `DocumentStatus`, and it then carries both |
| Schemas.ParseAuditLogsBase | schemas.py:13-18 | `AuditLogsBase` (and so `AuditLogsCreate`) validates exactly when `filename` is a string and `session` validates, and it then carries both |
| Schemas.ParseAuditLogs | schemas.py:20-23 | `AuditLogs` validates exactly when the base fields validate, `id` is a string and both dates are dates, and it then carries all five fields |
| Schemas.ParseAuditLogsUpdate | schemas.py:25-27 | `AuditLogsUpdate` validates exactly when the value is a document whose `filename` is absent, null or a string and whose `session` is absent, null or a valid `DocumentSession`; each field is then carried, or None when unset |
| Schemas.AuditLogsUpdateRoundTrip | schemas.py:25-27 | an encoded `AuditLogsUpdate`, unset fields written as null, validates back to itself |
| Schemas.ParseErrorResponse | schemas.py:43-46 | `ErrorResponse` validates exactly when `error` is a string, `detail` is absent, null or a string, and `timestamp` is absent or a date; `detail` then defaults to None and `timestamp` to the current time |
| Schemas.SessionRoundTrip | schemas.py:9-11 | an encoded `DocumentSession` validates back to itself |
| Schemas.AuditLogsRoundTrip | schemas.py:20-23 | an encoded `AuditLogs` validates back to itself |
| Schemas.ErrorResponseRoundTrip | schemas.py:43-46 | an encoded `ErrorResponse` validates back to itself |
| Models.Get | models.py:8-9 | a subscript succeeds exactly when the value is a document holding the key, and yields that field; otherwise it raises KeyError (missing key) or TypeError (not a document) |
| Models.GetOr | models.py:25-26 | `document.get(key, default)` is the stored field when the key is present and the default otherwise |
| Models.StatusHelper | models.py:5-10 | the status part decodes exactly when the value is a document holding `status_id` and `message`, keeps exactly those two fields, and otherwise raises for `status_id` first, then `message` |
| Models.SessionHelper | models.py:12-17 | the session part decodes exactly when `PID` and `status` are present and the status decodes; it keeps exactly `PID` and the decoded status, and otherwise raises for `PID`, then `status`, then the status part's error |
| Models.StatusHelperIdempotent | models.py:5-10 | decoding a decoded status again gives the same status |
| Models.SessionHelperIdempotent | models.py:12-17 | decoding a decoded session again gives the same session |
| Models.AuditLogsHelper | models.py:19-27 | a decoded record has exactly the keys `id`, `filename`, `session`, `created_at` and `updated_at`; `session` has exactly `PID` and `status`; `status` has exactly `status_id` and `message`; `id` is a string |
| Models.SuccessMeansDecodable | models.py:5-27 | if decoding succeeds, all seven required paths are present |
| Models.FailureIsFirstFailure | models.py:5-27 | a failed decoding reports the error of the first required path that cannot be resolved, in Python's evaluation order |
| Models.HelperFailsOnFirstMissing | models.py:5-27 | decoding succeeds exactly when `_id`, `filename`, `session`, `PID`, `status`, `status_id` and `message` are all present; otherwise it fails with the first missing one, and no default is substituted |
| Models.HelperCopiesFields | models.py:21-27 | on success, `id` is `str(_id)`; `filename`, `PID`, `status_id` and `message` are copied unchanged; each date is copied when present and is `now` when absent; nothing else is kept |
| Models.HelperOutputConforms | schemas.py:20-23 | a decoded record validates as `AuditLogs` exactly when the copied fields are strings and any stored dates are dates, and it then carries the record's values |
| Filters.DateBounds | main.py:93-98 | `$gte` is present exactly when `start_date` is given and `$lte` exactly when `end_date` is given, each holding its date |
| Filters.CompileFilter | main.py:86-99 | the filter has only the four known keys; each key is present exactly when its parameter is truthy (dates: either bound given); filename and PID get a case-insensitive `$regex`, status id gets equality |
| Filters.BuildFilter | main.py:86-99 | building key by key, as the endpoint does, yields exactly `CompileFilter` |
| Filters.AddingConditionNarrows | main.py:86-99 | adding a key to a filter keeps exactly the records that match the old filter and the new condition |
| Filters.MatchesCompiledSatisfies | main.py:86-99 | a record that matches the compiled filter satisfies every given parameter |
| Filters.SatisfiesMatchesCompiled | main.py:86-99 | a record that satisfies every given parameter matches the compiled filter |
| Filters.CompiledFilterMeaning | main.py:86-99 | a record matches the compiled filter if and only if its filename and PID are found by the searches, its status id is equal, and `start <= created_at <= end` for the bounds given |
| Filters.NoCriteriaMatchesEverything | main.py:86-92 | with no parameter given, or the text parameters empty, the filter is empty and every record matches |
| Filters.InvertedRangeMatchesNothing | main.py:93-99 | a start date after the end date lets no record through |
| Filters.MoreCriteriaNarrow | main.py:86-99 | supplying more parameters never enlarges the set of matching records |
| Filters.FragmentIsFound | main.py:88 | a case-insensitive literal search finds any stretch of the subject that equals the pattern up to ASCII case |
| Filters.ReportIsLiteral | main.py:88 | the search text `report` is an ASCII literal pattern, so `LiteralSearch` gives its meaning |
| Filters.FilenameSearchExample | main.py:87-88 | a case-insensitive search for `report` finds `Report_Final.pdf` |
| Filters.FilenameFilterExample | main.py:87-88 | the compiled `filename=report` filter, searched literally, lets a record named `Report_Final.pdf` through |
| Listing.Select | main.py:102 | the selected records are exactly the collection's matching records, with their multiplicities |
| Listing.Insert | main.py:102 | insertion yields the input plus exactly the inserted element, as a multiset, and puts either that element or the old first one at the front |
| Listing.InsertSorted | main.py:102 | inserting into a sequence sorted by the key, largest first, keeps it sorted |
| Listing.SortBy | main.py:102 | the sort returns a permutation of its input, ordered by the key descending |
| Listing.SortByCreatedDesc | main.py:102 | the records are ordered by `created_at` descending, as a permutation of the input |
| Listing.Page | main.py:102 | a page has `min(limit, max(0, n - skip))` elements, and element `i` is input element `skip + i` |
| Listing.AdjacentPages | main.py:102 | two adjacent pages of one sorted result together form the larger page of it: nothing is repeated or skipped within that one result |
| Listing.PageKeepsOrder | main.py:102 | a page of a sorted sequence is sorted |
| Listing.Cursor | main.py:102 | the cursor yields at most `limit` records, each a matching record of the collection, in `created_at` descending order |
| Listing.CursorOfAllMatching | main.py:102 | when every record matches, the cursor is a page of the whole collection sorted newest first |
| Listing.DecodeAll | main.py:101-105 | a page decodes exactly when every record does, element by element in page order; otherwise it fails with the first record's error |
| Listing.DecodeAllFailsAt | main.py:101-105 | the first record that fails to decode decides the failure of the whole page |
| Listing.DecodeAllSucceeds | main.py:101-105 | element-wise successful decodings form the decoded page |
| Listing.DecodePage | main.py:101-104 | the loop that appends each decoded record returns exactly `DecodeAll` of the cursor: the records decoded in order, or the first record's error; every decoded record has the response shape |
| Listing.ListAuditLogs | main.py:86-105 | the endpoint returns the decoding of the cursor for the compiled filter, with at most `limit` entries, each of the response shape |
| Listing.ValidateResponse | main.py:73 | the response check of the returned list against `List[AuditLogs]` passes exactly when every entry validates as `AuditLogs`, and then yields those entries in order |
| Listing.ResponseValidIffWellTyped | main.py:73 | a decoded page passes the response check exactly when every one of its records is well typed (`Models.WellTyped`) |
| Listing.NullCreatedAtFailsResponse | main.py:73 | a record whose stored `created_at` is null decodes successfully yet fails the response check, so the service answers HTTP 500 |
| Listing.DecodedShapes | main.py:101-105 | every record of a decoded page has the response shape |
| Listing.DecodedDatesNonIncreasing | main.py:102 | when every record on the page carries a date, the decoded `created_at` values are non-increasing |
| Listing.DecodedCreatedAt | models.py:25 | a decodable record's decoded `created_at` is the stored date, or `now` when none is stored |
| Listing.DatedBeforeUndated | main.py:102 | a dated record sorts before a record without `created_at` |
| Listing.UndatedRecordSortsLast | main.py:102 | with no filter, a record without `created_at` comes after a dated record |
| Listing.UndatedRecordDecodesOutOfOrder | main.py:102-103 | a record without `created_at` comes last yet decodes with `created_at` equal to `now`, after an older date: the decoded page is then not newest first |
| Listing.StatusFilterScenario | main.py:89-90 | of four records with statuses DR, E, P and C, filtering on status C yields exactly the C record |
| Listing.FourRecordsSorted | main.py:102 | four records dated at increasing instants come out newest first |
| Listing.SecondPageScenario | main.py:102 | with no filter, `skip=1`, `limit=2` yields the second and third most recent records |

## Left out

- database.py is not part of this model. It holds the client connection, index creation and the health ping, which are I/O against the driver.
- The FastAPI application is left out: construction, CORS, the startup hook, the root and health endpoints and the exception handlers (main.py:24-70, 110-132). It is framework plumbing.
- Listing.ListAuditLogs: the `except` branch that turns any exception into an HTTP 500 (main.py:106-108) is not modelled beyond returning the decoding `Failure`. A database error during `find` is not represented, because the collection is a value.
- The `async for` iteration is a sequence. Concurrent writes during paging are not modelled.
- Filters.Matcher: MongoDB's regular-expression language has no model, so `Matcher` is a parameter. It is total. An invalid pattern such as `report(` makes `find` raise, and the request ends in HTTP 500 (main.py:88, 92, 106-108); the model cannot show that failure.
- Filters.LiteralSearch: gives the meaning only for ASCII patterns without metacharacters. Case folding is ASCII only. MongoDB's `i` option also folds non-ASCII letters, such as `É` to `é` and the Kelvin sign to `k`, and the model does not capture that.
- An arbitrary user text is not a literal search. The source passes it unescaped to `$regex`, so the model does not escape it.
- Listing.SortBy: the order among records with equal sort keys is the insertion sort's choice, fixed once and for all. MongoDB leaves it unspecified, and it may differ from one request to the next.
- Listing.ListAuditLogs: returns the handler's value, before the framework checks it against the response model (main.py:73). A page holding a record that is not `Models.WellTyped`, such as one with a null `created_at` or a non-string `filename`, is `Success` here but HTTP 500 from the service. `Listing.ValidateResponse` models that check and `Listing.ResponseValidIffWellTyped` states when it passes; the two are not composed into one method.
- Listing.ListAuditLogs: its exact result `DecodeAll(Cursor(…))` depends on that fixed tie order. So do `Listing.Cursor` and the scenarios. With the real store, the order of records sharing a `created_at` is not determined.
- Listing.AdjacentPages: holds within one sorted result. Two requests for adjacent pages may order tied records differently, so the endpoint's pages can repeat or skip a tied record. The model does not capture this.
- Bson.SortKey: values of the same non-date kind compare equal. MongoDB's order among strings, documents or ObjectIds, and its array semantics, are not modelled; a stored `created_at` of such a kind is rare.
- Bson.Value: numbers, booleans, arrays, binary data and the other BSON kinds are not part of the value model. The audit records do not use them. A stored field of such a kind is therefore not represented: neither how it sorts, nor how it is matched, nor how it is validated.
- Filters.Holds: a condition on a path below an array does not search the array's elements.
- Bson.PyStr: `str()` of a date or a document `_id` is a fixed stand-in text. Only string, None and ObjectId identifiers are given their real text.
- Models.AuditLogsHelper: the two `datetime.now()` calls per record are one `now` per request, so both defaults are the same instant.
- pydantic's coercions are left out: strings parsed as dates, numbers as strings. Validation demands the exact kind.
- The statistics models `DocumentStatusStats` and `AuditLogsStats` are left out; nothing in the listing path uses them.
- Dates are integer instants. Time zones and sub-second precision are not modelled.
- Decoding is deterministic for a fixed `now` and leaves its input unchanged. This holds because the helpers are functions over values, so no lemma states it.

## Findings

| source | as written | input that shows it | evidently intended | confidence | as-written member | corrected member |
|---|---|---|---|---|---|---|
| main.py:102, models.py:25 | the store sorts a record without `created_at` as null, after every dated record, but the helper fills in `created_at` with the current time | with no filter, a record dated `t` and a record without `created_at`, where `t < now`: the decoded page reads `t`, then `now` | the response is ordered newest first by its `created_at` | not executed | Listing.UndatedRecordDecodesOutOfOrder | Listing.DecodedDatesNonIncreasing |

`Listing.DecodedDatesNonIncreasing` proves the intended ordering for pages in which every record carries `created_at`.

## Notes

- The filters pass the user's text to `$regex` unescaped (main.py:88, 92), so the text is a pattern, not a literal.
- A decoded record conforms to `AuditLogs` only when the stored fields have the right kinds, since the helper copies values without converting them. `Models.HelperOutputConforms` states the exact condition.
