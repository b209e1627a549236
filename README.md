# UtilityAPI integration for Home Assistant — a verified model of its core

The integration reads electricity meters from the UtilityAPI web service and exposes them in
Home Assistant. This project models three parts of it:

- **The hourly statistics writer** (`statistics_helper.py`). It normalises each hour's start
  with `_parse_hour_start` and orders the hours by that start. A date-time becomes the top of
  its UTC hour. A bare date, as written, becomes local midnight of the default zone converted
  to UTC (see Findings). It then continues two cumulative series, usage and cost, from the sums
  last stored in the recorder. Every hour gets a usage row. An hour
  gets a cost row only when its cost is known (not `None`).
- **The API client** (`api.py`). It joins the base URL and the path with a single slash and sends
  the bearer-token headers. It classifies the response status into `InvalidAuthError` (401/403),
  `UtilityAPIError` (any other status of 400 or more) or the decoded body. It decodes the meter
  listing tolerantly and drops meters without an id. Fetching one meter's summary falls back to
  the listing.
- **The data update coordinator** (`coordinator.py`). This is an object holding the tracked meter
  ids. An update fetches every tracked meter's summary in order and fails as a whole on the first
  `UtilityAPIError`. A rediscovery replaces the tracked ids with the ids of the non-archived
  listed meters.

The model has these modules:

- `Wrappers`: `Option` and `Result`.
- `Text`: Python's `str(int)`, `rstrip`/`lstrip` of one character, and ASCII `lower`.
- `Json`: decoded JSON payloads with Python's truthiness, `dict.get`, `or` and `str()`.
- `Api`: the client.
- `StableSort`: Python's `sorted`, as a stable insertion sort.
- `Statistics` and `StatisticsProperties`: the writer and the facts proved about it.
- `Coordinator`: the coordinator, a class with a `meterIds` field.

Some facts about how the model is set up:

- **The network.** It is a parameter: a `Transport` is a total function from a request (URL,
  headers, query) to a response (status, body text, decoded body). Every client operation is a
  function of the client, the transport and its arguments. A `Transport` is deterministic, so
  identical requests get identical answers. For example, every meter's fallback listing during
  one update gets the same response, and a transient failure of a later identical call cannot
  be expressed.
- **The start normaliser.** The writer is modelled for any `Normaliser` (a function from a start
  to a timestamp). `AsWritten(zone)` is `_parse_hour_start` as the code has it, and it is the
  instance that models the code. `Corrected(zone)` is the intended normalisation. The ordering,
  row and sum lemmas hold for every normaliser, so for both instances.
- **The recorder.** Its two calls become an input and an output. The input is the last stored
  rows of each statistic. The output is the sequence of `(metadata, rows)` writes, in call order.
- **Times.** Timestamps are integers counting microseconds since the Unix epoch.
- **Home Assistant's default time zone.** It is a `Zone` parameter: a function from a wall-clock
  time to its UTC offset. `dt_util.as_utc` uses it to read naive date-times.
- **Usage and cost.** Each is a `Quantity`:
  - `Missing` when the field is absent or `None`;
  - `Num(r)` when `float(v or 0)` gives `r`;
  - `Unparseable` when that conversion raises.
- **Arithmetic.** Sums are exact reals.

`list_meters` raises in two cases: when a listing entry is not an object (`m.get` raises
`AttributeError`), and when `meters` is a truthy value that is not a list (iterating a number or
`true` raises `TypeError`; iterating a string or an object yields entries whose `.get` raises
`AttributeError`). Neither error is a `UtilityAPIError`. The model returns `Raised.Malformed` for both.
`Malformed` propagates through `refresh_meter_summary` and out of the coordinator's update as
`Unhandled`, because the update's `except` clause catches only `UtilityAPIError`.

## Model

| member | source | states |
|---|---|---|
| Statistics.HourStart | custom_components/utilityapi/statistics_helper.py:20-35 | The intended normalisation, which the code misses for dates (see Findings). The normalised start is a whole number of hours. For a date-time it is the start of the UTC hour containing the instant (`as_utc`, then minutes, seconds and microseconds set to zero). For a date it is midnight UTC of that day. |
| Statistics.HourStartAsWritten | custom_components/utilityapi/statistics_helper.py:20-35 | `_parse_hour_start` as written. A date-time becomes the start of the UTC hour containing the instant. A date becomes its naive midnight read in the default zone: the day's midnight minus the zone's offset at that wall-clock time. |
| Statistics.DateStartAsWrittenOffHour | custom_components/utilityapi/statistics_helper.py:33-35 | The date branch as written applies `as_utc` to a naive midnight. With the default zone at UTC+05:30, the date 1970-01-01 becomes 18:30 UTC of the previous day, which is not the start of an hour. |
| Statistics.HourStartAgreement | custom_components/utilityapi/statistics_helper.py:20-35 | The code as written and the corrected normalisation agree on every date-time. On a date they agree whenever the default zone is at UTC at that midnight. |
| Statistics.HourStartIdempotent | custom_components/utilityapi/statistics_helper.py:25-32 | Normalising an already normalised start, given as a UTC date-time, returns it unchanged in any default zone. |
| Statistics.LastSum | custom_components/utilityapi/statistics_helper.py:60-75 | The sum a series continues from is 0 when the statistic has no stored row, or when the newest row's `sum` is `None` or not numeric. Otherwise it is that stored sum. |
| Statistics.StatisticIdInjective | custom_components/utilityapi/statistics_helper.py:55-56 | `utilityapi:{meter}_usage` and `utilityapi:{meter}_cost` ids never coincide, for distinct meters or for distinct series. |
| Statistics.SeriesMetadata | custom_components/utilityapi/statistics_helper.py:81-94 | Each series' metadata carries its statistic id, `has_sum` set and `has_mean` clear. The usage unit is the given unit, or `""` when it is absent or empty. The cost unit is the given currency, or `USD` when it is absent or empty. |
| Statistics.BuildRows | custom_components/utilityapi/statistics_helper.py:99-117 | The loop with two running totals builds exactly the usage rows (one per hour) and cost rows (one per hour with a known cost) of the ordered hours. |
| Statistics.WriteHourlyUsageCost | custom_components/utilityapi/statistics_helper.py:38-122 | The loop with two running totals produces exactly the writes `HourlyStatistics` describes, for the given normaliser: usage rows and cost rows built from the hours ordered by normalised start, each series written only when it has rows. The code is the instance `AsWritten(zone)`. |
| StatisticsProperties.RowStartsFromHours | custom_components/utilityapi/statistics_helper.py:78-117 | Every written row's start is the normalised start of some input hour. |
| StatisticsProperties.CorrectedRowsOnHour | custom_components/utilityapi/statistics_helper.py:99-117 | With the corrected normaliser every written row starts on a whole hour. |
| StatisticsProperties.AsWrittenDateRow | custom_components/utilityapi/statistics_helper.py:99-117 | With the code as written, the default zone at UTC+05:30 and one hour dated 1970-01-01, the writer emits one usage series whose one row starts at 18:30 UTC of the previous day, which is not a whole hour. |
| StatisticsProperties.NoRecorderNoWrites | custom_components/utilityapi/statistics_helper.py:50-52 | Without the recorder functions nothing is written. |
| StatisticsProperties.SeriesWritten | custom_components/utilityapi/statistics_helper.py:119-122 | There are at most two writes, each with rows and at most one row per hour. The usage series is written, first, exactly when there are hours. The cost series is written, last, exactly when some hour's cost is not `None`. |
| StatisticsProperties.UsageSeries | custom_components/utilityapi/statistics_helper.py:77-114 | The written usage series has one row per hour. Row `i` holds the start of ordered hour `i` and the stored sum plus the usages of ordered hours `0..i`. Starts never decrease, and the last sum is the stored sum plus the usage of all hours, whatever their input order. With non-negative usages the sums never decrease and never fall below the stored sum. |
| StatisticsProperties.UsageRowsFacts | custom_components/utilityapi/statistics_helper.py:99-114 | The same facts for the usage rows built from the ordered hours, before they are written. |
| StatisticsProperties.CostSeries | custom_components/utilityapi/statistics_helper.py:99-117 | The written cost series has at most one row per hour. Starts never decrease. The last sum is the stored cost sum plus the cost of all hours. With non-negative costs the sums never decrease and never fall below the stored sum. |
| StatisticsProperties.CostRowsFacts | custom_components/utilityapi/statistics_helper.py:99-117 | The same facts for the cost rows built from the ordered hours, which are non-empty when some cost is known. |
| StatisticsProperties.CostRowsExactly | custom_components/utilityapi/statistics_helper.py:115-117 | The cost rows are exactly the rows of the hours whose cost is not `None`. They number the known costs. There are none when every cost is `None`. Each row holds the hour's start and the prior sum plus the costs so far. |
| StatisticsProperties.UsageRowsMonotone | custom_components/utilityapi/statistics_helper.py:104-114 | With non-negative usages the usage sums never decrease and stay at or above the starting sum. |
| StatisticsProperties.CostRowsMonotone | custom_components/utilityapi/statistics_helper.py:105-117 | With non-negative costs the cost sums never decrease and stay between the starting sum and the starting sum plus the cost total. |
| StatisticsProperties.CostRowsLast | custom_components/utilityapi/statistics_helper.py:110-117 | The last cost row carries the whole cost total, because `None`-cost hours after it add nothing. |
| StatisticsProperties.CostRowsOrdered | custom_components/utilityapi/statistics_helper.py:102-117 | When the hours are ordered by start, so are the cost rows. |
| StatisticsProperties.UsageRowsOrdered | custom_components/utilityapi/statistics_helper.py:102-114 | When the hours are ordered by start, so are the usage rows. |
| StatisticsProperties.TotalPermutation | custom_components/utilityapi/statistics_helper.py:78 | A series total does not depend on the order of the hours, so sorting does not change it. |
| StatisticsProperties.OrderedIsPermutation | custom_components/utilityapi/statistics_helper.py:78 | The ordered hours are a permutation of the input hours, of the same length, sorted by normalised start. |
| StableSort.SortByCorrect | custom_components/utilityapi/statistics_helper.py:78 | `sorted` returns its input ordered by key, as a permutation (same multiset) of it. |
| StableSort.SortByStable | custom_components/utilityapi/statistics_helper.py:78 | `sorted` is stable: the elements sharing any one key keep their input order. |
| Api.NewDefaultClient | custom_components/utilityapi/api.py:22 | A client built without a base URL uses `https://utilityapi.com/api/v2` unchanged, since it has no trailing slash. |
| Api.NewClient | custom_components/utilityapi/api.py:22-25 | The client keeps the key. Its base URL is the given one without its trailing slashes: a prefix of it that does not end in a slash, with only slashes removed. |
| Text.TrimRight | custom_components/utilityapi/api.py:25 | `rstrip(c)` returns a prefix of the text that does not end in `c`, and only copies of `c` were removed. |
| Text.TrimLeft | custom_components/utilityapi/api.py:38 | `lstrip(c)` returns a suffix of the text that does not start with `c`, and only copies of `c` were removed. |
| Text.TrimLeftIdempotent | custom_components/utilityapi/api.py:38 | Stripping leading slashes twice is the same as once. |
| Api.Url | custom_components/utilityapi/api.py:38 | The request URL starts with the client's base URL and one slash. The rest is a suffix of the path that does not start with a slash, and only slashes were removed before it. |
| Api.UrlOneSlash | custom_components/utilityapi/api.py:38 | The request URL is the base without its trailing slashes, exactly one slash, and the path without its leading slashes. Extra trailing slashes on the base or leading slashes on the path do not change it. |
| Api.Headers | custom_components/utilityapi/api.py:29-35 | Every request carries exactly the four headers `Authorization`, `Accept`, `Content-Type` and `User-Agent`. |
| Api.HeadersCarryKey | custom_components/utilityapi/api.py:31 | The `Authorization` header is a bearer token equal to the client's API key. |
| Api.Check | custom_components/utilityapi/api.py:41-46 | A status of 400 or more fails and anything below returns the decoded body. A failure is an `InvalidAuthError` exactly for 401 and 403. Any other failure is a `UtilityAPIError` whose message is `GET {url} failed: {status} {text}`. |
| Api.Get | custom_components/utilityapi/api.py:37-46 | `_get` sends the built URL with the client's headers and the given query. It fails exactly when the answer's status is 400 or more, with an `InvalidAuthError` exactly for 401 and 403. Otherwise it returns the decoded body. |
| Text.DecimalRoundTrip | custom_components/utilityapi/api.py:45 | `str(status)` in the error message loses nothing: reading the text back gives the status. |
| Api.Validate | custom_components/utilityapi/api.py:48-51 | Validation sends a one-meter listing request. It fails exactly when the status is 400 or more, with an `InvalidAuthError` exactly for 401 and 403. |
| Api.ListParams | custom_components/utilityapi/api.py:54-57 | `limit=500` is always sent. `archived` is sent only when a filter is given, as the text `true` or `false`. |
| Api.RawMeters | custom_components/utilityapi/api.py:59-66 | An object with `meters` yields that list, and `[]` when `meters` is null or empty. A bare list yields itself. Anything else yields `[]`. The only failure is a truthy `meters` that is not a list. |
| Api.DecodeListingShapes | custom_components/utilityapi/api.py:59-78 | The decoded listing is `[]` for a falsy `meters` or a payload of another shape. For a list of objects it is those objects decoded, with id-less meters dropped. It fails exactly when the entries cannot be read as objects. |
| Api.DecodeMeterFields | custom_components/utilityapi/api.py:70-76 | The id is `str` of the first truthy value among `id`, `meter_id` and `uid`; it is `""` exactly when none is truthy. `archived` is the truthiness of `archived`, defaulting to false. `label` falls back through `label`, `name` and `service_address`, and `updated` through `updated`, `modified` and `updated_at`. The raw record is kept whole. |
| Api.DecodeMeter | custom_components/utilityapi/api.py:69-77 | A decoded meter keeps its whole raw record. It is archived exactly when the record has a truthy `archived`. |
| Json.ToStr | custom_components/utilityapi/api.py:71 | `str(v)` is empty exactly for the empty string. |
| Json.OrChain | custom_components/utilityapi/api.py:71-74 | `a or b or c` is the first truthy operand, else the last. |
| Api.WithIds | custom_components/utilityapi/api.py:78 | The filter keeps exactly the meters with a nonempty id. |
| Api.WithIdsAppend | custom_components/utilityapi/api.py:78 | The filter keeps payload order: it distributes over concatenation. |
| Api.DecodeEntries | custom_components/utilityapi/api.py:67-77 | The decoding loop succeeds exactly when every entry is an object, and then yields each entry decoded, in order. |
| Api.DecodeListing | custom_components/utilityapi/api.py:59-78 | Decoding fails only with `Malformed`. Every meter it yields has a nonempty id and is the decoding of its own raw record. |
| Api.ListMeters | custom_components/utilityapi/api.py:53-78 | The listing method returns exactly `Listing`. An error from `_get` is passed on. A malformed payload raises `Malformed`. Otherwise the result is the decoded meters with an id, in payload order. |
| Api.ListingMeters | custom_components/utilityapi/api.py:67-78 | Every meter a successful listing returns has a nonempty id and is the decoding of its raw record. |
| Api.FindMeter | custom_components/utilityapi/api.py:94-96 | The search finds the first meter with the id, or reports that none has it. |
| Api.SummaryFromListing | custom_components/utilityapi/api.py:92-97 | The fallback fails exactly when the listing does, and then passes on its error. Otherwise it returns the raw record of the first listed meter with the id, or `{"id": meter_id}` when no listed meter has it. |
| Api.SummaryCases | custom_components/utilityapi/api.py:86-93 | An object from `meters/{id}` is returned as it is. Any `UtilityAPIError`, or a body that is not an object, leads to the listing fallback. |
| Api.AuthFailureFallsBack | custom_components/utilityapi/api.py:90-91 | An authentication failure on the direct fetch is caught like any `UtilityAPIError`, since `InvalidAuthError` is one, and the summary comes from the listing. |
| Api.SummaryFailure | custom_components/utilityapi/api.py:86-97 | A summary fetch fails only when the listing fails, and then with the listing's error. |
| Api.SearchListing | custom_components/utilityapi/api.py:94-97 | The search loop with early return gives the fallback's result on a successful listing. |
| Api.RefreshMeterSummary | custom_components/utilityapi/api.py:80-97 | The method returns exactly `Summary`, the three-way fallback. |
| Coordinator.UtilityApiCoordinator.constructor | custom_components/utilityapi/coordinator.py:16-24 | The coordinator stores the client and the given meter ids. |
| Coordinator.UtilityApiCoordinator.UpdateData | custom_components/utilityapi/coordinator.py:30-37 | The update succeeds exactly when every tracked meter's summary does. Its keys are then exactly the tracked ids, each mapped to that meter's summary. Otherwise it ends at the first failing meter, with `UpdateFailed(message)` for a `UtilityAPIError` and no partial map. |
| Coordinator.UpdateMeaning | custom_components/utilityapi/coordinator.py:30-37 | The same four facts, for the update defined by the per-meter summaries. |
| Coordinator.CollectMeaning | custom_components/utilityapi/coordinator.py:32-35 | Storing the summaries in list order succeeds exactly when all do. Every id is then a key, and each key holds one of its meter's summaries. Otherwise the outcome is that of the first failure. |
| Coordinator.CollectStops | custom_components/utilityapi/coordinator.py:33-37 | Once a fetch has failed, later meters do not change the outcome. |
| Coordinator.FailureOutcome | custom_components/utilityapi/coordinator.py:36-37 | A `UtilityAPIError` of either kind, auth included, becomes `UpdateFailed` with its message. Any other exception escapes unhandled. |
| Coordinator.UtilityApiCoordinator.RefreshMeters | custom_components/utilityapi/coordinator.py:39-44 | After a successful listing the tracked ids are replaced wholesale by the ids of the non-archived listed meters, and the method returns the new list, which is `meter_ids`. After a failed listing the ids are unchanged and the error is passed on. |
| Coordinator.ActiveIds | custom_components/utilityapi/coordinator.py:42 | An id is kept exactly when some listed meter carries it and is not archived. |
| Coordinator.ActiveIdsAppend | custom_components/utilityapi/coordinator.py:42 | The kept ids follow listing order: the filter distributes over concatenation. |
| Coordinator.RediscoveredIds | custom_components/utilityapi/coordinator.py:41-42 | After a rediscovery every tracked id is nonempty. An id is tracked exactly when a non-archived listed meter carries it, so ids no longer listed are gone. |

## Left out

- HTTP, the aiohttp session, the `Semaphore(5)` gate and the 30-second timeout (api.py:27, 39-40). These are I/O and concurrency; a request is answered by the `Transport` parameter. The JSON decoding of the body (`resp.json()`) is part of that answer. Network errors and JSON decoding errors are not modelled.
- The recorder calls `async_get_last_statistics` and `async_add_external_statistics` (statistics_helper.py:11-16, 59, 120-122). They are foreign persistence. The last stored rows are an input and the writes are the output. Recorder availability is a boolean input.
- `dt_util.parse_datetime`, `parse_date` and `str(value)` of a start (statistics_helper.py:21-24). They are foreign parsing. A start is already a date-time (wall-clock time and optional UTC offset) or a date. A start that parses as neither crashes in the source; the model requires parseable starts and does not model the crash.
- Statistics.HourStart: does not model the DST fold, because `Zone` gives one offset per wall-clock time.
- IEEE floating point. Sums are exact reals, so rounding in the running totals is not modelled. JSON numbers in payloads are integers; JSON floats are not modelled.
- Json.ToStr: renders a non-empty list or object as a placeholder (`[...]`, `{...}`) rather than Python's full `repr`. Emptiness of the result matters for the id filter (api.py:78). The text itself also matters where ids are compared, in the summary fallback (`m.id == meter_id`, api.py:95) and in the tracked ids (coordinator.py:42): two distinct lists or objects with the same placeholder would compare equal in the model and not in Python.
- Text.Lower: lower-cases ASCII letters only, not all of Unicode. It is applied only to `True`/`False`.
- The idempotence the writer's docstring promises across calls (statistics_helper.py:48). It depends on the recorder, which is not modelled. A second call re-reads a last sum that already includes the written hours. What holds is that the writes are a function of the stored rows and the hours.
- `async_request_refresh` (coordinator.py:43), the one-day `update_interval` (coordinator.py:21) and async scheduling. They belong to Home Assistant's update machinery.
- Coordinator.UtilityApiCoordinator.MeterIds: the `meter_ids` property reads the field and has no contract of its own. The `RefreshMeters` contract states that its result equals it.
- sensor.py, config_flow.py, `__init__.py` and const.py are not part of this model: sensor.py is presentation, config_flow.py is the UI flow, `__init__.py` is lifecycle wiring, and const.py holds constants. The constants the core uses (`utilityapi`, the default base URL) are written in place; `Api.NewDefaultClient` is the construction `__init__.py:21` performs.

## Findings

| source | as written | input that shows it | evidently intended | confidence | as-written member | corrected member |
|---|---|---|---|---|---|---|
| custom_components/utilityapi/statistics_helper.py:33-35 | A bare date becomes `as_utc(datetime(y, m, d))`. The datetime is naive, so `as_utc` reads it in Home Assistant's default zone, and the result is local midnight converted to UTC. | The date 1970-01-01 with the default zone at UTC+05:30 gives 1969-12-31 18:30 UTC, which is not on an hour boundary. | Midnight UTC of the date, as the comment on line 33 says, so that every start is the top of a UTC hour. | not executed | Statistics.HourStartAsWritten, Statistics.DateStartAsWrittenOffHour, StatisticsProperties.AsWrittenDateRow | Statistics.HourStart, StatisticsProperties.CorrectedRowsOnHour |
