# Email engagement tracker: a Dafny model of the event-logging core

The tracker serves a tracking pixel and a click-redirect endpoint that are embedded in
outbound emails. It records `pixel_open` and `click` events in an append-only
line-delimited event log. It serves or proxies the image a message references, and it
logs every real attempt to do so in a second log of image-read records. This project
models that core in Dafny and proves properties of it:

- the two logs and their append and read operations;
- the ten-minute dedup guard for repeated opens;
- the decision that picks the image to serve and the record it logs;
- the per-recipient and newest-first query views.

Modules and files:

- `records.dfy`: `Wrappers` (Option) and `Records`. A record is a JSON object,
  `map<string, Value>`. `Get` behaves like `dict.get`. `Stamped` adds a `time` field.
  The module also builds the pixel-open and click events.
- `event_store.dfy`: `EventStore`. A log file is a `seq<Line>`; a line is blank,
  malformed, or a parsed JSON value. It defines what reading a file yields
  (`ParseLines`) and proves order, completeness and read-after-append.
- `dedup.dfy`: `Dedup`. The truth condition of the guard, how appends affect it, and
  the window properties.
- `image_resolver.dfy`: `ImageResolver`. It computes the basename and the upload path,
  separates local from remote references, and resolves both to a reply and the records
  logged.
- `queries.dfy`: `Queries`. The order-preserving filters of `tracking_by_email` and
  the reverse-and-slice of `tracking_latest`, with Python's slice rule for negative `n`.
- `tracker.dfy`: `Tracker`. The class `TrackingServer` holds the two logs as sequence
  fields. Its methods are append, read (a loop), the newest-first dedup scan (a loop
  with an early return), `api_img` (split into its local and remote branches),
  `api_click` and the two query endpoints. A scenario method proves the dedup window
  end to end.

The oracles are `urllib.parse.unquote_plus`, `os.path.exists`,
`mimetypes.guess_type`, reading a file, and `requests.get`. They are the fields of a
datatype `Env` that is passed to `api_img`. The clock is a parameter `now`, an
integer count of microseconds. The value of a `time` field that `fromisoformat`
accepts once its `Z` is removed, as an instant without a UTC offset, is `Stamp(t)`;
the strings `append_event` writes are of this kind. Two such strings for the same
instant are one value in the model. A missing `time`, a value that is not a string,
and a string the parser rejects or that carries an offset (whose comparison with the
cutoff raises inside the `try`) all give a time that does not parse. No other field
is parsed, so every other string is kept as a plain string.

A log file is modelled as a sequence of complete lines (see "## Left out" for what
that leaves aside). The model follows the code, with the two exceptions listed under
"## Findings": the class reads only JSON objects from a log, and its remote branch
logs one record per attempt. For both, the code as written is modelled as well,
beside the corrected member. For a local reference whose file is missing, the code
logs no image-read record and answers the GIF (main.py:106-108, 144); the model does
the same.

## Model

| member | source | states |
|---|---|---|
| `Records.Get` | main.py:64-65 | a missing key reads as null, a present key reads as its value |
| `Records.TimeOf` | main.py:66-67 | a record's time is known exactly when its `time` field is a parseable timestamp; a missing or unparseable time gives None |
| `Records.Stamped` | main.py:37-39 | the stored record keeps every field; `time` is added, holding `now`, only when the record had none |
| `Records.PixelOpenEvent` | main.py:88-95 | the open event has type `pixel_open`, the caller's email, message id and image parameter, and no time yet |
| `Records.ClickEvent` | main.py:157-164 | the click event has type `click`, the caller's email, message id and redirect, and no time yet |
| `EventStore.StoredLine` | main.py:40-42 | an append writes one line holding the stamped record |
| `EventStore.ParseLines` | main.py:44-56 | reading gives at most one record per line; `ReadKeepsRecordLinesInOrder` states which records, in which order |
| `EventStore.ReadKeepsRecordLinesInOrder` | main.py:44-56 | reading yields exactly the record lines in file order: strictly increasing positions, the k-th record from the k-th kept line, and no record line missed |
| `EventStore.ParseLinesConcat` | main.py:44-56 | reading two files one after the other gives the records of the first, then those of the second |
| `EventStore.ReadAfterAppend` | main.py:37-56 | after an append, reading returns the earlier records followed by the appended, stamped record |
| `EventStore.ReadAfterAppends` | main.py:37-56 | after several appends, reading returns the earlier records followed by the appended ones, in append order, each stamped with the clock reading of its own append |
| `EventStore.NonRecordLineInvisible` | main.py:49-55 | a blank, malformed or non-object line inserted anywhere changes nothing that is read |
| `EventStore.StoredLines` | main.py:37-42 | appending a list of records, the k-th at the k-th clock reading, writes one line per record: line k holds record k stamped with reading k |
| `EventStore.StampedAll` | main.py:38-39 | stamping a list of records, each at its own clock reading, stamps each one, position by position |
| `EventStore.ReadJsonlAsWritten` | main.py:44-56 | as written, reading gives at most one value per line, and every value read is one that a line parses to, of whatever JSON type (see Findings) |
| `EventStore.ReadJsonlAsWrittenInOrder` | main.py:44-56 | as written, reading yields exactly the lines that parse, in file order: strictly increasing positions, the k-th value from the k-th parsed line, and no parsed line missed |
| `Dedup.Cutoff` | main.py:61 | the cutoff is `now` less the window of `minutes` minutes, in microseconds; `CutoffIsWindowStart` states what it means |
| `Dedup.CutoffIsWindowStart` | main.py:61-68 | an instant is no earlier than the cutoff exactly when it lies at most `minutes` minutes before now |
| `Dedup.IsRecentOpen` | main.py:64-69 | one event counts when its type is `pixel_open`, its email and message id equal the request's (a missing id matching only a missing id), and its time parses to an instant no earlier than the cutoff |
| `Dedup.OpenedRecent` | main.py:58-72 | the guard's truth condition: some event read from the log counts |
| `Dedup.OpenedRecentAppend` | main.py:58-72 | after an append, the guard answers true exactly when it did before, or when the appended event is itself a recent open of the same email and message id |
| `Dedup.LongerWindowSuppressesMore` | main.py:58-69 | an open that suppresses for some window also suppresses for every longer window |
| `Dedup.EmptyLogNeverSuppresses` | main.py:63-72 | an empty log gives false |
| `Dedup.AppendNonOpenUnchanged` | main.py:63-71 | appending a line that is not a recent open (no record, another type, another identity, an unparseable or old time) leaves the answer unchanged |
| `Dedup.ClickNeverSuppresses` | main.py:64 | a stored click never changes the guard's answer |
| `Dedup.RepeatWithinWindowSuppressed` | main.py:58-72 | once an open is stored at t0, a request for the same email and message id at most ten minutes later is suppressed |
| `Dedup.RepeatOutsideWindowLogged` | main.py:58-72 | an open stored more than ten minutes earlier does not suppress, when nothing else does |
| `Dedup.OtherIdentityNeverSuppresses` | main.py:64-65 | an open for another email or another message id (None matches only None) does not change the guard's answer |
| `Dedup.ScanAsWritten` | main.py:63-71 | the scan as written fails only when it meets a non-object value; when it answers false, every value is an object and none is a recent open |
| `Dedup.ScanAsWrittenAgrees` | main.py:44-72 | whenever the scan as written does not fail, it gives the corrected guard's answer |
| `Dedup.NonObjectLineBreaksScan` | main.py:53-64 | a log holding the single line `42` makes the guard as written fail, while the corrected guard answers false |
| `ImageResolver.ImageParam` | main.py:84 | an absent or empty `image` gives None; otherwise the decoded parameter is the unquoted string |
| `ImageResolver.Basename` | main.py:107 | the basename contains no `/`, is a suffix of the reference, and is preceded by a `/` when it is shorter than the reference: it is the text after the last `/` |
| `ImageResolver.StartsWith` | main.py:106 | `str.startswith`: the prefix is no longer than the string and equals its first characters |
| `ImageResolver.IsRemote` | main.py:106 | a reference is remote when it starts with `http://` or `https://`, case-sensitively |
| `ImageResolver.RemoteSchemes` | main.py:106 | `http://` and `https://` URLs are remote; a plain name, a relative path, an upper-case `HTTP://` and an `ftp://` URL are local references |
| `ImageResolver.Truthy` | main.py:106 | `if image_param`: the decoded parameter is present and not empty |
| `ImageResolver.LocalPath` | main.py:107 | the looked-up path is the upload folder `./uploads`, a `/`, and the reference's basename |
| `ImageResolver.LocalPathInsideUploads` | main.py:107 | for every reference, the looked-up path starts with `./uploads/` and the rest of it holds no `/`: directory components are discarded |
| `ImageResolver.PlainNameUnchanged` | main.py:107 | a reference without `/` is looked up unchanged inside `./uploads` |
| `ImageResolver.TraversalDiscarded` | main.py:107 | `../../etc/passwd` is looked up as `./uploads/passwd` |
| `ImageResolver.MimeOrDefault` | main.py:109-110 | the type is the guess when one is given and not empty, otherwise `application/octet-stream`; it is never empty |
| `ImageResolver.LocalReadRecord` | main.py:114-117 | the record of a local read carries the email, the message id, `served` = `local` and the reference as `filename`, and no error |
| `ImageResolver.LocalErrorRecord` | main.py:120-123 | the record of a failed local read carries the email, the message id, `served` = `local` and the error message |
| `ImageResolver.RemoteReadRecord` | main.py:131-134 | the record of a remote fetch carries the email, the message id, `served` = `remote` and the URL, and no error |
| `ImageResolver.RemoteErrorRecord` | main.py:137-140 | the record of a failed remote fetch carries the email, the message id, `served` = `remote`, the URL and the error message |
| `ImageResolver.Local` | main.py:105-124 | a missing file answers the GIF and logs nothing; an existing file logs one `local` record, with an error exactly when the read fails; a read answers the bytes with the guessed type and records the reference as `filename`, and a failed read answers the GIF |
| `ImageResolver.Remote` | main.py:126-141 | corrected: exactly one `remote` record holding the URL, with an error exactly when the request or the body read fails; a failure answers the GIF, and a success answers the bytes with the remote type or `image/jpeg` |
| `ImageResolver.RemoteAsWritten` | main.py:126-141 | the code answers what `Remote` answers, and logs two records exactly when the body read fails after the headers arrived; in every other case it matches `Remote` |
| `ImageResolver.BodyFailureLoggedTwice` | main.py:128-141 | a failed body read logs the success record and then an error record as written; the corrected branch logs one |
| `ImageResolver.Resolve` | main.py:105-144 | at most one image-read record is logged, exactly when the parameter is present and either remote or an existing local file; no image gives the GIF and no record; every record carries the email, the message id and how the image was served; any answer other than the GIF comes with one record without an error |
| `Queries.Selects` | main.py:177-179 | the comprehension conditions: type and email for opens and clicks, email alone for image reads |
| `Queries.Filter` | main.py:177-179 | a filter has at most as many records as the log |
| `Queries.FilterKeepsSelectedInOrder` | main.py:177-179 | a filter is an order-preserving subsequence: increasing positions, each holding the record at that place in the filter, and no selected record missed |
| `Queries.FilterMembership` | main.py:177-179 | a record is in a filter exactly when it is in the log and matches the type and email |
| `Queries.FilterConcat` | main.py:177-179 | filtering a concatenation filters each part in turn |
| `Queries.TrackingByEmail` | main.py:172-180 | the opens, clicks and image reads of a recipient are exactly the log records with that type (for the first two) and that email |
| `Queries.SliceStop` | main.py:185-186 | `[0:n]` keeps min(n, len) elements for n >= 0 and max(0, len + n) for negative n |
| `Queries.Reversed` | main.py:185-186 | the reversal has the same length, and its k-th element is the k-th from the end |
| `Queries.Newest` | main.py:185-186 | the latest view has `SliceStop(n, len)` records, and its k-th record is the k-th newest |
| `Queries.DefaultLatestShowsNewest` | main.py:183-186 | with the default count of 200, a log of at most 200 records is shown whole, newest first, and a longer one shows its 200 newest |
| `Queries.TrackingLatest` | main.py:182-187 | the two lists are the newest views of the event log and of the image-read log |
| `Queries.LatestTwoOfThree` | main.py:185 | after three events, `latest(2)` is the last two, newest first |
| `Queries.NewestAfterAppend` | main.py:185 | for n >= 1, the record appended last heads the latest view, followed by the n - 1 newest before it |
| `Queries.ClickShowsUpLast` | main.py:157-178 | a stored click appears last among that recipient's clicks and leaves the recipient's opens unchanged |
| `Queries.NonRecordLineInNoView` | main.py:49-187 | a line without a record, injected into either log, changes no query result |
| `Tracker.TrackingServer.constructor` | main.py:32-35 | a server starts from the lines that are in its two files; a missing file has none |
| `Tracker.TrackingServer.AppendEvent` | main.py:37-42 | exactly one line holding the stamped record is added at the end of the chosen log; earlier lines and the other log are unchanged |
| `Tracker.TrackingServer.ReadJsonl` | main.py:44-56 | the loop returns what `ParseLines` gives for the chosen file |
| `Tracker.TrackingServer.AlreadyOpenedRecent` | main.py:58-72 | the newest-first scan with its early return answers true exactly when some logged event is a recent open of the email and message id |
| `Tracker.TrackingServer.ServeLocal` | main.py:105-124 | the local branch appends the records `Local` names and answers its reply; the event log is unchanged |
| `Tracker.TrackingServer.ProxyRemote` | main.py:126-141 | the remote branch appends the one record `Remote` names and answers its reply; the event log is unchanged |
| `Tracker.TrackingServer.ApiImg` | main.py:77-144 | the event log grows by one `pixel_open` event when the guard answers false and is unchanged otherwise; the image-read log grows by the records `Resolve` names; the reply is `Resolve`'s |
| `Tracker.TrackingServer.ApiPixel` | main.py:77-96 | a pixel request without an image logs the open exactly when the guard answers false, logs no image-read record, and answers the GIF |
| `Tracker.TrackingServer.ApiClick` | main.py:150-166 | exactly one click event is appended, its redirect is the argument, the image-read log is unchanged, and the answer is a 302 to that same argument |
| `Tracker.TrackingServer.TrackingByEmail` | main.py:172-180 | the endpoint returns the per-recipient views of what is read from both logs |
| `Tracker.TrackingServer.TrackingLatest` | main.py:182-187 | the endpoint returns the newest-first views of what is read from both logs, for the given `n` or 200 when none is given |
| `Tracker.ScenarioGuardAnswers` | main.py:58-72 | on an empty log the guard answers false at T0; an open stored at T0 suppresses at T0 + 5 min and no longer at T0 + 11 min |
| `Tracker.DedupWindowScenario` | main.py:58-96 | opens at T0, T0 + 5 min and T0 + 11 min on a fresh server leave event logs of sizes 1, 1 and 2 |

## Left out

- HTTP plumbing is not modelled: FastAPI routing, query-parameter binding, CORS
  (main.py:7-15), the raw log downloads (main.py:189-197) and the liveness probe
  (main.py:199-201). They hold no logic of the core.
- The response headers (main.py:98-103) are a constant dictionary and are not modelled.
  This includes the misspelt `Prpragma` header.
- File I/O is not modelled: `ensure_file`, directory creation, opening, writing and
  flushing. A log is an in-memory sequence of lines, and a missing file is an empty
  one. Crash atomicity and exceptions from the file system are not modelled.
- JSON encoding and decoding are not modelled. A line is blank, malformed, or already
  parsed. Numbers, booleans, arrays and nested objects inside a record are all one
  value, `Other`, because the core only compares strings and nulls.
- Dates are not modelled: `utcnow`, ISO-8601 formatting and `fromisoformat`. A
  timestamp is an integer number of microseconds. A time that does not parse is None;
  this includes timestamps with a UTC offset, whose comparison raises inside the `try`.
- `EventStore.ParseLines`: every line is assumed to end with a newline and to be valid
  UTF-8. A last line without a newline, edited in by hand, is not modelled: the next
  append is glued onto it (main.py:41), so neither record parses again and the dedup
  guard never sees that open. Bytes that are not UTF-8 make `for line in f`
  (main.py:48) raise outside the `try`, so `read_jsonl` fails instead of skipping the
  line; the model reads such a line as `Malformed` and skips it.
- `Tracker.TrackingServer.ApiImg`: one `now` serves for the cutoff, the pixel event and
  the image-read record. The code reads the clock three times within a request.
- `Tracker.TrackingServer.ApiPixel`: as for `ApiImg`, one `now` serves for the cutoff
  and the pixel event.
- Monotonically non-decreasing times in a log are not proved, because the clock is a
  parameter and the code does not enforce them.
- The oracles in `Env` stand for `unquote_plus`, `os.path.exists`, `guess_type`, file
  reads and `requests.get`. The model does not look inside them: the 8-second timeout,
  redirects, and which exceptions can occur.
- `ImageResolver.Remote`: the HTTP status is not looked at. The code serves a 404 page
  as a success too.
- Paths follow POSIX `posixpath`. A basename of `..` or `.` passes through as a name
  and names a directory, so its read fails and is logged as an error. The model covers
  this through the `readFile` oracle.
- Concurrency is not modelled: the race between the dedup read and the append across
  simultaneous requests. The model runs one request at a time.
- `Records.Client`: the request's user agent and address are optional strings. The
  `if request` guards (main.py:93-94) and `api_click`'s unguarded `request.headers`
  (main.py:162) mean the same whenever the framework supplies a request.

## Findings

| source | as written | input that shows it | evidently intended | confidence | as-written member | corrected member |
|---|---|---|---|---|---|---|
| main.py:44-56 | `read_jsonl` keeps every line that `json.loads` accepts, including JSON values that are not objects. `already_opened_recent` then calls `e.get` outside its `try` (main.py:64), which raises `AttributeError`. So `/api/img` fails before it logs or serves anything, and `tracking_by_email` fails the same way (main.py:177-179). `tracking_latest` never calls `.get` (main.py:185-186), so it does not fail: it returns the non-object value among the `events`. `Tracker.TrackingServer.TrackingLatest` and `Queries.NonRecordLineInNoView` hold for the corrected reading only. | an event log holding the line `42`, then any pixel request with no recent open logged after that line | a line that is not a JSON object is skipped, as malformed lines are | not executed; high | `Dedup.ScanAsWritten`, `EventStore.ReadJsonlAsWritten`, `EventStore.ReadJsonlAsWrittenInOrder`, `Dedup.NonObjectLineBreaksScan` | `EventStore.ParseLines` (with `EventStore.ReadKeepsRecordLinesInOrder` and `Dedup.ScanAsWrittenAgrees`) |
| main.py:128-141 | The request uses `stream=True`, so the body is read by `r.content` at main.py:135. That read happens after the success record was appended (main.py:131-134), inside the same `try`. A failed body read therefore appends an error record as well: two records for one attempt. | a remote image whose headers arrive but whose body read fails (connection reset or read timeout mid-body) | one image-read record per attempt: the error record only | not executed; medium | `ImageResolver.RemoteAsWritten`, `ImageResolver.BodyFailureLoggedTwice` | `ImageResolver.Remote` |

The rest of the model uses the corrected members. Reading skips non-object lines
(`Tracker.TrackingServer.ReadJsonl`), and the remote branch logs one record
(`Tracker.TrackingServer.ProxyRemote`).
