# URL Ping Monitor: a Dafny model of the URL registry

The URL Ping Monitor keeps a registry of web addresses in `urls.json`.
Each entry maps an id to a record holding a url, an interval in minutes, a
monitoring flag and a few optional fields. The registry is served over a
small HTTP API, in two variants:

- **API/index.py**, the serverless variant. Every handler loads the whole
  table, changes it and writes it back:
  - add: strip and validate the url, clamp the interval, run a first probe;
  - delete;
  - check one entry and check every entry: record the probe's result in
    `last_check`;
  - toggle the monitoring flag.

  A probe result is classified as `up` or `down` by `check_url_status`.
- **app.py**, the threaded variant. `save_urls` cleans every record down to
  five fields before writing. A global `active_monitors` table records which
  ids have a background pinger. Start, stop, delete and the startup restore
  loop change that table together with the stored monitoring flag.

The model covers both variants:

- Modules:
  - `JsonValues`: JSON values, `dict.get` and Python truthiness.
  - `Text`: `str.strip`.
  - `UrlStore`: the file, as a class with a fallible write.
  - `Requests`: the shared request pieces.
  - `ApiIndex`: API/index.py.
  - `App`: app.py.
- Each handler is a method that returns the HTTP status code and JSON body,
  and changes the file (and, in app.py, `active_monitors`) in place.
- These are parameters: whether a write succeeds, the outcome of every
  probe, the result of `urlparse`, and freshly generated ids.
- The threaded server is the class `App.Server`. Its invariant `Valid` says
  every key of `active_monitors` is a stored id and every `active` flag is
  True. Every handler keeps it.
- `InSync` says the stored monitoring flags agree with `active_monitors`.
  Delete and stop keep it whenever their writes succeed. Add keeps it when
  its write succeeds and the new id is not already in `active_monitors`.
  Start keeps it when its write succeeds and it answers 200. The startup
  restore establishes it only when it starts from an empty
  `active_monitors`.

Some behaviour of the code is worth stating plainly, and the model follows
it:

- The interval is only raised to 1; the code does not cap it at 1440.
- Starting an id that is already active restarts it; the code does not
  refuse a second start.
- A url that is already registered is accepted again under a new id.
- A malformed record met by the startup restore loop stops startup; the
  code does not skip it.
- In app.py, start enters the id in `active_monitors` and answers 200 even
  when its write fails; the stored monitoring flag is then not set.

## Model

| member | source | states |
|---|---|---|
| Text.TrimStart | API/index.py:91 | the leading-whitespace cut of `strip`: a suffix of the input, everything removed is whitespace, and the result does not start with whitespace |
| Text.TrimEnd | app.py:94 | the trailing-whitespace cut of `strip`: a prefix of the input, everything removed is whitespace, and the result does not end with whitespace |
| Text.Strip | API/index.py:91 | `url.strip()` is empty exactly when the url is whitespace only; otherwise it neither starts nor ends with whitespace and is no longer than the input |
| Text.StripIsSlice | app.py:94 | the stripped url is a contiguous slice of the input with only whitespace cut away on either side |
| Text.StripIdempotent | API/index.py:91 | stripping an already stripped url changes nothing |
| UrlStore.Loaded | API/index.py:21-29 | load_urls returns the stored table, or `{}` when the file is missing or unreadable |
| UrlStore.UrlsFile.Load | app.py:25-33 | app.py's load_urls returns the stored table, or `{}` when the file is missing or unreadable |
| UrlStore.UrlsFile.Write | API/index.py:31-39 | save_urls reports whether the write succeeded; a successful write replaces the file, a failed one leaves it |
| Requests.IsValidUrl | API/index.py:41-47 | `is_valid_url`: false when `urlparse` raised; otherwise true exactly when both the scheme and the network location are non-empty |
| Requests.ClampInterval | API/index.py:101-102 | the interval is at least 1, kept when it is at least 1 and raised to 1 otherwise |
| ApiIndex.CheckUrlStatus | API/index.py:49-73 | an answered probe is `up` exactly when its code is below 400 and carries its code and response time; an exception is `down` with code 0, response time 0 and the exception's text; the timestamp is carried |
| ApiIndex.ApiEntry | API/index.py:112-120 | the stored entry has exactly seven fields, its id field equals its key, monitoring is False and last_check is the initial probe |
| ApiIndex.AddUrl | API/index.py:86-130 | empty url after stripping: 400 "URL is required"; invalid url: 400 with the http/https hint; failed write: 500; all three leave the file. Otherwise the file is the old table plus the new entry (name defaulting to the url, interval defaulting to 5 and clamped) and the reply is 201 with id and data |
| ApiIndex.DeleteUrl | API/index.py:132-143 | 200 exactly when the id is stored and the write succeeds, and then the file is the old table without that id and with nothing else changed; otherwise 404 "URL not found" and the file is unchanged |
| ApiIndex.CheckUrl | API/index.py:145-165 | unknown id: 404; an entry without url: 500 with KeyError's text; otherwise 200 with the probe status, and a successful write stores it as that entry's last_check only |
| ApiIndex.StampedKeepsEntries | API/index.py:174-177 | check-all's results and rewritten table are keyed by exactly the stored ids; each entry's result is its own status, which becomes its last_check, and every other field is kept |
| ApiIndex.ProbeAll | API/index.py:171-177 | the loop runs to the end exactly when every entry has a url, and then it has replaced every entry's last_check with that entry's status and gathered exactly those statuses by id |
| ApiIndex.CheckAllUrls | API/index.py:167-186 | when every entry has a url: 200 with each stored id's probe status (`Statuses`, built from `CheckUrlStatus`) and, if the write succeeds, every entry's last_check replaced; otherwise 500 with KeyError's text and nothing written |
| ApiIndex.UpdateMonitoring | API/index.py:188-207 | unknown id: 404 and nothing written; otherwise only that entry's monitoring field becomes the requested value (False when absent), and the reply says enabled or disabled by the value's truthiness |
| App.CleanRecord | app.py:41-48 | the record save_urls writes for one entry has exactly the five fields id, name, url, interval and monitoring |
| App.Clean | app.py:39-48 | the table save_urls writes has exactly the ids of the table it was given |
| App.CleanRecordShape | app.py:41-48 | a cleaned record has exactly id, name, url, interval and monitoring; a present field is kept, a missing id is null, url "", name the url, interval 5, monitoring False |
| App.CleanKeepsIds | app.py:39-48 | the cleaned table has the same ids as its input, each record cleaned to the five fields |
| App.CleanRecordIdempotent | app.py:41-47 | cleaning a cleaned record changes nothing |
| App.CleanIdempotent | app.py:39-48 | cleaning a cleaned table changes nothing, so saving what was loaded rewrites the same file |
| App.CleanedHasUrlAndInterval | app.py:44-45 | every entry of a table as save_urls writes it has url and interval, the two fields the pinger is started with |
| App.CleanKeepsMonitoring | app.py:46 | cleaning keeps whether each entry asks for monitoring |
| App.MonitoringOn | app.py:190 | `url_info.get('monitoring', False)` as a condition: false when the field is absent, otherwise the field's truthiness |
| App.SaveUrls | app.py:35-54 | the loop writes exactly the cleaned table when the write succeeds and leaves the file otherwise; the result is whether it succeeded |
| App.NewEntry | app.py:112-117 | the new entry has id, url, interval and monitoring, its id equal to its key and monitoring off |
| App.NewEntryAsSaved | app.py:112-119 | what add_url saves for a new entry is its five fields with name equal to the url |
| App.CleanRecordWithFlag | app.py:163-164 | setting the monitoring field commutes with cleaning a record |
| App.CleanThenFlag | app.py:163-164 | setting an entry's monitoring flag on the cleaned table is cleaning the table with the flag set |
| App.FlagTwice | app.py:177 | of two monitoring writes to one entry the second overrides the first |
| App.LastFlagWins | app.py:163-178 | of two saved monitoring changes to one entry, the file is as if only the later one had happened: start then stop leaves what stop leaves |
| App.StopIdempotent | app.py:168-180 | stopping twice leaves the same file as stopping once |
| App.RestoredIds | app.py:189-191 | the startup loop starts exactly the stored ids whose monitoring flag is truthy |
| App.CleanKeepsRelations | app.py:39-48 | cleaning keeps both the active_monitors invariant and the agreement of the monitoring flags |
| App.AddKeepsRelations | app.py:112-119 | adding an unmonitored entry keeps the invariant, and the agreement when the new id is not already active |
| App.DeleteKeepsRelations | app.py:127-134 | dropping the id from active_monitors and from the table keeps the invariant and the agreement |
| App.StartKeepsRelations | app.py:153-164 | entering the id in active_monitors and setting its flag keeps the invariant and the agreement |
| App.StopKeepsRelations | app.py:171-178 | dropping the id from active_monitors and clearing its flag keeps the invariant and the agreement |
| App.Server.constructor | app.py:23 | active_monitors starts empty and the invariant holds |
| App.Server.GetUrls | app.py:81-88 | the reply has exactly the stored ids, each entry with is_active True exactly when its id is in active_monitors |
| App.Server.AddUrl | app.py:90-121 | empty url after stripping: 400 "URL is required"; invalid url: 400 "Invalid URL"; failed write: 500 "Save failed"; all leave the file. Otherwise the file is the cleaned old table plus the new entry and the reply is 201 with the id. Keeps the invariant |
| App.Server.DeleteUrl | app.py:123-136 | the id leaves active_monitors whether stored or not; 200 "Deleted" with the cleaned table minus the id when it was stored and the write succeeds, otherwise 404 "Not found" and the file is unchanged. Keeps the invariant |
| App.Server.StartMonitoring | app.py:138-166 | unknown id: 404 and nothing changes. Otherwise the id is active; with url and interval present the reply is 200 even if the write fails, and a successful write sets the entry's monitoring True; a record without them is a 500 after the id was entered. A file save_urls wrote never gives the 500 |
| App.Server.StopMonitoring | app.py:168-180 | always 200 "Stopped"; the id leaves active_monitors, and a stored entry gets monitoring False when the write succeeds. Keeps the invariant |
| App.Server.RestoreMonitors | app.py:186-197 | startup succeeds exactly when every entry asking for monitoring has url and interval, and then exactly those ids are added to active_monitors. Keeps the invariant |

## Left out

- The Flask layer is not modelled: routing, `request.json`, `jsonify`, CORS, templates, the health endpoints and the error handlers. Each handler is a method returning a code and a body. The body of Flask's reply to an uncaught exception is not modelled (`InternalError` has a null body).
- Request fields are typed: the url is a string and the interval an integer, so some inputs the source handles are not modelled:
  - A float or boolean interval: `interval < 1` compares it without error. 0.5 is raised to 1, while 2.5 or `true` is stored as given and answered 201. The model leaves these out only because `AddRequest.interval` is an `int`.
  - A string, null, array or object interval: the comparison raises a TypeError, answered with 500.
  - A url that is not a string: `.strip()` raises an AttributeError, answered with 500.
- Network probing, wall-clock time and response-time rounding are inputs: a probe outcome carrying its own timestamp, and a `createdAt` value.
- The background pinger `ping_url`, thread creation, `time.sleep`, and the race when a running id is restarted are left out. So are the transient `'active': False` writes that only the pinger threads can observe. `active_monitors` is modelled as id to `active` flag.
- Check-all's probe outcomes are a function of the entry id rather than of its url, since each probe is an independent network call. Two entries with the same url may therefore get different outcomes, as they can in the source.
- `urlparse` is a function parameter returning the scheme and network location, or None when it raises. Only the check on its result is modelled.
- Id generation (`uuid4`, and `url_<n+1>_<seconds>`) is a parameter. Nothing requires the id to be fresh, and a colliding id overwrites the stored entry, as in the source.
- File I/O is abstracted: a failed write leaves the old file. A partially written file and changes made to the file outside the server are not modelled.
- `active_checks` in API/index.py is never used, and API/index.py's `get_urls` only returns the loaded table, so neither is modelled.
- App.Server.AddUrl: keeps `InSync` only when the new id is not already in active_monitors; a colliding id can overwrite a monitored entry with an unmonitored one.
- App.Server.RestoreMonitors: states `InSync` only for a restore into an empty active_monitors, the case at startup.
