# llm-watcher2 decision logic in Dafny

llm-watcher2 probes a list of Ollama servers on a schedule. It sends each one
a small chat request and records failures in MongoDB. When a failed server
names a Docker container, it restarts that container. Two collections of
the `ollama_monitor` database are written: `crash_events` and
`restart_events`. A small REST API reads them back (`GET /crashes`,
`GET /restarts`) and clears crashes (`DELETE /crashes`).

This project models the decisions inside that program. Network, database,
Docker and scheduling are reduced to inputs and outputs:

- `Probe` (probe.dfy) covers how a transport error becomes a crash type and
  how the restart event is built from the restart outcome.
- `Watcher` (watcher.dfy) has the class `EventStore`. It holds the two
  collections as sequences. `CheckServer` is the recovery branch of
  `checkServer` as written, and `CheckServerIntended` is the same branch with
  the corrected crash type (see Findings). `DeleteAllCrashes` and `Handle`
  are the HTTP handlers.
- `Query` (query.dfy) covers `fetchEvents`: reading `limit` and `sort` and
  running the find. `Strconv` (strconv.dfy) is the `strconv.Atoi` it
  relies on, with `strconv.Itoa` as its inverse.
- `Store` (store.dfy) is the contract the handlers ask of a collection: a
  find sorted on `timestamp`, with a limit.
- `Routes` (routes.dfy) decides which handler a path and method reach.
- `Events` (events.dfy) holds the records; `Wrappers` holds `Option`.

Inputs that stand for the outside world:

- Both `time.Now()` readings are integer timestamps.
- The result of `client.Do` is a `ProbeOutcome`.
- The result of `docker restart` is a `RestartOutcome` (success, or failure
  with its error text).
- Whether each `InsertOne`, `Find`, cursor read or `DeleteMany` succeeded is
  a boolean.

A failed insert appends nothing. It changes nothing else: the events that
are attempted never depend on those flags.

## Model

| member | source | states |
|---|---|---|
| `Probe.ClassifyAsWritten` | main.go:131-134 | The crash type as written: "modelTimeouted" exactly when the error equals `context.DeadlineExceeded`; "ollamaTimeouted" for every other error |
| `Probe.Classify` | main.go:131-134 | The corrected crash type: "modelTimeouted" exactly when a deadline occurs anywhere in the error chain (`errors.Is`); "ollamaTimeouted" otherwise; always one of the two |
| `Probe.AsWrittenNeverModelTimeout` | main.go:128-134 | Every error `client.Do` returns is a `*url.Error`, so the `==` test classifies all of them as "ollamaTimeouted" |
| `Probe.DeadlineCounterexample` | main.go:124-134 | A request whose context deadline expired: the as-written test gives "ollamaTimeouted", the corrected one "modelTimeouted" |
| `Probe.ClassifyDiffersOnlyOnWrappedDeadline` | main.go:131-134 | The two classifications disagree if and only if the error wraps `DeadlineExceeded` without being it |
| `Probe.WrappedDeadlineIsModelTimeout` | main.go:124-134 | A deadline wrapped in any number of `*url.Error` layers is classified "modelTimeouted" |
| `Probe.BuildRestartEvent` | main.go:152-166 | The restart event copies timestamp, container name, URL and model. Its status is "fail" with the restart error text when the restart fails, "success" with an empty message when it succeeds. It is well formed |
| `Watcher.EventStore.CheckServer` | main.go:128-184 | `checkServer` as written. A response of any status, or a request that cannot be built, records nothing. A transport error attempts exactly one crash event (URL, model, type from the `==` test) and one restart event exactly when the container name is non-empty. Every error `client.Do` returns is stored as "ollamaTimeouted". Each collection grows by its event exactly when that insert succeeds, and a failed insert changes nothing else. The store invariant is kept |
| `Watcher.EventStore.CheckServerIntended` | main.go:128-184 | The same recovery branch with the corrected crash type: a deadline anywhere in the error chain is stored as "modelTimeouted". Events attempted and collection growth are as for `CheckServer` |
| `Watcher.EventStore.RecordFailure` | main.go:131-175 | For one transport error: the crash event carries URL, model and the classified type. A restart event is attempted exactly when the container name is non-empty, whether or not the crash insert succeeded. Each collection grows by its event exactly when that insert succeeds. The store invariant is kept |
| `Watcher.EventStore.InsertCrash` | main.go:143 | `InsertOne` on crash_events appends the event when the database accepts it and leaves both collections otherwise unchanged. An event with one of the two crash types keeps the store invariant |
| `Watcher.EventStore.InsertRestart` | main.go:167 | `InsertOne` on restart_events appends the event when the database accepts it and leaves both collections otherwise unchanged. A well-formed restart event keeps the store invariant |
| `Watcher.EventStore.DeleteAllCrashes` | main.go:279-290 | Deleting crashes reports the prior number of crash events, leaves none and does not touch restart events |
| `Watcher.EventStore.Handle` | main.go:273-303 | GET on /crashes or /restarts returns a valid find result for the parsed limit and sort, or a 500 naming the failed query or decode. Every crash returned has one of the two crash types, and every restart event returned is well formed. DELETE on /crashes reports the deleted count, or gives a 500 and deletes nothing. Other methods give 405, other paths 404. Restart events are never changed |
| `Watcher.EventStore.DeleteThenRead` | main.go:275-290 | DELETE /crashes followed by GET /crashes: the delete reports how many crash events there were, the read that follows returns an empty list, and restart events are untouched |
| `Strconv.Atoi` | main.go:214 | A parse succeeds exactly when the string is an optional sign followed by at least one decimal digit and its value fits in 64 bits. The result is then that value, negated after a `-` |
| `Strconv.AtoiFormatInt` | main.go:214 | Every 64-bit integer, once formatted in decimal, parses back to itself |
| `Strconv.AtoiRejectsOutOfRange` | main.go:214 | Any well-formed decimal integer outside the 64-bit range, with or without sign or leading zeros, is a parse error |
| `Strconv.LeadingZeroValue` | main.go:214 | A leading zero does not change the value of a digit string |
| `Strconv.AtoiIgnoresLeadingZeroAndPlus` | main.go:214 | A leading zero or an explicit `+` before a digit string does not change what it parses to |
| `Query.QueryGet` | main.go:208-209 | A query parameter reads as its first value, or as "" when it is absent or has no value |
| `Query.ParsedLimit` | main.go:211-217 | The limit is always between 1 and the largest 64-bit integer. It equals the parsed parameter whenever that is a positive integer. Any limit other than 10 is exactly what the parameter parsed to |
| `Query.ParsedSortOrder` | main.go:212-220 | The sort order is ascending (1) exactly when the parameter is "asc". Otherwise it is descending (-1), including when the parameter is absent |
| `Query.PositiveLimitIsHonoured` | main.go:213-217 | A positive 64-bit integer written in decimal is used as the limit |
| `Query.NonPositiveLimitDefaults` | main.go:211-217 | Every limit that is not a decimal integer (empty, non-numeric, a lone sign), and every decimal integer that is zero or negative, gives the default 10 |
| `Query.FetchParams` | main.go:208-220 | The limit and sort order read from the query agree with `ParsedLimit` and `ParsedSortOrder` on its first `limit` and `sort` values; the limit is at least 1 |
| `Query.FetchEvents` | main.go:207-239 | A failed query gives 500 "Failed to query …". A failed cursor read gives 500 "Failed to decode …". Otherwise the documents are a valid find result for the parsed limit and order |
| `Store.Find` | main.go:222-226 | The find result has min(limit, size) documents, sorted on timestamp in the requested direction. They are drawn from the collection (as a sub-multiset), and no document left out comes before a returned one |
| `Store.InsertSorted` | main.go:223 | Inserting into the sorted working sequence adds exactly the new document (multiset) |
| `Store.InsertSortedKeepsOrder` | main.go:223 | Inserting into a sequence sorted on timestamp keeps it sorted |
| `Store.MultisetSplit` | main.go:224 | Taking the first `limit` documents leaves exactly the rest of the collection behind (as multisets) |
| `Store.SortedPrefix` | main.go:224 | The first `limit` documents of a sorted sequence are sorted, drawn from it, and come before every document left out |
| `Store.FindResultDrawnFromDocs` | main.go:222-226 | Every document a find returns is a document of the collection |
| `Store.AscendingLimitTwoOfThree` | main.go:222-226 | With events at t1 < t2 < t3, an ascending find limited to 2 returns exactly the events at t1 and t2, in that order |
| `Routes.Route` | main.go:273-303 | /crashes: GET fetches, DELETE deletes, anything else is 405. /restarts: GET fetches, anything else is 405. Each condition holds in both directions. Any other path is not found |

## Left out

- HTTP client construction, the 5-second dial timeout, the response-header timeout and the `timeout+5` context deadline (main.go:83-91, 124-128). They involve real time and the network. Only their result, a `ProbeOutcome`, is modelled.
- JSON payload marshalling and request building (main.go:93-122). A failure there is the `BuildFailed` outcome, which records nothing.
- The `docker restart` subprocess (main.go:158-159). It is a foreign call; its success or error text is an input.
- The MongoDB driver, its connection and ping, cursor decoding and JSON encoding of responses (main.go:69-79, 226-244). Only the abstract sequence contract is modelled. `Store.Find` produces its answer by insertion sort to witness the contract; the database's own sort is not modelled.
- Watcher.EventStore.Handle: a failed `DeleteMany` is modelled as deleting nothing. The source does not say what a failed bulk delete leaves behind.
- Watcher.EventStore.Handle: the text that `http.Error` writes ends with a newline, which the model leaves out. A failure to encode the JSON response after headers are sent is only logged, so it is not modelled.
- Watcher.EventStore.Handle: the 404 for unregistered paths comes from Go's default request multiplexer, not from main.go.
- Watcher.EventStore.Handle: `path` is the path after the multiplexer has cleaned it. A non-canonical path such as `//crashes` or `/crashes/.` gets a 301 redirect to the clean path, which the model leaves out.
- Probe.Classify: `GoError` has only plain wrappers, so it cannot express an error that matches `context.DeadlineExceeded` through its own `Is` method. Recent Go versions give dial timeouts such a method, and `errors.Is` would then also call a dial timeout a model timeout.
- Cron scheduling, the immediate first round and the goroutine fan-out (main.go:188-204). Their point is timing and concurrency. One probe is modelled as one sequential `CheckServer` call.
- YAML configuration loading, the `MONGO_URL` default, `ListenAndServe` and fatal exits (main.go:55-66, 249-264, 305-308). These are startup I/O.
- Log lines. They have no effect on stored state or responses.
- The 64-bit `int` of `strconv.Atoi` is modelled by an explicit range check. The `int64(...)` conversion at main.go:215 loses nothing.

## Findings

| source | as written | input that shows it | evidently intended | confidence | as-written member | corrected member |
|---|---|---|---|---|---|---|
| main.go:132 | `err == context.DeadlineExceeded` compares the error returned by `client.Do`. That error is always a `*url.Error` wrapper, so the test never holds and every crash is typed "ollamaTimeouted" | A probe whose `timeout+5` context expires: `client.Do` returns `&url.Error{Op: "Post", Err: context.DeadlineExceeded}` | An expired request deadline is "modelTimeouted": `errors.Is(err, context.DeadlineExceeded)` as modelled, or more precisely `ctx.Err() == context.DeadlineExceeded`, which also leaves dial timeouts as "ollamaTimeouted" | high; not executed | `Probe.ClassifyAsWritten` (used by `Watcher.EventStore.CheckServer`; shown by `Probe.AsWrittenNeverModelTimeout`, `Probe.DeadlineCounterexample`) | `Probe.Classify` (used by `Watcher.EventStore.CheckServerIntended`) |
