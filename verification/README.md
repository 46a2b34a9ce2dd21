# ponghub prober and history log, modelled in Dafny

ponghub probes HTTP endpoints of configured services and keeps a JSON log of
their availability over time. This project models the two pieces of it that
hold decisions:

- **The endpoint prober** (`internal/checker/endpoints.go`):
  - `getHttpMethod` normalises the configured method.
  - `isSuccessfulResponse` decides whether one response counts as up.
  - `checkEndpoint` first resolves the method, which can stop the program. It then
    works out the display URL and runs the TLS certificate pre-check. Then it makes up to
    `maxRetryTimes` attempts and stops at the first success. It fills in the
    `Endpoint` result record, including the counters, the failure details, the
    slowest successful latency and the retained status code and body.
- **The history log** (`internal/logger/log_result.go`):
  - `mergeOnlineStatus` reduces a list of tri-state statuses (NONE, ALL, PART) to one.
  - `processCheckResult` groups a service's probe results by URL.
  - `LoadExistingLog` classifies what reading the log file gave. That includes
    the JSON text `null`, which leaves the log map nil.
  - `OutputResults` records one run into the store. For each service the store
    keeps one history, plus one history per URL.

Modules:

- `Wrappers`: `Option`, `Result` and Go's zero-value map lookup.
- `Types`: the tri-state `TestResult`, and `Duration` with Go's truncating `Milliseconds()`.
- `Decimal`: the `%d` rendering used in failure details.
- `Structures`: the `Endpoint` result record.
- `Endpoints`: the prober.
- `LogResult`: the history log.

Unseen code and the outside world enter as data, never as bodiless functions:

- `Endpoints.Environment` carries:
  - the TLS pre-check result;
  - the network, as a function from the attempt index to what that attempt ran into;
  - the regular-expression engine;
  - `getTestResult` and `HighlightChanges`;
  - the two timestamps.
- `LogResult.HistoryOps` carries `History.AddEntry` and `History.CleanExpiredEntries`.
- `LoadExistingLog` and `OutputResults` take the file-read outcome, the JSON
  decoder and the save error as parameters.

`log.Fatalln` ends the program. The model treats it as an error result, so
every caller states when it happens:

- `Fatal.UnsupportedMethod` for a refused HTTP method;
- `Fatal.BadRegex` for a malformed response pattern.

How the attempt loop is written: `RunAttempts` keeps going while attempts fail.
Then it looks at the attempt that stopped it: the budget was used up, the
attempt passed (Go's `break`), or its pattern was malformed (Go's
`log.Fatalln`). That is the order of events in Go's loop.

The contract names the two ways the loop can end:

- `Exhausted`: every attempt failed.
- `PassedAt`: the loop stopped at its first pass.

`RunIsDetermined` proves that these two predicates pin the tally down completely.

How the store update is written: the service loop is proved once over any
per-entry update (`UpdateEach`). It is then applied with the real one,
`EntryAfter`.

Behaviour of the code worth knowing, each fact proved in the model:

- **`mergeOnlineStatus` and PART.** The code ignores PART whenever NONE or ALL
  occurs. So `[NONE, PART]` gives NONE and `[ALL, PART]` gives ALL
  (`LogResult.MergeTruthTable`).
- **Merging is not compositional.** Merging the merges of `[NONE, ALL]` and
  `[NONE]` gives NONE, while merging all three at once gives PART
  (`LogResult.MergeDoesNotCompose`).
- **Response time.** The loop stops at the first success. So the recorded
  response time is the latency of that one successful attempt, or 0 when no
  attempt succeeded. A negative latency counts as 0, because Go compares it
  with the zero duration (`Endpoints.AtLeastZero`).
- **A `null` log file.** `json.Unmarshal` turns the text `null` into a nil map.
  `OutputResults` then panics at the first service it stores, so only a run
  with no services gets through (`LogResult.OutputResults`,
  `LogResult.NilStoreSurvivesEmptyRun`).

## Model

| member | source | states |
|---|---|---|
| Endpoints.GetHttpMethod | internal/checker/endpoints.go:155-178 | After upper-casing: POST and PUT are chosen exactly for "POST" and "PUT"; the six names DELETE, HEAD, PATCH, OPTIONS, TRACE and CONNECT are refused; everything else, including "GET", "" and unknown names, becomes GET |
| Endpoints.UpperRune | internal/checker/endpoints.go:156 | After upper-casing a rune, no ASCII lower-case letter, dotless i or long s is left. A rune that changes becomes its own capital: the ASCII letter 32 code points below it, 'I' for the dotless i, or 'S' for the long s. ASCII capitals are kept |
| Endpoints.Upper | internal/checker/endpoints.go:156 | `strings.ToUpper` keeps the length and upper-cases every rune in place |
| Endpoints.UpperIdempotent | internal/checker/endpoints.go:156 | Upper-casing an already upper-cased name changes nothing |
| Endpoints.GetHttpMethodIgnoresCase | internal/checker/endpoints.go:156 | Two names with the same upper case get the same choice |
| Endpoints.GetHttpMethodOfUpper | internal/checker/endpoints.go:156 | Upper-casing the name before the call does not change the choice |
| Endpoints.GetHttpMethodAcceptsAnyCase | internal/checker/endpoints.go:156-162 | "get", "Post" and "pUt" are accepted as GET, POST and PUT |
| Endpoints.GetHttpMethodFoldsLongS | internal/checker/endpoints.go:156-160 | "po" + U+017F + "t" is POST, since Go upper-cases the long s to 'S' |
| Endpoints.GetHttpMethodRejectsAnyCase | internal/checker/endpoints.go:163-170 | "delete" and "Options" are refused, as DELETE and OPTIONS are |
| Endpoints.GetHttpMethodFallsBackToGet | internal/checker/endpoints.go:175-176 | An unknown name ("FETCH") and the empty name become GET |
| Endpoints.IsSuccessfulResponse | internal/checker/endpoints.go:182-210 | A malformed pattern is fatal, exactly when a pattern is set and the engine rejects it. A set pattern that does not match gives false whatever the codes. With nothing expected, success is exactly status 200. With only a pattern expected, a match is success. With a status expected, success is exactly status equality |
| Endpoints.SuccessFollowsPolicy | internal/checker/endpoints.go:182-210 | Whenever the decision is not fatal, it equals two independent tests: the body passes the pattern if one is set, and the status equals the expected one if set, else is 200 unless a pattern is set |
| Endpoints.Render | internal/checker/endpoints.go:52-124 | The failure-detail texts: "SSL Certificate Error: " (line 52), "StatusCode: N/A, Error: " (74, 90), "StatusCode: %d, Error: " (96) and "StatusCode or ResponseRegex mismatch: %d" (124), followed by the error or the `%d` of the status |
| Endpoints.Judge | internal/checker/endpoints.go:72-124 | One attempt's verdict. Fatal exactly for a read response whose set pattern is malformed. Passed exactly for a read response that the independent success policy accepts. A rejected response fails with the mismatch line for its status. A read error fails with its status and error. A build or transport error fails with "N/A" and its error |
| Endpoints.TlsDetails | internal/checker/endpoints.go:46-59 | The certificate check adds one detail line exactly when it fails, and none otherwise |
| Endpoints.CertFields | internal/checker/endpoints.go:31-58 | The HTTPS flag stays set exactly when the certificate check succeeded, and only then are the days and expiry flag taken from it. Otherwise they stay 0 and false |
| Endpoints.DisplayOf | internal/checker/endpoints.go:36-43 | The display URL and segments are the resolver's for the template. When no template is set, they are the parsed URL and no segments |
| Endpoints.AttemptDetails | internal/checker/endpoints.go:72-126 | For k failed attempts: exactly k lines, line j being the rendered reason of attempt j |
| Endpoints.LastRead | internal/checker/endpoints.go:104-105 | Finds the last of the first k attempts whose body was read in full; None means no attempt got that far |
| Endpoints.AtLeastZero | internal/checker/endpoints.go:111-113 | The slowest time after one success is that latency, or 0 when the latency is not above the initial 0 |
| Endpoints.RunAttempts | internal/checker/endpoints.go:61-130 | An error means some attempt within the budget hit a malformed pattern after all earlier ones failed. Otherwise the loop either used up the budget with every attempt failing (one line each, time 0, code and body of the last fully read response or 0 and "") or stopped at its first passing attempt (one line per earlier attempt, that attempt's latency, its status code, body cleared) |
| Endpoints.RunIsDetermined | internal/checker/endpoints.go:61-130 | Any two tallies that satisfy the loop's contract over the same attempts are equal |
| Endpoints.AbortExcludesTally | internal/checker/endpoints.go:184-189 | A run that hits a malformed pattern has no tally at all |
| Endpoints.CheckEndpoint | internal/checker/endpoints.go:19-152 | A refused method is fatal before anything else. A failed certificate check adds its line first and clears the HTTPS flag; a successful one sets days and expiry; neither costs an attempt. The loop's part of the record satisfies the loop contract. successNum is 0 or 1 and attemptNum at most the budget. There are as many detail lines as failed attempts, plus the certificate line. The status is `getTestResult(successNum, attemptNum)`. The configured URL and body and both timestamps are passed through. The display URL is the resolver's, or the parsed URL when no template is set |
| Decimal.IntToString | internal/checker/endpoints.go:96 | `%d` renders a '-' exactly for negative numbers. After it come decimal digits with no leading zero, and reading them back gives the magnitude |
| Decimal.NatToStringRoundTrip | internal/checker/endpoints.go:96 | Reading back the digits `%d` writes for a natural number gives that number |
| LogResult.Scan | internal/logger/log_result.go:19-27 | The scan's flags are true exactly when NONE, respectively ALL, occurs |
| LogResult.MergeOnlineStatus | internal/logger/log_result.go:14-37 | No statuses gives NONE. Otherwise NONE exactly when NONE occurs without ALL, ALL exactly when ALL occurs without NONE, and PART exactly when both or neither occur |
| LogResult.MergeDependsOnlyOnMembers | internal/logger/log_result.go:19-36 | Lists with the same members merge alike, so duplicates do not matter |
| LogResult.MergeIgnoresOrder | internal/logger/log_result.go:19-36 | A permutation merges to the same status |
| LogResult.MergeTruthTable | internal/logger/log_result.go:15-36 | [] is NONE; [ALL, NONE] is PART; [NONE, PART] is NONE; [ALL, PART] is ALL |
| LogResult.MergeDoesNotCompose | internal/logger/log_result.go:29-36 | Merging two merged groups can differ from merging everything at once |
| LogResult.FirstIndexOf | internal/logger/log_result.go:75-77 | The position of the first probe of a URL: it has that URL and no earlier probe does |
| LogResult.SlowestOf | internal/logger/log_result.go:78-82 | The largest response time among a URL's probes: no probe of the URL is slower, and one attains it |
| LogResult.AddProbe | internal/logger/log_result.go:74-82 | One probe adds its URL to the keys, keeps a well-formed grouping well-formed, keeps a known first time, and leaves the slowest time at least the probe's and at least the previous one |
| LogResult.StatusesOfSnoc | internal/logger/log_result.go:74 | Appending a probe appends its status to its own URL's list and to no other |
| LogResult.AddProbeStep | internal/logger/log_result.go:73-83 | One iteration of the grouping loop turns a correct grouping of the earlier probes into a correct grouping of one more |
| LogResult.GroupByUrl | internal/logger/log_result.go:67-99 | The three maps share one key set, and it is exactly the set of URLs that occur among the probes |
| LogResult.GroupByUrlCorrect | internal/logger/log_result.go:67-99 | Each URL gets its probes' statuses in probe order, the start time of its first probe and its largest response time |
| LogResult.ProcessCheckResult | internal/logger/log_result.go:67-99 | The grouping covers exactly the URLs of the health probes followed by the API probes |
| LogResult.PortsAfter | internal/logger/log_result.go:129-141 | The port map afterwards has the old URLs plus the probed ones |
| LogResult.PortsInOrder | internal/logger/log_result.go:129-141 | The Go loop over the URL map, in a given visiting order: afterwards the port map has the old URLs plus the visited ones |
| LogResult.PortsOrderIrrelevant | internal/logger/log_result.go:129-141 | Recording the URLs one by one, in any duplicate-free order Go's map iteration picks, gives the same port map as recording them all at once |
| LogResult.PortEntry | internal/logger/log_result.go:130-135 | The point recorded for a URL: its first start time, the merge of its statuses and its largest response time in milliseconds |
| LogResult.Record | internal/logger/log_result.go:137-139 | Recording a point is `AddEntry` followed by `CleanExpiredEntries(maxLogDays)` on the same history |
| LogResult.EntryAfter | internal/logger/log_result.go:119-141 | The service history gets one added and cleaned entry, with the service's start time and status. Every probed URL gets one added and cleaned entry: first start time, merged status and largest response time in milliseconds. URLs not probed keep their histories |
| LogResult.UpdateService | internal/logger/log_result.go:109-143 | Only the service's own entry changes. It is `EntryAfter` of the stored entry, or of an empty one for a new service, so a new service starts from an empty history and exactly its probed URLs |
| LogResult.UpdateEach | internal/logger/log_result.go:109-144 | The service loop adds exactly the services of the run and leaves every other service as it was |
| LogResult.UpdateEachVisitsOnce | internal/logger/log_result.go:109-144 | With distinct service names, each service's entry is updated once, from what the store held before the loop |
| LogResult.UpdateStore | internal/logger/log_result.go:109-144 | Same key and untouched-service guarantees for the loop that applies `EntryAfter` |
| LogResult.UpdateStoreStep | internal/logger/log_result.go:109-143 | The loop's first step is one `UpdateService` |
| LogResult.UpdateStoreRecordsEachServiceOnce | internal/logger/log_result.go:109-144 | With distinct names, each service's entry afterwards is `EntryAfter` of its entry before the run |
| LogResult.UpdateStoreSameNameTwice | internal/logger/log_result.go:109-143 | A service named twice in one run is updated twice in sequence, the second update starting from the first one's entry |
| LogResult.LoadExistingLog | internal/logger/log_result.go:40-55 | A missing file is an empty, non-nil store and no error. Any other read error is that error. Readable content gives exactly what the decoder gives, including a nil store for `null`, so an error exactly when reading or decoding failed |
| LogResult.OutputResults | internal/logger/log_result.go:102-153 | A load error is returned before anything is recorded. A nil store panics exactly when the run has services. Otherwise a save error is returned instead of the store. On success the store holds the old services plus the run's, and services not in the run are unchanged |
| LogResult.OutputResultsRecordsEachService | internal/logger/log_result.go:102-153 | After a successful run with distinct service names, each run service holds `EntryAfter` of what the loaded log had for it, or of an empty entry |
| LogResult.NilStoreSurvivesEmptyRun | internal/logger/log_result.go:102-153 | A log file holding `null` and a run with no services give an empty store and no error |
| LogResult.FirstRunStartsEmpty | internal/logger/log_result.go:102-117 | With no log file and distinct names, the saved store holds exactly the run's services, each recorded from an empty entry |
| Types.Milliseconds | internal/logger/log_result.go:134 | Go's `Duration.Milliseconds()`: whole milliseconds, truncated toward zero for both signs |

## Left out

- HTTP transport is not modelled: building and sending the request, headers, the request body, `client.Do`, reading and closing the body (internal/checker/endpoints.go:64-103). What each attempt ran into is an input.
- The per-call `timeout` is not modelled, because only the network uses it. `serviceName` is not modelled, because only log lines use it.
- `isHTTPS` and `checkSSLCertificates` are not part of this model. They are network-bound, so their combined answer (`PlainHttp`, `CertInfo` or `CertError`) is an input. The model does not tie `PlainHttp` to the URL's scheme.
- `regexp.Match` is not modelled. It is a foreign library, and its answer for a pattern and a body is an input: matched, not matched or malformed.
- `time.Now` and RFC 3339 formatting are not modelled, because they read the clock. The timestamps are opaque strings given as inputs, and latencies come with the attempts.
- `params.NewParameterResolver` and `HighlightChanges` are not part of this model; their result is an input, passed through.
- `getTestResult` is not part of this model. The status is whatever the given function returns for `(successNum, attemptNum)`.
- Logging (`log.Printf`, `logIfTest`) is not modelled, because it has no effect on results.
- `log.Fatalln` ends the process, and the model returns an error value instead. The unreachable `return http.MethodGet` after the fatal cases (internal/checker/endpoints.go:178) is therefore not modelled.
- Endpoints.UpperRune: upper-cases only the runes whose Go upper case is ASCII (a-z, U+0131, U+017F). Every other rune is kept, which gives the same comparison with the ASCII method names.
- `History.AddEntry` and `History.CleanExpiredEntries` are not part of this model. They are given functions, so the contracts say which history each is applied to, with which entry and how often, and nothing about retention.
- `TestResult.String()` is not modelled. Statuses stay tri-state values instead of their string tokens.
- `chk_result.CheckResult`, the type of the result's `Status` field, is not part of this model. It is modelled as the same tri-state `TestResult`.
- `checker.Checker` and its probe records are modelled as `ServiceResult` and `ProbeRecord`. `log_result.go` reads `Health`, `API`, `Online` and a per-probe `Online`, which are not among the fields of the shown structs (internal/types/structures/checker/checker.go:13-21). The model takes the health probes followed by the API probes as one sequence.
- JSON decoding, encoding and file I/O (`os.ReadFile`, `json.Unmarshal`, `json.MarshalIndent`, `os.WriteFile`) are reduced to their outcomes: a read outcome, a decoder function (a store, or nil for `null`) and an optional save error. That a nil store is written back as `null` is not modelled.
- LogResult.LoadExistingLog: the decoder always yields a store whose entries have a port map. In Go, a stored entry whose `PortsData` decodes as nil would make the first port update panic on assignment to a nil map. The model does not cover that input.
- Types.Duration: unbounded integers, so `int64` overflow of durations and the `int` conversion of milliseconds are not modelled.
- Probing several endpoints concurrently happens outside these files and is not modelled.
