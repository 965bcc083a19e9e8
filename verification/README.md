# urlshort path dispatch, modelled in Dafny

This project models `handler.go` of the `urlshort` package: the two
responders that turn a request path into a redirect URL.

- `MapHandler` takes a table from path to URL and a fallback handler. It
  ranges over the table. When a key equals the request path, it writes that
  key's URL as the response body and returns. When no key matches, it calls
  the fallback.
- `YAMLHandler` first decodes a YAML document into a list of
  `PathMappings` records (`path`, `url`). A decoding error is returned
  together with no handler. Otherwise it returns a handler that scans the
  records in document order and serves the first record whose path equals
  the request path, falling back when none does.
- In both, a failed write of the URL makes the handler call the fallback and
  then return. It never looks for another match.

HTTP is abstracted away. A request is `Request(path, writeSucceeds)`: the URL
path, compared verbatim, and whether writing to the response writer succeeds.
What a handler does is an `Outcome`: `Wrote(url)`, `Fallback`, or
`WroteFailedThenFallback(url)`. A built handler is a Dafny function value
`Request -> Outcome`. YAML decoding is a parameter: `YAMLHandler` receives
the decoder's result, `Success(records)` or `Failure(ParseError)`, and returns
`Result<HandlerFunc, ParseError>` in place of Go's `(handler, error)` pair.

Go visits map keys in an unspecified order. `Handler.ScanKeys` is the range
loop for one given visiting order. `Handler.MapHandler` is stated to agree with
that loop for every order that visits each key once.

Files:
- `wrappers.dfy`: the `Result` type.
- `handler.dfy`: module `Handler`, with the data model and both responders.
- `properties.dfy`: module `HandlerProperties`, with the lemmas relating the
  responders to each other and to their loops, and worked examples.

Duplicate paths in a YAML document: the `return` at handler.go:72 follows
the write whether or not it failed, so the scan stops at the first match.
The model is first-match-wins, as the code is.

## Model

| member | source | states |
|---|---|---|
| Handler.WriteOrFallback | handler.go:23-28 | after a match, the URL is written; the fallback is called exactly when that write fails; the outcome is never a plain fallback and always carries the matched URL |
| Handler.TraversalExists | handler.go:20 | every table has an order that visits each key exactly once, so the agreement stated for MapHandler is not vacuous |
| Handler.ScanKeys | handler.go:20-31 | the range loop over any visiting order of keys: if the request path is among the visited keys, the outcome is the write (or failed write then fallback) of that key's URL; otherwise it is a fallback |
| Handler.MapHandler | handler.go:17-33 | the map responder gives, for every request, the same outcome as the range loop under every order that visits each key exactly once |
| Handler.ScanRecords | handler.go:64-75 | the YAML scan falls back exactly when no record has the request path; when record i is the first with that path, the outcome is the write of record i's URL |
| Handler.YAMLHandler | handler.go:56-77 | a decoding error is returned unchanged with no handler; on success a handler is returned that falls back when no record matches and otherwise serves the first matching record's URL |
| HandlerProperties.MapExactMatch | handler.go:20-28 | a key path with a successful write yields exactly that key's URL and no fallback call |
| HandlerProperties.MapMissFallsBack | handler.go:20-31 | a path that is not a key falls back without writing |
| HandlerProperties.EmptyMapAlwaysFallsBack | handler.go:20-31 | the empty table falls back on every request |
| HandlerProperties.TraversalOrderIrrelevant | handler.go:20-21 | any two key-visiting orders of the same table give the same outcome |
| HandlerProperties.NoPathNormalisation | handler.go:21 | a trailing slash, a change of case or a literal '?' inside the decoded path makes a different path, which falls back |
| HandlerProperties.FirstMatchExists | handler.go:64-65 | a record with the request path at some index means a first such record exists at or before it, which is the record the scan stops at |
| HandlerProperties.LaterRecordsNeverUsed | handler.go:64-73 | once the records contain a match, appending further records does not change the outcome |
| HandlerProperties.ShadowedRecordIgnored | handler.go:64-73 | replacing any record after the first match, including by a duplicate path with another URL, leaves the outcome at the first match's URL |
| HandlerProperties.FailedWriteStopsScan | handler.go:67-72 | a failed write on the first match calls the fallback and stops; the outcome never names a later duplicate's different URL |
| HandlerProperties.BuildersAgree | handler.go:64-75 | with pairwise distinct record paths, the YAML scan and the map responder over the table {path: url} give the same outcome on every request |
| HandlerProperties.YAMLHandlerAgreesWithMapHandler | handler.go:56-77 | with distinct paths, the handler YAMLHandler returns agrees on every request with MapHandler over {path: url} |
| HandlerProperties.RepeatedPathBreaksAgreement | handler.go:64-73 | with a repeated path the YAML responder serves the first URL while a last-write-wins table holds the second, so distinctness is needed for agreement |
| HandlerProperties.MapScenarios | handler.go:17-33 | the godoc short path is served from the map and an unknown path falls back |
| HandlerProperties.YAMLScenarios | handler.go:56-77 | a two-record document serves its second record's URL for its path; a decoding error is passed through with no handler |

`HandlerProperties.ToTable` builds the table `{path: url}` from records,
inserting in document order so that a later record overwrites an earlier
one. It is not part of `handler.go`. It exists to state the agreement of the
two builders.

## Left out

- YAML decoding (`yaml.Unmarshal`, handler.go:58) is an external library. The model takes its result, a record list or an error, as input and does not model the YAML grammar or field defaulting.
- `net/http` types (`http.ResponseWriter`, `http.Request`, `ServeHTTP`) are replaced by `Request` and `Outcome`. What the fallback handler itself does is outside the model; the model records only that it is called.
- Logging and debug printing (`fmt.Printf` at handler.go:19 and 62, `log.Infof`, `log.Warnf`) have no effect on behaviour and are not modelled.
- Concurrent serving of requests is not modelled; the model's responders are pure functions.
- Later changes to the caller's table: Go's `MapHandler` closure holds the caller's map by reference (handler.go:17-20) and reads it on every request, so a later change by the caller changes what is served, and a concurrent change is a fatal runtime error. The model assumes the table is not changed after `MapHandler` is called and serves it as it was then. The YAML record list needs no such assumption: `shortenedPaths` is local to `YAMLHandler` (handler.go:57).
- Query strings: the comparison at handler.go:21 uses the decoded URL path; net/http keeps the query string apart, so it never reaches the comparison and `Request.path` holds no query.
- A nil Go map behaves like an empty one under `range`; the model has only the empty map.
- Random map iteration: Go draws a fresh key order on each request; the model states agreement with every possible order instead of modelling the random choice.
