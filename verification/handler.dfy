/** The two path-dispatch responders of the URL shortener.

    A responder looks at the path of an incoming request. If a mapping
    assigns a URL to exactly that path, it writes the URL as the response
    body; otherwise it hands the request to a caller-supplied fallback.
    HTTP is abstracted away: a request is its path plus whether writing to
    the response succeeds, and the observable behaviour is an `Outcome`. */
module Handler {
  import opened Wrappers

  /** The parts of a request and its response writer that a responder
      consults: the URL path, compared verbatim, and whether the write of
      the response body succeeds. */
  datatype Request = Request(path: string, writeSucceeds: bool)

  /** What a responder does with one request.
      - `Wrote(url)`: the body `url` was written; the fallback is not called.
      - `Fallback`: nothing was written; the fallback is called once.
      - `WroteFailedThenFallback(url)`: writing `url` was attempted and
        failed; the fallback is then called once, and nothing else happens. */
  datatype Outcome =
    | Wrote(url: string)
    | Fallback
    | WroteFailedThenFallback(url: string)
  {
    /** The fallback handler ends up serving the request. */
    predicate CallsFallback() {
      !Wrote?
    }
  }

  /** A built responder, the model of an `http.HandlerFunc`. */
  type HandlerFunc = Request -> Outcome

  /** The branch both responders take once they found the path: write the
      URL, and when that write fails, call the fallback and stop. */
  function WriteOrFallback(url: string, req: Request): (o: Outcome)
    ensures o.Wrote? <==> req.writeSucceeds
    ensures !o.Fallback? && o.url == url
    ensures o.CallsFallback() <==> !req.writeSucceeds
  {
    if req.writeSucceeds then Wrote(url) else WroteFailedThenFallback(url)
  }

  // ---------------------------------------------------------------------
  // MapHandler
  // ---------------------------------------------------------------------

  /** `order` is an order in which Go's `range` may visit the keys of
      `pathsToUrls`: every key exactly once, nothing else. */
  ghost predicate IsTraversal(pathsToUrls: map<string, string>, order: seq<string>) {
    && (forall k :: k in order <==> k in pathsToUrls)
    && (forall i, j :: 0 <= i < j < |order| ==> order[i] != order[j])
  }

  /** Every table has a traversal: take any key, then traverse the rest. */
  lemma TraversalExists(pathsToUrls: map<string, string>) returns (order: seq<string>)
    ensures IsTraversal(pathsToUrls, order)
    decreases |pathsToUrls|
  {
    if |pathsToUrls| == 0 {
      order := [];
    } else {
      var k :| k in pathsToUrls;
      var rest := pathsToUrls - {k};
      var tail := TraversalExists(rest);
      order := [k] + tail;
    }
  }

  /** The range loop of MapHandler's closure, visiting the keys in `keys`
      (drawn from the map) in that order and returning at the first key equal
      to the request path. Keys not visited are never consulted. */
  function ScanKeys(pathsToUrls: map<string, string>, keys: seq<string>, req: Request): (o: Outcome)
    requires forall k :: k in keys ==> k in pathsToUrls
    ensures req.path in keys ==> o == WriteOrFallback(pathsToUrls[req.path], req)
    ensures req.path !in keys ==> o == Fallback
  {
    if |keys| == 0 then
      Fallback
    else if keys[0] == req.path then
      WriteOrFallback(pathsToUrls[keys[0]], req)
    else
      ScanKeys(pathsToUrls, keys[1..], req)
  }

  /** MapHandler: the responder built from an in-memory table. Building it
      cannot fail. It serves each request exactly as the range loop does,
      whatever order the runtime picks for visiting the keys. */
  function MapHandler(pathsToUrls: map<string, string>): (h: HandlerFunc)
    ensures forall req: Request, order :: IsTraversal(pathsToUrls, order) ==>
              h(req) == ScanKeys(pathsToUrls, order, req)
  {
    (req: Request) =>
      if req.path in pathsToUrls then WriteOrFallback(pathsToUrls[req.path], req)
      else Fallback
  }

  // ---------------------------------------------------------------------
  // YAMLHandler
  // ---------------------------------------------------------------------

  /** One record of the YAML document: a path and the URL it redirects to.
      Both are arbitrary strings; empty ones are accepted. */
  datatype PathMappings = PathMappings(path: string, url: string)

  /** The error the YAML decoder reports; its contents are opaque here. */
  datatype ParseError = ParseError(message: string)

  /** No record of `records` has path `path`. */
  ghost predicate NoRecordFor(records: seq<PathMappings>, path: string) {
    forall i :: 0 <= i < |records| ==> records[i].path != path
  }

  /** Record `i` is the first one, in document order, whose path is `path`. */
  ghost predicate FirstMatchAt(records: seq<PathMappings>, path: string, i: int) {
    && 0 <= i < |records|
    && records[i].path == path
    && forall j :: 0 <= j < i ==> records[j].path != path
  }

  /** The loop of YAMLHandler's closure: scan the records in order and
      return at the first one whose path equals the request path. */
  function ScanRecords(records: seq<PathMappings>, req: Request): (o: Outcome)
    ensures o == Fallback <==> NoRecordFor(records, req.path)
    ensures forall i :: FirstMatchAt(records, req.path, i) ==>
              o == WriteOrFallback(records[i].url, req)
  {
    if |records| == 0 then
      Fallback
    else if records[0].path == req.path then
      WriteOrFallback(records[0].url, req)
    else
      ScanRecords(records[1..], req)
  }

  /** YAMLHandler, with the YAML decoding already done: `parsed` is what
      decoding the document produced. A decoding error is returned unchanged
      and no responder is built; otherwise the responder serves the first
      record whose path matches and falls back when none does. */
  function YAMLHandler(parsed: Result<seq<PathMappings>, ParseError>): (r: Result<HandlerFunc, ParseError>)
    ensures parsed.Failure? ==> r == Failure(parsed.error)
    ensures parsed.Success? ==> r.Success?
    ensures parsed.Success? ==> forall req: Request ::
              NoRecordFor(parsed.value, req.path) ==> r.value(req) == Fallback
    ensures parsed.Success? ==> forall req: Request, i ::
              FirstMatchAt(parsed.value, req.path, i) ==>
                r.value(req) == WriteOrFallback(parsed.value[i].url, req)
  {
    match parsed
    case Failure(e) => Failure(e)
    case Success(records) => Success(req => ScanRecords(records, req))
  }
}
