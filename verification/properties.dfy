/** Properties of the two responders: how the map responder relates to the
    range loop it stands for, first-match-wins on YAML records, and the
    agreement of the two builders when no path is repeated. */
module HandlerProperties {
  import opened Wrappers
  import opened Handler

  // ---------------------------------------------------------------------
  // MapHandler
  // ---------------------------------------------------------------------

  /** A request whose path is a key, with a write that succeeds, gets exactly
      that key's URL and never reaches the fallback. */
  lemma MapExactMatch(pathsToUrls: map<string, string>, req: Request)
    requires req.path in pathsToUrls && req.writeSucceeds
    ensures MapHandler(pathsToUrls)(req) == Wrote(pathsToUrls[req.path])
    ensures !MapHandler(pathsToUrls)(req).CallsFallback()
  {
  }

  /** A request whose path is not a key writes nothing and is handed to the
      fallback. */
  lemma MapMissFallsBack(pathsToUrls: map<string, string>, req: Request)
    requires req.path !in pathsToUrls
    ensures MapHandler(pathsToUrls)(req) == Fallback
  {
  }

  /** The empty table falls back on every request. */
  lemma EmptyMapAlwaysFallsBack(req: Request)
    ensures MapHandler(map[])(req) == Fallback
  {
  }

  /** Two visiting orders of the same table give the same outcome: at most
      one key equals the request path, so the order of the range loop is
      unobservable. */
  lemma TraversalOrderIrrelevant(pathsToUrls: map<string, string>, order1: seq<string>,
                                 order2: seq<string>, req: Request)
    requires IsTraversal(pathsToUrls, order1) && IsTraversal(pathsToUrls, order2)
    ensures ScanKeys(pathsToUrls, order1, req) == ScanKeys(pathsToUrls, order2, req)
  {
  }

  /** Paths are compared verbatim: a trailing slash, a change of case or a
      literal '?' in the decoded path (sent as %3F) makes a different path,
      and such a request falls back. */
  lemma NoPathNormalisation(url: string, writeSucceeds: bool)
    ensures var h := MapHandler(map["/urlshort" := url]);
      && h(Request("/urlshort", writeSucceeds)) != Fallback
      && h(Request("/urlshort/", writeSucceeds)) == Fallback
      && h(Request("/URLSHORT", writeSucceeds)) == Fallback
      && h(Request("/urlshort?x=1", writeSucceeds)) == Fallback
  {
    var m := map["/urlshort" := url];
    assert "/urlshort/" != "/urlshort" by { assert |"/urlshort/"| != |"/urlshort"|; }
    assert "/URLSHORT" != "/urlshort" by { assert "/URLSHORT"[1] != "/urlshort"[1]; }
    assert "/urlshort?x=1" != "/urlshort" by { assert |"/urlshort?x=1"| != |"/urlshort"|; }
  }

  // ---------------------------------------------------------------------
  // YAMLHandler
  // ---------------------------------------------------------------------

  /** A record with path `path` at index `i` means there is a first such
      record, at or before `i`. */
  lemma {:induction false} FirstMatchExists(records: seq<PathMappings>, path: string, i: int)
    returns (k: int)
    requires 0 <= i < |records| && records[i].path == path
    ensures k <= i && FirstMatchAt(records, path, k)
  {
    if records[0].path == path {
      k := 0;
    } else {
      assert records[1..][i - 1].path == path;
      var k' := FirstMatchExists(records[1..], path, i - 1);
      k := k' + 1;
    }
  }

  /** Once the records contain a match, records appended after them are
      never consulted: the first match in document order wins. */
  lemma LaterRecordsNeverUsed(records: seq<PathMappings>, more: seq<PathMappings>, i: int,
                              req: Request)
    requires 0 <= i < |records| && records[i].path == req.path
    ensures ScanRecords(records + more, req) == ScanRecords(records, req)
  {
    var k := FirstMatchExists(records, req.path, i);
    assert FirstMatchAt(records + more, req.path, k);
  }

  /** Replacing any record after the first match, for example by a duplicate
      of the matched path with another URL, does not change the outcome. */
  lemma ShadowedRecordIgnored(records: seq<PathMappings>, i: int, j: int, other: PathMappings,
                              req: Request)
    requires FirstMatchAt(records, req.path, i) && i < j < |records|
    ensures ScanRecords(records[j := other], req) == ScanRecords(records, req)
    ensures ScanRecords(records[j := other], req) == WriteOrFallback(records[i].url, req)
  {
    assert FirstMatchAt(records[j := other], req.path, i);
  }

  /** A failed write on the first match calls the fallback once and stops:
      the outcome names the first matching record's URL, whatever later
      records with the same path say. */
  lemma FailedWriteStopsScan(records: seq<PathMappings>, i: int, req: Request)
    requires FirstMatchAt(records, req.path, i) && !req.writeSucceeds
    ensures ScanRecords(records, req) == WroteFailedThenFallback(records[i].url)
    ensures forall j ::
              (i < j < |records| && records[j].path == req.path && records[j].url != records[i].url) ==>
                ScanRecords(records, req) != WroteFailedThenFallback(records[j].url)
  {
  }

  // ---------------------------------------------------------------------
  // Agreement of the two builders
  // ---------------------------------------------------------------------

  /** The set of paths the records mention. */
  ghost function Paths(records: seq<PathMappings>): set<string> {
    set i | 0 <= i < |records| :: records[i].path
  }

  /** Record `i` is the last one whose path is `records[i].path`. */
  ghost predicate LastWithPath(records: seq<PathMappings>, i: int) {
    && 0 <= i < |records|
    && forall j :: i < j < |records| ==> records[j].path != records[i].path
  }

  /** No path occurs twice among the records. */
  ghost predicate DistinctPaths(records: seq<PathMappings>) {
    forall i, j :: 0 <= i < j < |records| ==> records[i].path != records[j].path
  }

  /** Dropping the last record removes at most its path from the paths. */
  lemma PathsOfSnoc(records: seq<PathMappings>)
    requires |records| > 0
    ensures Paths(records) == Paths(records[..|records| - 1]) + {records[|records| - 1].path}
  {
    var init := records[..|records| - 1];
    forall p | p in Paths(records) ensures p in Paths(init) + {records[|records| - 1].path} {
      var i :| 0 <= i < |records| && records[i].path == p;
      if i < |records| - 1 {
        assert init[i].path == p;
      }
    }
    forall p | p in Paths(init) ensures p in Paths(records) {
      var i :| 0 <= i < |init| && init[i].path == p;
      assert records[i].path == p;
    }
  }

  /** A record that is last with its path stays so once the final record,
      if it is not that record, is dropped. */
  lemma LastWithPathOfInit(records: seq<PathMappings>, i: int)
    requires |records| > 0 && LastWithPath(records, i) && i < |records| - 1
    ensures LastWithPath(records[..|records| - 1], i)
  {
  }

  /** The table `{r.Path: r.Url}` built from the records by inserting them in
      document order, so that a later record overwrites an earlier one with
      the same path. */
  function ToTable(records: seq<PathMappings>): (m: map<string, string>)
    ensures m.Keys == Paths(records)
    ensures forall i :: LastWithPath(records, i) ==> m[records[i].path] == records[i].url
  {
    if |records| == 0 then
      map[]
    else
      var init := records[..|records| - 1];
      var last := records[|records| - 1];
      var m := ToTable(init)[last.path := last.url];
      PathsOfSnoc(records);
      forall i | LastWithPath(records, i) && i < |records| - 1
        ensures LastWithPath(init, i)
      {
        LastWithPathOfInit(records, i);
      }
      m
  }

  /** With pairwise distinct paths, the YAML responder and the map responder
      over `{r.Path: r.Url}` give the same outcome on the request. */
  lemma BuildersAgree(records: seq<PathMappings>, req: Request)
    requires DistinctPaths(records)
    ensures ScanRecords(records, req) == MapHandler(ToTable(records))(req)
  {
    if !NoRecordFor(records, req.path) {
      var i :| 0 <= i < |records| && records[i].path == req.path;
      assert FirstMatchAt(records, req.path, i);
      assert LastWithPath(records, i);
    }
  }

  /** The same agreement for every request, stated on the responder that
      YAMLHandler returns for a successfully decoded document. */
  lemma YAMLHandlerAgreesWithMapHandler(parsed: Result<seq<PathMappings>, ParseError>)
    requires parsed.Success? && DistinctPaths(parsed.value)
    ensures forall req: Request ::
              YAMLHandler(parsed).value(req) == MapHandler(ToTable(parsed.value))(req)
  {
    forall req: Request
      ensures YAMLHandler(parsed).value(req) == MapHandler(ToTable(parsed.value))(req)
    {
      BuildersAgree(parsed.value, req);
    }
  }

  /** Distinct paths are needed: with a repeated path the YAML responder
      keeps the first URL while the table keeps the last. */
  lemma RepeatedPathBreaksAgreement()
    ensures var records := [PathMappings("/a", "https://example.com/first"),
                            PathMappings("/a", "https://example.com/second")];
      && ScanRecords(records, Request("/a", true)) == Wrote("https://example.com/first")
      && MapHandler(ToTable(records))(Request("/a", true)) == Wrote("https://example.com/second")
  {
    var records := [PathMappings("/a", "https://example.com/first"),
                    PathMappings("/a", "https://example.com/second")];
    assert LastWithPath(records, 1);
  }

  // ---------------------------------------------------------------------
  // Worked examples
  // ---------------------------------------------------------------------

  /** The godoc short link is served from the map; an unknown path falls back. */
  lemma MapScenarios()
    ensures var h := MapHandler(map["/urlshort-godoc" := "https://godoc.org/github.com/gophercises/urlshort"]);
      && h(Request("/urlshort-godoc", true)) == Wrote("https://godoc.org/github.com/gophercises/urlshort")
      && h(Request("/missing", true)) == Fallback
  {
    assert "/missing" != "/urlshort-godoc" by { assert |"/missing"| != |"/urlshort-godoc"|; }
  }

  /** A two-record document serves its second path; a decoding error yields
      no responder and the same error. */
  lemma YAMLScenarios(e: ParseError)
    ensures var parsed := Success([PathMappings("/urlshort", "https://example.com/a"),
                                   PathMappings("/urlshort-final", "https://example.com/b")]);
      && YAMLHandler(parsed).Success?
      && YAMLHandler(parsed).value(Request("/urlshort-final", true)) == Wrote("https://example.com/b")
    ensures YAMLHandler(Failure(e)) == Failure(e)
  {
    var records := [PathMappings("/urlshort", "https://example.com/a"),
                    PathMappings("/urlshort-final", "https://example.com/b")];
    assert "/urlshort" != "/urlshort-final" by { assert |"/urlshort"| != |"/urlshort-final"|; }
    assert FirstMatchAt(records, "/urlshort-final", 1);
  }
}
