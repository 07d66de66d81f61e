/** The chat service's CORS middleware: it sets the CORS response headers
    on every request, answers a preflight (OPTIONS) itself with 200 and
    hands every other request to the next handler. */
module ChatCors {
  import opened Results
  import opened Text

  /** The request headers the browser may send, in the order listed. */
  const AllowedRequestHeaders: seq<string> :=
    ["Content-Type", "Authorization", "X-Requested-With", "traceparent", "tracestate", "baggage", "x-request-id"]

  /** The response headers the browser may read, in the order listed. */
  const ExposedResponseHeaders: seq<string> := ["traceparent", "tracestate"]

  const AllowMethods: string := "GET, POST, PUT, DELETE, OPTIONS"

  /** A header list written out with ", " between entries. */
  function JoinList(xs: seq<string>): string
  {
    if |xs| == 0 then ""
    else if |xs| == 1 then xs[0]
    else xs[0] + ", " + JoinList(xs[1..])
  }

  /** Optional white space around list entries in an HTTP field value. */
  const Ows: set<char> := {' ', '\t'}

  /** How a recipient reads a comma-separated header value: split at every
      comma, optional white space trimmed from each entry. */
  function SplitList(s: string): seq<string>
    decreases |s|
  {
    match CutAtFirst(s, ',')
    case None => [Trim(s, Ows)]
    case Some((a, b)) => [Trim(a, Ows)] + SplitList(b)
  }

  /** A well-formed list entry: no comma, no white space at either end. */
  predicate IsListEntry(x: string)
  {
    ',' !in x && (x == [] || (x[0] !in Ows && x[|x| - 1] !in Ows))
  }

  /** Reading a written list gives back its entries. */
  lemma {:induction false} SplitJoinList(xs: seq<string>)
    requires |xs| > 0
    requires forall i :: 0 <= i < |xs| ==> IsListEntry(xs[i])
    ensures SplitList(JoinList(xs)) == xs
    decreases |xs|
  {
    TrimSpaceFreeEntry(xs[0]);
    if |xs| == 1 {
      assert CutAtFirst(xs[0], ',') == None;
    } else {
      var rest := JoinList(xs[1..]);
      SplitJoinList(xs[1..]);
      SplitFirstEntry(xs[0], rest);
      assert [xs[0]] + xs[1..] == xs;
    }
  }

  /** An entry without surrounding white space trims to itself. */
  lemma TrimSpaceFreeEntry(x: string)
    requires IsListEntry(x)
    ensures Trim(x, Ows) == x
  {
    TrimOfPadded([], x, [], Ows);
    assert [] + x + [] == x;
  }

  /** Reading `x, rest` gives the entry x, then what `rest` reads as. */
  lemma SplitFirstEntry(x: string, rest: string)
    requires IsListEntry(x)
    ensures SplitList(x + ", " + rest) == [Trim(x, Ows)] + SplitList(rest)
  {
    assert x + ", " + rest == x + [','] + (" " + rest);
    CutAtFirstOf(x, ',', " " + rest);
    SplitPadded(rest);
  }

  /** A leading space does not change how a list of entries reads. */
  lemma SplitPadded(rest: string)
    ensures SplitList(" " + rest) == SplitList(rest)
  {
    match CutAtFirst(rest, ',')
    case None =>
      SplitPaddedLast(rest);
    case Some((a, b)) =>
      SplitPaddedCut(a, b);
  }

  /** The last entry: no comma follows. */
  lemma SplitPaddedLast(rest: string)
    requires ',' !in rest
    ensures SplitList(" " + rest) == SplitList(rest)
  {
    assert ',' !in " " + rest;
    TrimLeadingSpace(rest);
  }

  /** An entry followed by a comma and the rest of the list. */
  lemma SplitPaddedCut(a: string, b: string)
    requires ',' !in a
    ensures SplitList(" " + (a + [','] + b)) == SplitList(a + [','] + b)
  {
    assert " " + (a + [','] + b) == (" " + a) + [','] + b;
    assert ',' !in " " + a;
    CutAtFirstOf(a, ',', b);
    CutAtFirstOf(" " + a, ',', b);
    TrimLeadingSpace(a);
  }

  /** A string is what comes before a window, the window, and what comes
      after it, also with a space in front. */
  lemma WindowSplit(s: string, r: string, i: nat)
    requires i + |r| <= |s| && s[i..][..|r|] == r
    ensures " " + s == (" " + s[..i]) + r + s[i + |r|..]
  {
    assert s[i..] == s[i..][..|r|] + s[i + |r|..];
    assert s == s[..i] + s[i..];
  }

  /** Trimming ignores one more leading space. */
  lemma TrimLeadingSpace(s: string)
    ensures Trim(" " + s, Ows) == Trim(s, Ows)
  {
    var r := Trim(s, Ows);
    var i :| 0 <= i <= |s| - |r| && s[i..][..|r|] == r
      && (forall k :: 0 <= k < i ==> s[k] in Ows)
      && (forall k :: i + |r| <= k < |s| ==> s[k] in Ows);
    var p, q := s[..i], s[i + |r|..];
    WindowSplit(s, r, i);
    forall k | 0 <= k < |" " + p| ensures (" " + p)[k] in Ows {
      if k > 0 { assert (" " + p)[k] == s[k - 1]; }
    }
    forall k | 0 <= k < |q| ensures q[k] in Ows {
      assert q[k] == s[i + |r| + k];
    }
    TrimOfPadded(" " + p, r, q, Ows);
  }

  /** A request as the middleware sees it; a missing Origin reads as "". */
  datatype Request = Request(verb: string, origin: string)

  /** Response header names: the five the middleware sets, and every other
      name (HeaderMap keeps `Other` from carrying one of the five). */
  datatype HeaderName =
    | AllowOrigin
    | AllowMethodsName
    | AllowHeaders
    | ExposeHeaders
    | AllowCredentials
    | Other(name: string)

  /** The name as written on the wire. */
  function WireName(n: HeaderName): string
  {
    match n
    case AllowOrigin => "Access-Control-Allow-Origin"
    case AllowMethodsName => "Access-Control-Allow-Methods"
    case AllowHeaders => "Access-Control-Allow-Headers"
    case ExposeHeaders => "Access-Control-Expose-Headers"
    case AllowCredentials => "Access-Control-Allow-Credentials"
    case Other(name) => name
  }

  /** The wire names of the five headers the middleware sets. */
  const CorsNames: set<string> := {
    "Access-Control-Allow-Origin", "Access-Control-Allow-Methods", "Access-Control-Allow-Headers",
    "Access-Control-Expose-Headers", "Access-Control-Allow-Credentials"}

  /** Each header name has one key: a name `Other` carries is never one of
      the five, which have their own constructors. */
  predicate OneKeyPerName(h: map<HeaderName, seq<string>>)
  {
    forall n :: n in h && n.Other? ==> n.name !in CorsNames
  }

  /** Response headers as Go's http.Header: a name maps to its values. */
  type HeaderMap = h: map<HeaderName, seq<string>> | OneKeyPerName(h) witness map[]

  /** Distinct keys of a header map are distinct names on the wire, as in
      Go's http.Header. */
  lemma DistinctWireNames(h: HeaderMap, a: HeaderName, b: HeaderName)
    requires a in h && b in h && a != b
    ensures WireName(a) != WireName(b)
  {
  }

  /** What the middleware did: the response headers, the status written by
      the middleware itself (None when it left that to the next handler),
      and whether the next handler ran. */
  datatype Handled = Handled(headers: HeaderMap, status: Option<int>, callsNext: bool)

  const StatusOK: int := 200

  /** The five Header.Set calls, in the middleware's order: each name
      ends up with exactly the one value set. */
  function SetCorsHeaders(h: HeaderMap, origin: string, allowHeaders: string, exposeHeaders: string): (r: HeaderMap)
    ensures r.Keys == h.Keys + {AllowOrigin, AllowMethodsName, AllowHeaders, ExposeHeaders, AllowCredentials}
    ensures r[AllowOrigin] == [origin]
    ensures r[AllowMethodsName] == [AllowMethods]
    ensures r[AllowHeaders] == [allowHeaders]
    ensures r[ExposeHeaders] == [exposeHeaders]
    ensures r[AllowCredentials] == ["true"]
    ensures forall n :: n in h && n.Other? ==> r[n] == h[n]
  {
    h[AllowOrigin := [origin]]
     [AllowMethodsName := [AllowMethods]]
     [AllowHeaders := [allowHeaders]]
     [ExposeHeaders := [exposeHeaders]]
     [AllowCredentials := ["true"]]
  }

  /** The CORS middleware around one request. */
  function Cors(req: Request, h: HeaderMap): (r: Handled)
    ensures r.headers.Keys == h.Keys + {AllowOrigin, AllowMethodsName, AllowHeaders, ExposeHeaders, AllowCredentials}
    ensures r.headers[AllowOrigin] == [if req.origin != "" then req.origin else "*"]
    ensures r.headers[AllowMethodsName] == [AllowMethods]
    ensures r.headers[AllowHeaders] == [JoinList(AllowedRequestHeaders)]
    ensures r.headers[ExposeHeaders] == [JoinList(ExposedResponseHeaders)]
    ensures r.headers[AllowCredentials] == ["true"]
    ensures forall n :: n in h && n.Other? ==> r.headers[n] == h[n]
    ensures r.callsNext <==> req.verb != "OPTIONS"
    ensures r.status == (if req.verb == "OPTIONS" then Some(StatusOK) else None)
  {
    var h5 := SetCorsHeaders(h, if req.origin != "" then req.origin else "*",
      JoinList(AllowedRequestHeaders), JoinList(ExposedResponseHeaders));
    if req.verb == "OPTIONS" then Handled(h5, Some(StatusOK), false)
    else Handled(h5, None, true)
  }

  /** A browser reading the Allow-Headers value gets the listed names back. */
  lemma AllowedHeadersRead()
    ensures SplitList(JoinList(AllowedRequestHeaders)) == AllowedRequestHeaders
  {
    var xs := AllowedRequestHeaders;
    assert IsListEntry(xs[0]);
    assert IsListEntry(xs[1]);
    assert IsListEntry(xs[2]);
    assert IsListEntry(xs[3]);
    assert IsListEntry(xs[4]);
    assert IsListEntry(xs[5]);
    assert IsListEntry(xs[6]);
    SplitJoinList(xs);
  }

  /** A browser reading the Expose-Headers value gets the listed names back. */
  lemma ExposedHeadersRead()
    ensures SplitList(JoinList(ExposedResponseHeaders)) == ExposedResponseHeaders
  {
    var xs := ExposedResponseHeaders;
    assert IsListEntry(xs[0]);
    assert IsListEntry(xs[1]);
    SplitJoinList(xs);
  }

  /** The trace-context headers pass the preflight check: the browser may
      send them. */
  lemma TraceContextMaySend(req: Request, h: HeaderMap)
    ensures var allowed := SplitList(Cors(req, h).headers[AllowHeaders][0]);
      "traceparent" in allowed && "tracestate" in allowed && "baggage" in allowed
  {
    assert Cors(req, h).headers[AllowHeaders][0] == JoinList(AllowedRequestHeaders);
    AllowedHeadersRead();
    AllowedListsTraceContext(AllowedRequestHeaders);
  }

  /** The allowed request headers include the three trace-context names. */
  lemma AllowedListsTraceContext(xs: seq<string>)
    requires xs == AllowedRequestHeaders
    ensures "traceparent" in xs && "tracestate" in xs && "baggage" in xs
  {
    assert xs[3] == "traceparent";
    assert xs[4] == "tracestate";
    assert xs[5] == "baggage";
  }

  /** The browser may read the trace-context headers of the response. */
  lemma TraceContextMayRead(req: Request, h: HeaderMap)
    ensures var exposed := SplitList(Cors(req, h).headers[ExposeHeaders][0]);
      "traceparent" in exposed && "tracestate" in exposed
  {
    assert Cors(req, h).headers[ExposeHeaders][0] == JoinList(ExposedResponseHeaders);
    ExposedHeadersRead();
    assert ExposedResponseHeaders[0] == "traceparent";
    assert ExposedResponseHeaders[1] == "tracestate";
  }

  /** A preflight never reaches the next handler and is answered with 200;
      any other request reaches it exactly once, with the same headers set. */
  lemma PreflightStopsHere(origin: string, other: string, h: HeaderMap)
    requires other != "OPTIONS"
    ensures var pre := Cors(Request("OPTIONS", origin), h);
      !pre.callsNext && pre.status == Some(StatusOK)
    ensures var pass := Cors(Request(other, origin), h);
      pass.callsNext && pass.status.None?
    ensures Cors(Request("OPTIONS", origin), h).headers == Cors(Request(other, origin), h).headers
  {
  }
}
