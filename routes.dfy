/**
 * The cloud-controller route repository: the requests it builds for Find, CreateInSpace,
 * CheckIfExists, ListRoutes, ListAllRoutes, Bind, Unbind and Delete, and how it reads the
 * answers. Listing and lookup run through the gateway's paginated listing.
 */
module Routes {
  import opened Wrappers
  import opened Gateway
  import Text
  import UrlEscape

  /** A route as the repository hands it to its callers. */
  datatype Route = Route(guid: string, host: string, path: string, domainGuid: string, spaceGuid: string, port: int)

  /** A route path as sent to the server: a non-empty path always starts with '/'. */
  function NormalizedPath(path: string): (p: string)
    ensures p == "" <==> path == ""
    ensures p != "" ==> p[0] == '/'
    ensures p == path || p == "/" + path
    ensures p != "" && p[1..] == path ==> path == "" || path[0] != '/'
  {
    if path == "" || path[0] == '/' then path else "/" + path
  }

  /** Normalising twice is normalising once. */
  lemma NormalizedPathIdempotent(path: string)
    ensures NormalizedPath(NormalizedPath(path)) == NormalizedPath(path)
  {
  }

  /** The absolute URL path made of these segments. */
  function UrlPath(segments: seq<string>): string
  {
    Text.Join([""] + segments, '/')
  }

  /** Each segment of a URL path is introduced by its own '/'. */
  lemma UrlPathCons(segment: string, rest: seq<string>)
    ensures UrlPath([segment] + rest) == "/" + segment + UrlPath(rest)
  {
    assert [""] + ([segment] + rest) == [""] + [segment] + rest;
    Text.JoinCons("", [segment] + rest, '/');
    if rest == [] {
      assert UrlPath(rest) == "";
    } else {
      Text.JoinCons(segment, rest, '/');
      Text.JoinCons("", rest, '/');
    }
  }

  /** Splitting a URL path on '/' recovers its segments when none of them holds a '/'. */
  lemma UrlPathSegments(segments: seq<string>)
    requires Text.Separable(segments, '/')
    ensures Text.Split(UrlPath(segments), '/') == [""] + segments
  {
    var parts := [""] + segments;
    assert forall k :: 1 <= k < |parts| ==> parts[k] == segments[k - 1];
    Text.SplitJoin(parts, '/');
  }

  /** A character other than '/' is in a URL path only when one of its segments holds it. */
  lemma UrlPathAvoids(segments: seq<string>, c: char)
    requires c != '/' && Text.Separable(segments, c)
    ensures c !in UrlPath(segments)
  {
    var parts := [""] + segments;
    assert forall k :: 1 <= k < |parts| ==> parts[k] == segments[k - 1];
    assert Text.Separable(parts, c);
  }

  /** A URL path of fixed length, written out. */
  lemma Path3(a: string, b: string, c: string)
    ensures UrlPath([a, b, c]) == "/" + a + "/" + b + "/" + c
  {
    assert UrlPath([]) == "" by { assert [""] + [] == [""]; }
    assert [c] + [] == [c] && [b] + [c] == [b, c] && [a] + [b, c] == [a, b, c];
    UrlPathCons(c, []);
    UrlPathCons(b, [c]);
    UrlPathCons(a, [b, c]);
  }

  lemma Path4(a: string, b: string, c: string, d: string)
    ensures UrlPath([a, b, c, d]) == "/" + a + "/" + b + "/" + c + "/" + d
  {
    assert [a, b, c, d] == [a] + [b, c, d];
    UrlPathCons(a, [b, c, d]);
    Path3(b, c, d);
  }

  lemma Path5(a: string, b: string, c: string, d: string, e: string)
    ensures UrlPath([a, b, c, d, e]) == "/" + a + "/" + b + "/" + c + "/" + d + "/" + e
  {
    assert [a, b, c, d, e] == [a] + [b, c, d, e];
    UrlPathCons(a, [b, c, d, e]);
    Path4(b, c, d, e);
  }

  lemma Path7(a: string, b: string, c: string, d: string, e: string, f: string, g: string)
    ensures UrlPath([a, b, c, d, e, f, g]) == "/" + a + "/" + b + "/" + c + "/" + d + "/" + e + "/" + f + "/" + g
  {
    assert [a, b, c, d, e, f, g] == [a, b] + [c, d, e, f, g];
    assert [a, b] + [c, d, e, f, g] == [a] + ([b] + [c, d, e, f, g]);
    UrlPathCons(a, [b] + [c, d, e, f, g]);
    UrlPathCons(b, [c, d, e, f, g]);
    Path5(c, d, e, f, g);
  }

  // ---------------------------------------------------------------- Find

  /** One filter clause, "key:value". */
  function Clause(key: string, value: string): string
  {
    key + [':'] + value
  }

  /** The filter clauses of a route search: host and domain always, then path and port when given. */
  function FindClauses(host: string, domainGuid: string, path: string, port: int): (cs: seq<string>)
    ensures |cs| == 2 + (if path != "" then 1 else 0) + (if port != 0 then 1 else 0)
    ensures ';' !in host && ';' !in domainGuid && ';' !in path ==> Text.Separable(cs, ';')
  {
    Text.IntToStringChars(port, ';');
    [Clause("host", host), Clause("domain_guid", domainGuid)]
    + (if path != "" then [Clause("path", NormalizedPath(path))] else [])
    + (if port != 0 then [Clause("port", Text.IntToString(port))] else [])
  }

  /** The value of the `q` parameter: the clauses joined by ';'. */
  function FindQuery(host: string, domainGuid: string, path: string, port: int): (q: string)
    ensures ';' !in host && ';' !in domainGuid && ';' !in path ==> Text.Split(q, ';') == FindClauses(host, domainGuid, path, port)
  {
    var cs := FindClauses(host, domainGuid, path, port);
    assert Text.Separable(cs, ';') ==> Text.Split(Text.Join(cs, ';'), ';') == cs by {
      if Text.Separable(cs, ';') {
        Text.SplitJoin(cs, ';');
      }
    }
    Text.Join(cs, ';')
  }

  /** The start of every route search URL, up to the value of `q` (url.Values.Encode sorts the keys). */
  const FindUrlPrefix := "/v2/routes?inline-relations-depth=1&q="

  /**
   * The first URL of a route search: after the fixed prefix, the value of `q` is fully escaped,
   * and the server unescapes it back to the query text.
   */
  function FindUrl(host: string, domainGuid: string, path: string, port: int): (url: string)
    ensures |url| >= |FindUrlPrefix| && url[..|FindUrlPrefix|] == FindUrlPrefix
    ensures forall k :: |FindUrlPrefix| <= k < |url| ==> UrlEscape.SafeChar(url[k])
    ensures UrlEscape.QueryUnescape(url[|FindUrlPrefix|..]) == Some(UrlEscape.Utf8(FindQuery(host, domainGuid, path, port)))
  {
    var q := FindQuery(host, domainGuid, path, port);
    UrlEscape.QueryEscapeRoundTrip(q);
    var url := FindUrlPrefix + UrlEscape.QueryEscape(q);
    assert url[|FindUrlPrefix|..] == UrlEscape.QueryEscape(q);
    url
  }

  /** The first request of a route search: a GET of the search URL, asking for JSON, with no body. */
  function FindRequest(host: string, domainGuid: string, path: string, port: int): (r: Request)
    ensures r.verb == Get && r.url == FindUrl(host, domainGuid, path, port)
    ensures r.accept == JsonMediaType && r.body.None?
  {
    JsonRequest(Get, FindUrl(host, domainGuid, path, port), None)
  }

  /**
   * The `q` value reads back as its clauses, in the fixed order host, domain_guid, path,
   * port: the path clause is there exactly when a path is given and carries it with a
   * leading '/', and the port clause is there exactly when the port is not 0.
   */
  lemma FindQueryReadsBack(host: string, domainGuid: string, path: string, port: int)
    requires ';' !in host && ';' !in domainGuid && ';' !in path
    ensures var cs := Text.Split(FindQuery(host, domainGuid, path, port), ';');
      && |cs| == 2 + (if path != "" then 1 else 0) + (if port != 0 then 1 else 0)
      && ReadsAs(cs[0], "host", host)
      && ReadsAs(cs[1], "domain_guid", domainGuid)
      && (path != "" ==> ReadsAs(cs[2], "path", NormalizedPath(path)))
      && (port != 0 ==> ReadsAs(cs[|cs| - 1], "port", Text.IntToString(port)))
  {
    FindClausesRead(host, domainGuid, path, port);
  }

  /** A clause whose text before the first ':' is `key` and after it `value`. */
  predicate ReadsAs(clause: string, key: string, value: string)
  {
    Text.Before(clause, ':') == key && Text.After(clause, ':') == value
  }

  lemma FindClausesRead(host: string, domainGuid: string, path: string, port: int)
    ensures var cs := FindClauses(host, domainGuid, path, port);
      && |cs| == 2 + (if path != "" then 1 else 0) + (if port != 0 then 1 else 0)
      && ReadsAs(cs[0], "host", host)
      && ReadsAs(cs[1], "domain_guid", domainGuid)
      && (path != "" ==> ReadsAs(cs[2], "path", NormalizedPath(path)))
      && (port != 0 ==> ReadsAs(cs[|cs| - 1], "port", Text.IntToString(port)))
  {
    Text.BeforeAfter("host", ':', host);
    Text.BeforeAfter("domain_guid", ':', domainGuid);
    Text.BeforeAfter("path", ':', NormalizedPath(path));
    Text.BeforeAfter("port", ':', Text.IntToString(port));
  }

  /** Find's visitor: it takes the first route it is given and stops the listing there. */
  const StopAtFirst: Route -> bool := _ => false

  /** Find's answer from its listing: the first route visited, or not-found when none was. */
  function FindResult(l: Listing<Route>): (r: Result<Route, ApiError>)
    ensures r.Success? <==> l.error.None? && l.visited != []
    ensures r.Success? ==> r.value == l.visited[0]
    ensures l.error.Some? ==> r == Failure(l.error.value)
    ensures l.error.None? && l.visited == [] ==> r == Failure(ModelNotFound)
  {
    if l.error.Some? then Failure(l.error.value)
    else if l.visited == [] then Failure(ModelNotFound)
    else Success(l.visited[0])
  }

  /** Find: search with the filter query and keep the first route of the answer. */
  method Find(host: string, domainGuid: string, path: string, port: int, responses: seq<Exchange<Route>>)
    returns (route: Result<Route, ApiError>, requested: seq<string>)
    ensures var l := Paginate(FindUrl(host, domainGuid, path, port), responses, 0, StopAtFirst);
      route == FindResult(l) && requested == l.requested
  {
    var visited, error;
    visited, requested, error := ListPaginatedResources(FindUrl(host, domainGuid, path, port), responses, StopAtFirst);
    route := FindResult(Listing(visited, requested, error));
  }

  /**
   * How Find reads the first answer: an answer that is not a page is that error; a 2xx page
   * with a route gives that route after one request, whatever its status within 2xx; a 2xx
   * page with no route and no next_url gives not-found.
   */
  lemma FindFirstAnswer(host: string, domainGuid: string, path: string, port: int, responses: seq<Exchange<Route>>)
    requires |responses| >= 1
    ensures var url := FindUrl(host, domainGuid, path, port);
      var l := Paginate(url, responses, 0, StopAtFirst);
      var page := DecodePage(responses[0]);
      && (page.Failure? ==> FindResult(l) == Failure(page.error) && l.requested == [url])
      && (page.Success? && page.value.resources != [] ==>
            FindResult(l) == Success(page.value.resources[0]) && l.requested == [url])
      && (page.Success? && page.value.resources == [] && page.value.nextUrl == "" ==>
            FindResult(l) == Failure(ModelNotFound) && l.requested == [url])
  {
    var url := FindUrl(host, domainGuid, path, port);
    assert url != "" by { assert url[0] == '/'; }
    var page := DecodePage(responses[0]);
    if page.Success? && page.value.resources != [] {
      StopOnFirstRejection(url, responses, StopAtFirst);
    }
  }

  // ---------------------------------------------------------------- CreateInSpace

  const CreateRouteUrl := "/v2/routes?inline-relations-depth=1&async=true"

  /**
   * The body of a route creation: host only when not empty, domain and space always,
   * path only when not empty (with a leading '/'), port only when not 0, generate_port always.
   */
  function CreateRouteBody(host: string, path: string, domainGuid: string, spaceGuid: string, port: int, randomPort: bool): (body: JsonObject)
    ensures |body| == 3 + (if host != "" then 1 else 0) + (if path != "" then 1 else 0) + (if port != 0 then 1 else 0)
    ensures forall i, j :: 0 <= i < j < |body| ==> body[i].0 != body[j].0
  {
    (if host != "" then [("host", JString(host))] else [])
    + [("domain_guid", JString(domainGuid)), ("space_guid", JString(spaceGuid))]
    + (if path != "" then [("path", JString(NormalizedPath(path)))] else [])
    + (if port != 0 then [("port", JNumber(port))] else [])
    + [("generate_port", JBool(randomPort))]
  }

  /** Creating a route: a POST of the route's fields to the creation URL, asking for JSON. */
  function CreateInSpaceRequest(host: string, path: string, domainGuid: string, spaceGuid: string, port: int, randomPort: bool): (r: Request)
    ensures r.verb == Post && r.url == CreateRouteUrl
    ensures r.accept == JsonMediaType && r.body == Some(CreateRouteBody(host, path, domainGuid, spaceGuid, port, randomPort))
  {
    JsonRequest(Post, CreateRouteUrl, Some(CreateRouteBody(host, path, domainGuid, spaceGuid, port, randomPort)))
  }

  /** Looking a field up in two objects written one after the other. */
  lemma {:induction false} LookupAppend(a: JsonObject, b: JsonObject, key: string)
    ensures Lookup(a + b, key) == if Lookup(a, key).Some? then Lookup(a, key) else Lookup(b, key)
    decreases |a|
  {
    if a == [] {
      assert a + b == b;
    } else {
      assert (a + b)[0] == a[0];
      assert (a + b)[1..] == a[1..] + b;
      LookupAppend(a[1..], b, key);
    }
  }

  lemma LookupPair(k: string, v: JsonValue, key: string)
    ensures Lookup([(k, v)], key) == if k == key then Some(v) else None
  {
    assert [(k, v)][1..] == [];
  }

  /**
   * What a server decoding the creation body reads for each field name: host only when
   * not empty, domain and space always, path only when not empty and then with a leading
   * '/', port only when not 0, generate_port always, and no other field.
   */
  lemma CreateRouteBodyFields(host: string, path: string, domainGuid: string, spaceGuid: string, port: int, randomPort: bool, key: string)
    ensures Lookup(CreateRouteBody(host, path, domainGuid, spaceGuid, port, randomPort), key) ==
      if key == "host" && host != "" then Some(JString(host))
      else if key == "domain_guid" then Some(JString(domainGuid))
      else if key == "space_guid" then Some(JString(spaceGuid))
      else if key == "path" && path != "" then Some(JString(NormalizedPath(path)))
      else if key == "port" && port != 0 then Some(JNumber(port))
      else if key == "generate_port" then Some(JBool(randomPort))
      else None
  {
    var a: JsonObject := if host != "" then [("host", JString(host))] else [];
    var b1: JsonObject := [("domain_guid", JString(domainGuid))];
    var b2: JsonObject := [("space_guid", JString(spaceGuid))];
    var c: JsonObject := if path != "" then [("path", JString(NormalizedPath(path)))] else [];
    var d: JsonObject := if port != 0 then [("port", JNumber(port))] else [];
    var e: JsonObject := [("generate_port", JBool(randomPort))];
    assert CreateRouteBody(host, path, domainGuid, spaceGuid, port, randomPort) == a + b1 + b2 + c + d + e;
    LookupAppend(a + b1 + b2 + c + d, e, key);
    LookupAppend(a + b1 + b2 + c, d, key);
    LookupAppend(a + b1 + b2, c, key);
    LookupAppend(a + b1, b2, key);
    LookupAppend(a, b1, key);
    if host != "" { LookupPair("host", JString(host), key); }
    LookupPair("domain_guid", JString(domainGuid), key);
    LookupPair("space_guid", JString(spaceGuid), key);
    if path != "" { LookupPair("path", JString(NormalizedPath(path)), key); }
    if port != 0 { LookupPair("port", JNumber(port), key); }
    LookupPair("generate_port", JBool(randomPort), key);
  }

  /** A string field of an entity as a JSON decoder fills a Go struct: "" when absent. */
  function StringField(entity: JsonObject, key: string): string
  {
    match Lookup(entity, key)
    case Some(JString(s)) => s
    case _ => ""
  }

  /** A number field of an entity: 0 when absent. */
  function NumberField(entity: JsonObject, key: string): int
  {
    match Lookup(entity, key)
    case Some(JNumber(n)) => n
    case _ => 0
  }

  /** The route a route entity decodes to. */
  function RouteFromEntity(guid: string, entity: JsonObject): (r: Route)
    ensures r.guid == guid
    ensures Lookup(entity, "host").None? ==> r.host == ""
    ensures Lookup(entity, "path").None? ==> r.path == ""
    ensures Lookup(entity, "domain_guid").None? ==> r.domainGuid == ""
    ensures Lookup(entity, "space_guid").None? ==> r.spaceGuid == ""
    ensures Lookup(entity, "port").None? ==> r.port == 0
  {
    Route(guid, StringField(entity, "host"), StringField(entity, "path"),
          StringField(entity, "domain_guid"), StringField(entity, "space_guid"), NumberField(entity, "port"))
  }

  /**
   * Leaving out the empty host, the empty path and the zero port loses nothing: an entity
   * that echoes the creation body decodes to the route that was asked for.
   */
  lemma CreatedEntityRoundTrip(guid: string, host: string, path: string, domainGuid: string, spaceGuid: string, port: int, randomPort: bool)
    ensures RouteFromEntity(guid, CreateRouteBody(host, path, domainGuid, spaceGuid, port, randomPort))
         == Route(guid, host, NormalizedPath(path), domainGuid, spaceGuid, port)
  {
    var body := CreateRouteBody(host, path, domainGuid, spaceGuid, port, randomPort);
    CreateRouteBodyFields(host, path, domainGuid, spaceGuid, port, randomPort, "host");
    CreateRouteBodyFields(host, path, domainGuid, spaceGuid, port, randomPort, "path");
    CreateRouteBodyFields(host, path, domainGuid, spaceGuid, port, randomPort, "domain_guid");
    CreateRouteBodyFields(host, path, domainGuid, spaceGuid, port, randomPort, "space_guid");
    CreateRouteBodyFields(host, path, domainGuid, spaceGuid, port, randomPort, "port");
  }

  /** CreateInSpace's answer: the created route from a 2xx entity, otherwise the error. */
  function CreatedRoute(ex: Exchange<Route>): (r: Result<Route, ApiError>)
    ensures r.Success? <==> Outcome(ex).Success? && ex.payload.Entity?
    ensures r.Success? ==> r.value == ex.payload.resource
    ensures Outcome(ex).Failure? ==> r == Failure(Outcome(ex).error)
    ensures Outcome(ex).Success? && !ex.payload.Entity? ==> r == Failure(Malformed)
  {
    match Outcome(ex)
    case Failure(e) => Failure(e)
    case Success(payload) => if payload.Entity? then Success(payload.resource) else Failure(Malformed)
  }

  // ---------------------------------------------------------------- CheckIfExists

  /** The reservation check: the domain and host in the path, the path (if any) as an unescaped query. */
  function CheckIfExistsUrl(host: string, domainGuid: string, path: string): (url: string)
    ensures var base := UrlPath(["v2", "routes", "reserved", "domain", domainGuid, "host", host]);
      |url| >= |base| && url[..|base|] == base && (url == base <==> path == "")
  {
    UrlPath(["v2", "routes", "reserved", "domain", domainGuid, "host", host])
    + (if path != "" then "?path=" + NormalizedPath(path) else "")
  }

  /** The reservation check's URL, written out. */
  lemma CheckIfExistsUrlShape(host: string, domainGuid: string, path: string)
    ensures CheckIfExistsUrl(host, domainGuid, path)
         == "/v2/routes/reserved/domain/" + domainGuid + "/host/" + host
            + (if path != "" then "?path=" + NormalizedPath(path) else "")
  {
    Path7("v2", "routes", "reserved", "domain", domainGuid, "host", host);
    var prefix := "/" + "v2" + "/" + "routes" + "/" + "reserved" + "/" + "domain" + "/";
    assert prefix == "/v2/routes/reserved/domain/";
    Regroup(prefix + domainGuid, "/", "host", "/", host);
  }

  /**
   * Three pieces in the middle of a string may be joined first. Stated over variables, apart
   * from its one user, because the same step on the literals there is far costlier to check.
   */
  lemma Regroup(x: string, a: string, b: string, c: string, y: string)
    ensures x + a + b + c + y == x + (a + b + c) + y
  {
  }

  /** The reservation check: a GET of the reservation URL, asking for JSON, with no body. */
  function CheckIfExistsRequest(host: string, domainGuid: string, path: string): (r: Request)
    ensures r.verb == Get && r.url == CheckIfExistsUrl(host, domainGuid, path)
    ensures r.accept == JsonMediaType && r.body.None?
  {
    JsonRequest(Get, CheckIfExistsUrl(host, domainGuid, path), None)
  }

  /**
   * The reservation check's URL reads back: its path is the segments reserved, domain,
   * host; with no route path there is no query at all, otherwise the text after the first
   * '?' is exactly "path=" and the normalised route path.
   */
  lemma CheckIfExistsUrlReadsBack(host: string, domainGuid: string, path: string)
    requires '/' !in host && '/' !in domainGuid
    requires '?' !in host && '?' !in domainGuid
    ensures var url := CheckIfExistsUrl(host, domainGuid, path);
      var base := UrlPath(["v2", "routes", "reserved", "domain", domainGuid, "host", host]);
      && Text.Split(base, '/') == ["", "v2", "routes", "reserved", "domain", domainGuid, "host", host]
      && (path == "" ==> url == base && '?' !in url)
      && (path != "" ==> Text.Before(url, '?') == base && Text.After(url, '?') == "path=" + NormalizedPath(path))
  {
    var base := UrlPath(["v2", "routes", "reserved", "domain", domainGuid, "host", host]);
    ReservedPathSegments(host, domainGuid);
    BaseAvoidsQuery(host, domainGuid);
    if path != "" {
      PathQueryReadsBack(base, NormalizedPath(path));
    }
  }

  /** A path followed by the query "path=" and a value reads back as that path and that query. */
  lemma PathQueryReadsBack(base: string, value: string)
    requires '?' !in base
    ensures Text.Before(base + ("?path=" + value), '?') == base
    ensures Text.After(base + ("?path=" + value), '?') == "path=" + value
  {
    PathQueryMark();
    assert base + ("?path=" + value) == base + ['?'] + ("path=" + value);
    Text.BeforeAfter(base, '?', "path=" + value);
  }

  /**
   * The query mark followed by "path=". Kept apart from its one user so that this literal
   * equation is checked on its own, not among the concatenations there.
   */
  lemma PathQueryMark()
    ensures "?path=" == ['?'] + "path="
  {
  }

  lemma ReservedPathSegments(host: string, domainGuid: string)
    requires '/' !in host && '/' !in domainGuid
    ensures Text.Split(UrlPath(["v2", "routes", "reserved", "domain", domainGuid, "host", host]), '/')
         == ["", "v2", "routes", "reserved", "domain", domainGuid, "host", host]
  {
    UrlPathSegments(["v2", "routes", "reserved", "domain", domainGuid, "host", host]);
  }

  lemma BaseAvoidsQuery(host: string, domainGuid: string)
    requires '?' !in host && '?' !in domainGuid
    ensures '?' !in UrlPath(["v2", "routes", "reserved", "domain", domainGuid, "host", host])
  {
    UrlPathAvoids(["v2", "routes", "reserved", "domain", domainGuid, "host", host], '?');
  }

  /** CheckIfExists's answer: reserved on 2xx, free on 404, otherwise the error. */
  function RouteExists<R>(ex: Exchange<R>): (r: Result<bool, ApiError>)
    ensures r == Success(true) <==> ex.Answered? && IsSuccessStatus(ex.status)
    ensures r == Success(false) <==> ex.Answered? && ex.status == 404
    ensures r.Failure? <==> ex.ConnectionFailed? || (!IsSuccessStatus(ex.status) && ex.status != 404)
    ensures r.Failure? ==> r.error == Outcome(ex).error
  {
    match Outcome(ex)
    case Success(_) => Success(true)
    case Failure(HttpNotFound) => Success(false)
    case Failure(e) => Failure(e)
  }

  // ---------------------------------------------------------------- Bind, Unbind, Delete

  /** The binding of a route to an app. */
  function AppRoutePath(routeGuid: string, appGuid: string): (p: string)
    ensures '/' !in routeGuid && '/' !in appGuid ==> Text.Split(p, '/') == ["", "v2", "apps", appGuid, "routes", routeGuid]
  {
    var segments := ["v2", "apps", appGuid, "routes", routeGuid];
    assert Text.Separable(segments, '/') ==> Text.Split(UrlPath(segments), '/') == [""] + segments by {
      if Text.Separable(segments, '/') {
        UrlPathSegments(segments);
      }
    }
    UrlPath(segments)
  }

  /** The binding path, written out: the app first, then the route. */
  lemma AppRoutePathShape(routeGuid: string, appGuid: string)
    ensures AppRoutePath(routeGuid, appGuid) == "/v2/apps/" + appGuid + "/routes/" + routeGuid
  {
    Path5("v2", "apps", appGuid, "routes", routeGuid);
  }

  /** Binding: a PUT of the app's route, with no body. */
  function BindRequest(routeGuid: string, appGuid: string): (r: Request)
    ensures r.verb == Put && r.url == AppRoutePath(routeGuid, appGuid) && r.body.None?
    ensures r.accept == JsonMediaType
  {
    JsonRequest(Put, AppRoutePath(routeGuid, appGuid), None)
  }

  /** Unbinding: a DELETE of the same resource that binding PUTs. */
  function UnbindRequest(routeGuid: string, appGuid: string): (r: Request)
    ensures r.verb == Delete && r.url == BindRequest(routeGuid, appGuid).url && r.body.None?
    ensures r.accept == JsonMediaType
  {
    JsonRequest(Delete, AppRoutePath(routeGuid, appGuid), None)
  }

  /** Deleting: a DELETE of the route itself, with no body. */
  function DeleteRequest(routeGuid: string): (r: Request)
    ensures r.verb == Delete && r.accept == JsonMediaType && r.body.None?
    ensures '/' !in routeGuid ==> Text.Split(r.url, '/') == ["", "v2", "routes", routeGuid]
  {
    var segments := ["v2", "routes", routeGuid];
    assert Text.Separable(segments, '/') ==> Text.Split(UrlPath(segments), '/') == [""] + segments by {
      if Text.Separable(segments, '/') {
        UrlPathSegments(segments);
      }
    }
    JsonRequest(Delete, UrlPath(segments), None)
  }

  /** The deletion path, written out. */
  lemma DeletePathShape(routeGuid: string)
    ensures DeleteRequest(routeGuid).url == "/v2/routes/" + routeGuid
  {
    Path3("v2", "routes", routeGuid);
  }

  /** Bind, Unbind and Delete report no error exactly for a 2xx answer. */
  function MutationError<R>(ex: Exchange<R>): (r: Option<ApiError>)
    ensures r.None? <==> ex.Answered? && IsSuccessStatus(ex.status)
    ensures r.Some? ==> Outcome(ex) == Failure(r.value)
  {
    match Outcome(ex)
    case Success(_) => None
    case Failure(e) => Some(e)
  }

  /** The binding path names its app and route: different pairs never share a path. */
  lemma AppRoutePathIdentifies(route1: string, app1: string, route2: string, app2: string)
    requires '/' !in route1 && '/' !in app1 && '/' !in route2 && '/' !in app2
    requires AppRoutePath(route1, app1) == AppRoutePath(route2, app2)
    ensures route1 == route2 && app1 == app2
  {
    var s1 := ["v2", "apps", app1, "routes", route1];
    var s2 := ["v2", "apps", app2, "routes", route2];
    UrlPathSegments(s1);
    UrlPathSegments(s2);
    assert ([""] + s1)[3] == app1 && ([""] + s2)[3] == app2;
    assert ([""] + s1)[5] == route1 && ([""] + s2)[5] == route2;
  }

  /** The deletion path names its route. */
  lemma DeletePathIdentifies(route1: string, route2: string)
    requires DeleteRequest(route1).url == DeleteRequest(route2).url
    ensures route1 == route2
  {
    DeletePathShape(route1);
    DeletePathShape(route2);
    var prefix := "/v2/routes/";
    assert route1 == (prefix + route1)[|prefix|..];
    assert route2 == (prefix + route2)[|prefix|..];
  }

  // ---------------------------------------------------------------- ListRoutes, ListAllRoutes

  /** The query parameter every route listing carries: the routes come with their relations inlined. */
  const DepthParam := "inline-relations-depth=1"

  /** The routes of one space: its routes collection, with the depth parameter as the whole query. */
  function ListRoutesUrl(spaceGuid: string): (url: string)
    ensures '?' !in spaceGuid ==>
      Text.Before(url, '?') == UrlPath(["v2", "spaces", spaceGuid, "routes"]) && Text.After(url, '?') == DepthParam
  {
    var base := UrlPath(["v2", "spaces", spaceGuid, "routes"]);
    var url := base + "?" + DepthParam;
    assert '?' !in spaceGuid ==> Text.Before(url, '?') == base && Text.After(url, '?') == DepthParam by {
      if '?' !in spaceGuid {
        SpaceRoutesAvoidQuery(spaceGuid);
        Text.BeforeAfter(base, '?', DepthParam);
        assert url == base + ['?'] + DepthParam;
      }
    }
    url
  }

  lemma SpaceRoutesAvoidQuery(spaceGuid: string)
    requires '?' !in spaceGuid
    ensures '?' !in UrlPath(["v2", "spaces", spaceGuid, "routes"])
  {
    UrlPathAvoids(["v2", "spaces", spaceGuid, "routes"], '?');
  }

  /** The space listing's URL, written out. */
  lemma ListRoutesUrlShape(spaceGuid: string)
    ensures ListRoutesUrl(spaceGuid) == "/v2/spaces/" + spaceGuid + "/routes" + "?inline-relations-depth=1"
  {
    Path4("v2", "spaces", spaceGuid, "routes");
    var prefix := "/" + "v2" + "/" + "spaces" + "/";
    assert prefix == "/v2/spaces/";
    assert prefix + spaceGuid + "/" + "routes" == prefix + spaceGuid + "/routes";
  }

  /** The routes of every space of an org. */
  function ListAllRoutesUrl(orgGuid: string): (url: string)
    ensures Text.Before(url, '?') == "/v2/routes"
    ensures '&' !in orgGuid ==>
      Text.Split(Text.After(url, '?'), '&') == ["q=organization_guid:" + orgGuid, "inline-relations-depth=1"]
  {
    var params := ["q=organization_guid:" + orgGuid, "inline-relations-depth=1"];
    QueryReadsBack("/v2/routes", params);
    OrgFilterSeparable(orgGuid);
    "/v2/routes" + "?" + Text.Join(params, '&')
  }

  lemma OrgFilterSeparable(orgGuid: string)
    ensures '&' !in orgGuid ==> Text.Separable(["q=organization_guid:" + orgGuid, "inline-relations-depth=1"], '&')
  {
    var filter := "q=organization_guid:";
    var depth := "inline-relations-depth=1";
    assert forall k :: 0 <= k < |filter| ==> filter[k] != '&';
    assert forall k :: 0 <= k < |depth| ==> depth[k] != '&';
    if '&' !in orgGuid {
      assert '&' !in filter + orgGuid;
    }
  }

  /** A URL made of a path and '&'-separated parameters reads back as that path and those parameters. */
  lemma QueryReadsBack(path: string, params: seq<string>)
    requires '?' !in path && |params| >= 1
    ensures Text.Before(path + "?" + Text.Join(params, '&'), '?') == path
    ensures Text.Separable(params, '&') ==> Text.Split(Text.After(path + "?" + Text.Join(params, '&'), '?'), '&') == params
  {
    assert path + "?" + Text.Join(params, '&') == path + ['?'] + Text.Join(params, '&');
    Text.BeforeAfter(path, '?', Text.Join(params, '&'));
    if Text.Separable(params, '&') {
      Text.SplitJoin(params, '&');
    }
  }

  /** ListRoutes: every route of the current space, handed to the visitor page by page. */
  method ListRoutes(spaceGuid: string, responses: seq<Exchange<Route>>, visit: Route -> bool)
    returns (routes: seq<Route>, requested: seq<string>, error: Option<ApiError>)
    ensures Listing(routes, requested, error) == Paginate(ListRoutesUrl(spaceGuid), responses, 0, visit)
  {
    routes, requested, error := ListPaginatedResources(ListRoutesUrl(spaceGuid), responses, visit);
  }

  /** ListAllRoutes: every route of the current org, handed to the visitor page by page. */
  method ListAllRoutes(orgGuid: string, responses: seq<Exchange<Route>>, visit: Route -> bool)
    returns (routes: seq<Route>, requested: seq<string>, error: Option<ApiError>)
    ensures Listing(routes, requested, error) == Paginate(ListAllRoutesUrl(orgGuid), responses, 0, visit)
  {
    routes, requested, error := ListPaginatedResources(ListAllRoutesUrl(orgGuid), responses, visit);
  }
}
