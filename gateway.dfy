/**
 * The cloud-controller gateway as the route repository uses it: requests, the answers a
 * server gives, the mapping of HTTP statuses to errors, and the paginated listing that
 * follows each page's next_url and hands every resource to a visitor in response order.
 *
 * The network is a finite script of exchanges: the i-th request sent receives the i-th
 * exchange of the script, and a request sent after the script is used up finds no server.
 */
module Gateway {
  import opened Wrappers

  datatype Verb = Get | Post | Put | Delete

  /** The JSON values a request body holds. */
  datatype JsonValue = JString(s: string) | JNumber(n: int) | JBool(b: bool)

  /** A JSON object as its fields in the order they are written. */
  type JsonObject = seq<(string, JsonValue)>

  /** The value of the first field named `key`; the bodies modelled here have no repeated field. */
  function Lookup(obj: JsonObject, key: string): (v: Option<JsonValue>)
    ensures v.None? <==> forall i :: 0 <= i < |obj| ==> obj[i].0 != key
    ensures v.Some? ==> exists i :: 0 <= i < |obj| && obj[i] == (key, v.value)
    decreases |obj|
  {
    if obj == [] then None
    else if obj[0].0 == key then Some(obj[0].1)
    else
      var v := Lookup(obj[1..], key);
      assert forall i :: 1 <= i < |obj| ==> obj[i] == obj[1..][i - 1];
      v
  }

  /** Every request the gateway sends asks for JSON with this Accept header value. */
  const JsonMediaType := "application/json"

  /** A request: verb, URL path with its raw query, Accept header and optional JSON body. */
  datatype Request = Request(verb: Verb, url: string, accept: string, body: Option<JsonObject>)

  /** A request of the repository: it always asks for JSON. */
  function JsonRequest(verb: Verb, url: string, body: Option<JsonObject>): Request
  {
    Request(verb, url, JsonMediaType, body)
  }

  /** One page of a listing: the cursor to the next page ("" when there is none) and its resources. */
  datatype Page<R> = Page(nextUrl: string, resources: seq<R>)

  /** A decoded response body. */
  datatype Payload<R> = NoContent | Entity(resource: R) | PageOf(page: Page<R>)

  /** What one request meets: no server, or an HTTP status with a decoded body. */
  datatype Exchange<R> = ConnectionFailed | Answered(status: int, payload: Payload<R>)

  /** The errors the gateway and the repositories report. */
  datatype ApiError =
    | HttpNotFound          // a 404 status
    | HttpError(status: int) // any other status outside 2xx
    | TransportFailure      // no answer at all
    | Malformed             // a 2xx answer whose body is not what the operation reads
    | ModelNotFound         // a lookup whose listing held no resource

  predicate IsSuccessStatus(status: int)
  {
    200 <= status < 300
  }

  /** The error for a status outside 2xx. */
  function StatusError(status: int): (e: ApiError)
    requires !IsSuccessStatus(status)
    ensures e == HttpNotFound <==> status == 404
    ensures e != HttpNotFound ==> e == HttpError(status)
  {
    if status == 404 then HttpNotFound else HttpError(status)
  }

  /** The gateway's verdict on one exchange. */
  function Outcome<R>(ex: Exchange<R>): (r: Result<Payload<R>, ApiError>)
    ensures r.Success? <==> ex.Answered? && IsSuccessStatus(ex.status)
    ensures r.Success? ==> r.value == ex.payload
    ensures r == Failure(TransportFailure) <==> ex.ConnectionFailed?
    ensures r == Failure(HttpNotFound) <==> ex.Answered? && ex.status == 404
    ensures r.Failure? && ex.Answered? && ex.status != 404 ==> r.error == HttpError(ex.status)
  {
    match ex
    case ConnectionFailed => Failure(TransportFailure)
    case Answered(status, payload) =>
      if IsSuccessStatus(status) then Success(payload) else Failure(StatusError(status))
  }

  /** The page a listing request reads from an exchange. */
  function DecodePage<R>(ex: Exchange<R>): (r: Result<Page<R>, ApiError>)
    ensures r.Success? <==> Outcome(ex).Success? && ex.payload.PageOf?
    ensures r.Success? ==> r.value == ex.payload.page
    ensures r.Failure? && Outcome(ex).Failure? ==> r.error == Outcome(ex).error
    ensures r.Failure? && Outcome(ex).Success? ==> r.error == Malformed
  {
    match Outcome(ex)
    case Failure(e) => Failure(e)
    case Success(payload) => if payload.PageOf? then Success(payload.page) else Failure(Malformed)
  }

  /**
   * The index of the first resource at or after `j` that the visitor rejects, or |items|
   * when it accepts them all.
   */
  function FirstRejected<R>(items: seq<R>, visit: R -> bool, j: nat): (i: nat)
    requires j <= |items|
    ensures j <= i <= |items|
    ensures forall m :: j <= m < i ==> visit(items[m])
    ensures i < |items| ==> !visit(items[i])
    decreases |items| - j
  {
    if j == |items| then j
    else if !visit(items[j]) then j
    else FirstRejected(items, visit, j + 1)
  }

  /** What a listing delivered: the resources visited, the URLs requested and the error, if any. */
  datatype Listing<R> = Listing(visited: seq<R>, requested: seq<string>, error: Option<ApiError>)

  /** A listing preceded by resources already visited and URLs already requested. */
  function Then<R>(visited: seq<R>, requested: seq<string>, rest: Listing<R>): Listing<R>
  {
    Listing(visited + rest.visited, requested + rest.requested, rest.error)
  }

  /**
   * The listing that starts by requesting `url` as request number `k` of the script:
   * a page's resources go to the visitor in order, the first rejection ends the listing
   * without error, and otherwise the page's next_url is requested verbatim until a page
   * has none. An error ends the listing; what was visited before it stays visited.
   */
  function Paginate<R>(url: string, responses: seq<Exchange<R>>, k: nat, visit: R -> bool): (l: Listing<R>)
    requires k <= |responses|
    ensures url == "" ==> l == Listing([], [], None)
    ensures url != "" ==> |l.requested| >= 1 && l.requested[0] == url
    ensures |l.requested| <= |responses| - k + 1
    decreases |responses| - k
  {
    if url == "" then Listing([], [], None)
    else if k == |responses| then Listing([], [url], Some(TransportFailure))
    else
      match DecodePage(responses[k])
      case Failure(e) => Listing([], [url], Some(e))
      case Success(page) =>
        var i := FirstRejected(page.resources, visit, 0);
        if i < |page.resources| then Listing(page.resources[..i + 1], [url], None)
        else Then(page.resources, [url], Paginate(page.nextUrl, responses, k + 1, visit))
  }

  /**
   * Hands a page's resources to the visitor in order until it rejects one: `seen` is what
   * it was given, and `stopped` says whether it asked to stop.
   */
  method VisitPage<R>(items: seq<R>, visit: R -> bool) returns (stopped: bool, seen: seq<R>)
    ensures var i := FirstRejected(items, visit, 0);
      stopped == (i < |items|) && seen == (if stopped then items[..i + 1] else items)
  {
    seen := [];
    var j := 0;
    while j < |items|
      invariant j <= |items|
      invariant FirstRejected(items, visit, 0) == FirstRejected(items, visit, j)
      invariant seen == items[..j]
    {
      seen := seen + [items[j]];
      if !visit(items[j]) {
        assert items[..j + 1] == items[..j] + [items[j]];
        return true, seen;
      }
      j := j + 1;
    }
    assert items[..j] == items;
    return false, seen;
  }

  /** A listing preceded by two prefixes is the listing preceded by both at once. */
  lemma ThenAssoc<R>(visited: seq<R>, requested: seq<string>, visited2: seq<R>, requested2: seq<string>, rest: Listing<R>)
    ensures Then(visited, requested, Then(visited2, requested2, rest)) == Then(visited + visited2, requested + requested2, rest)
  {
    assert visited + (visited2 + rest.visited) == visited + visited2 + rest.visited;
    assert requested + (requested2 + rest.requested) == requested + requested2 + rest.requested;
  }

  /** The gateway's paginated listing loop (ListPaginatedResources): the visitor's calls become `visited`. */
  method ListPaginatedResources<R>(firstUrl: string, responses: seq<Exchange<R>>, visit: R -> bool)
    returns (visited: seq<R>, requested: seq<string>, error: Option<ApiError>)
    ensures Listing(visited, requested, error) == Paginate(firstUrl, responses, 0, visit)
  {
    visited, requested, error := [], [], None;
    var url, k := firstUrl, 0;
    while url != ""
      invariant k <= |responses|
      invariant Paginate(firstUrl, responses, 0, visit) == Then(visited, requested, Paginate(url, responses, k, visit))
      decreases |responses| - k
    {
      ghost var before := requested;
      requested := requested + [url];
      if k == |responses| {
        error := Some(TransportFailure);
        return;
      }
      var page := DecodePage(responses[k]);
      if page.Failure? {
        error := Some(page.error);
        return;
      }
      var stopped, seen := VisitPage(page.value.resources, visit);
      if stopped {
        ThenAssoc(visited, before, seen, [url], Listing([], [], None));
        visited := visited + seen;
        return;
      }
      ThenAssoc(visited, before, seen, [url], Paginate(page.value.nextUrl, responses, k + 1, visit));
      visited := visited + seen;
      url := page.value.nextUrl;
      k := k + 1;
    }
  }

  /** A visitor that rejects the first resource of the first page ends the listing after one request. */
  lemma StopOnFirstRejection<R>(url: string, responses: seq<Exchange<R>>, visit: R -> bool)
    requires url != "" && |responses| >= 1
    requires DecodePage(responses[0]).Success?
    requires |DecodePage(responses[0]).value.resources| >= 1
    requires !visit(DecodePage(responses[0]).value.resources[0])
    ensures Paginate(url, responses, 0, visit) ==
      Listing([DecodePage(responses[0]).value.resources[0]], [url], None)
  {
    var items := DecodePage(responses[0]).value.resources;
    assert FirstRejected(items, visit, 0) == 0;
    assert items[..1] == [items[0]];
  }

  /**
   * For every visitor and every script: each resource visited except the last was accepted,
   * and a listing whose last visited resource was rejected ended there without an error.
   */
  lemma {:induction false} VisitorDecidesStop<R>(url: string, responses: seq<Exchange<R>>, k: nat, visit: R -> bool)
    requires k <= |responses|
    ensures var l := Paginate(url, responses, k, visit);
      && (forall m :: 0 <= m < |l.visited| - 1 ==> visit(l.visited[m]))
      && (l.visited != [] && !visit(l.visited[|l.visited| - 1]) ==> l.error.None?)
    decreases |responses| - k
  {
    if url != "" && k < |responses| && DecodePage(responses[k]).Success? {
      var items := DecodePage(responses[k]).value.resources;
      if FirstRejected(items, visit, 0) == |items| {
        var next := DecodePage(responses[k]).value.nextUrl;
        VisitorDecidesStop(next, responses, k + 1, visit);
        var rest := Paginate(next, responses, k + 1, visit);
        var l := Paginate(url, responses, k, visit);
        assert l.visited == items + rest.visited;
        forall m | 0 <= m < |l.visited| - 1 ensures visit(l.visited[m]) {
          if m >= |items| {
            assert l.visited[m] == rest.visited[m - |items|];
          }
        }
        if l.visited != [] && rest.visited == [] {
          assert l.visited[|l.visited| - 1] == items[|items| - 1];
        }
      }
    }
  }

  /**
   * A listing that ends on a rejected resource requests no further page: appending more
   * exchanges to the script leaves the listing as it was.
   */
  lemma {:induction false} RejectionFetchesNoMore<R>(url: string, responses: seq<Exchange<R>>, more: seq<Exchange<R>>, k: nat, visit: R -> bool)
    requires k <= |responses|
    requires var l := Paginate(url, responses, k, visit);
      l.visited != [] && !visit(l.visited[|l.visited| - 1])
    ensures Paginate(url, responses + more, k, visit) == Paginate(url, responses, k, visit)
    decreases |responses| - k
  {
    var l := Paginate(url, responses, k, visit);
    assert url != "" && k < |responses|;
    assert (responses + more)[k] == responses[k];
    var items := DecodePage(responses[k]).value.resources;
    if FirstRejected(items, visit, 0) == |items| {
      var next := DecodePage(responses[k]).value.nextUrl;
      var rest := Paginate(next, responses, k + 1, visit);
      assert l.visited == items + rest.visited;
      if rest.visited == [] {
        assert false;
      }
      assert l.visited[|l.visited| - 1] == rest.visited[|rest.visited| - 1];
      RejectionFetchesNoMore(next, responses, more, k + 1, visit);
    }
  }

  /** A page with no resources but a next_url still leads to the next page being requested. */
  lemma EmptyPageFollowsNextUrl<R>(url: string, responses: seq<Exchange<R>>, k: nat, visit: R -> bool)
    requires url != "" && k < |responses|
    requires DecodePage(responses[k]).Success? && DecodePage(responses[k]).value.resources == []
    requires DecodePage(responses[k]).value.nextUrl != ""
    ensures var next := DecodePage(responses[k]).value.nextUrl;
      Paginate(url, responses, k, visit) == Then([], [url], Paginate(next, responses, k + 1, visit))
      && |Paginate(url, responses, k, visit).requested| >= 2
      && Paginate(url, responses, k, visit).requested[1] == next
  {
  }

  /** An exchange that yields no page ends the listing with that exchange's error. */
  lemma FailedPageStops<R>(url: string, responses: seq<Exchange<R>>, k: nat, visit: R -> bool)
    requires url != "" && k < |responses|
    requires DecodePage(responses[k]).Failure?
    ensures Paginate(url, responses, k, visit) == Listing([], [url], Some(DecodePage(responses[k]).error))
  {
  }

  /** The exchanges of a server that answers 200 with these pages, one per request. */
  function Served<R>(pages: seq<Page<R>>): seq<Exchange<R>>
  {
    seq(|pages|, i requires 0 <= i < |pages| => Answered(200, PageOf(pages[i])))
  }

  /** From page `k` on, every page but the last carries a next_url and the last carries none. */
  ghost predicate Chained<R>(pages: seq<Page<R>>, k: nat)
  {
    forall i :: k <= i < |pages| ==> (pages[i].nextUrl == "" <==> i == |pages| - 1)
  }

  /** All the resources of the pages, page by page, in response order. */
  function Flatten<R>(pages: seq<Page<R>>): seq<R>
    decreases |pages|
  {
    if pages == [] then [] else pages[0].resources + Flatten(pages[1..])
  }

  /** The next_url of every page but the last. */
  function NextUrls<R>(pages: seq<Page<R>>): seq<string>
    decreases |pages|
  {
    if |pages| <= 1 then [] else [pages[0].nextUrl] + NextUrls(pages[1..])
  }

  /**
   * With a visitor that accepts everything, a chain of pages is enumerated completely: the
   * visitor sees every resource of every page in response order, the first URL is requested
   * and then each page's next_url verbatim, and no error is reported.
   */
  lemma {:induction false} EnumeratesAllPages<R>(url: string, pages: seq<Page<R>>, k: nat, visit: R -> bool)
    requires url != "" && k < |pages|
    requires Chained(pages, k)
    requires forall r :: visit(r)
    ensures Paginate(url, Served(pages), k, visit) == Listing(Flatten(pages[k..]), [url] + NextUrls(pages[k..]), None)
    decreases |pages| - k
  {
    var responses := Served(pages);
    var page := pages[k];
    assert responses[k] == Answered(200, PageOf(page));
    assert DecodePage(responses[k]) == Success(page);
    assert FirstRejected(page.resources, visit, 0) == |page.resources|;
    assert pages[k..][1..] == pages[k + 1..];
    if k == |pages| - 1 {
      assert pages[k + 1..] == [];
      assert Flatten(pages[k..]) == page.resources;
    } else {
      EnumeratesAllPages(page.nextUrl, pages, k + 1, visit);
    }
  }
}
