/**
 * The concrete exchanges the route repository's tests pin down, derived from the general
 * model: the exact query, body and paths each operation sends, and its answer to each
 * scripted response.
 */
module RoutesFixtures {
  import opened Wrappers
  import opened Gateway
  import opened Routes
  import Text
  import UrlEscape

  /** A visitor that collects every route and keeps the listing going. */
  const CollectAll: Route -> bool := _ => true

  /** Two pages linked by next_url are enumerated in full, with two requests. */
  lemma TwoPages(url: string, next: string, route1: Route, route2: Route)
    requires url != "" && next != ""
    ensures Paginate(url, Served([Page(next, [route1]), Page("", [route2])]), 0, CollectAll)
         == Listing([route1, route2], [url, next], None)
  {
    var pages := [Page(next, [route1]), Page("", [route2])];
    EnumeratesAllPages(url, pages, 0, CollectAll);
    assert pages[0..] == pages;
    assert pages[1..] == [Page("", [route2])];
    assert Flatten(pages) == [route1, route2];
    assert NextUrls(pages) == [next];
  }

  /** The space listing: the two pages of the test server enumerated in full. */
  lemma ListRoutesTwoPages()
    ensures var route1 := Route("route-1-guid", "route-1-host", "", "domain-1-guid", "space-1-guid", 0);
      var route2 := Route("route-2-guid", "route-2-host", "/path-2", "domain-2-guid", "space-2-guid", 0);
      var next := "/v2/spaces/the-space-guid/routes?inline-relations-depth=1&page=2";
      Paginate(ListRoutesUrl("the-space-guid"), Served([Page(next, [route1]), Page("", [route2])]), 0, CollectAll)
        == Listing([route1, route2], [ListRoutesUrl("the-space-guid"), next], None)
  {
    ListRoutesUrlShape("the-space-guid");
    TwoPages(ListRoutesUrl("the-space-guid"), "/v2/spaces/the-space-guid/routes?inline-relations-depth=1&page=2",
      Route("route-1-guid", "route-1-host", "", "domain-1-guid", "space-1-guid", 0),
      Route("route-2-guid", "route-2-host", "/path-2", "domain-2-guid", "space-2-guid", 0));
  }

  /** The org listing: the same two-page enumeration from the org-wide URL. */
  lemma ListAllRoutesTwoPages()
    ensures var route1 := Route("route-1-guid", "route-1-host", "", "domain-1-guid", "space-1-guid", 0);
      var route2 := Route("route-2-guid", "route-2-host", "/path-2", "domain-2-guid", "space-2-guid", 0);
      var next := "/v2/routes?q=organization_guid:my-org-guid&inline-relations-depth=1&page=2";
      Paginate(ListAllRoutesUrl("my-org-guid"), Served([Page(next, [route1]), Page("", [route2])]), 0, CollectAll)
        == Listing([route1, route2], [ListAllRoutesUrl("my-org-guid"), next], None)
  {
    TwoPages(ListAllRoutesUrl("my-org-guid"), "/v2/routes?q=organization_guid:my-org-guid&inline-relations-depth=1&page=2",
      Route("route-1-guid", "route-1-host", "", "domain-1-guid", "space-1-guid", 0),
      Route("route-2-guid", "route-2-host", "/path-2", "domain-2-guid", "space-2-guid", 0));
  }

  /** The separators of the query are escaped: ':' as %3A and ';' as %3B. */
  lemma FindEscapesSeparators()
    ensures UrlEscape.QueryEscape(":") == "%3A" && UrlEscape.QueryEscape(";") == "%3B"
  {
  }

  /** A 201 page holding a route gives that route; a 200 page with no resources gives not-found. */
  lemma FindAnswers(host: string, domainGuid: string, path: string, port: int, route: Route)
    ensures var url := FindUrl(host, domainGuid, path, port);
      FindResult(Paginate(url, [Answered(201, PageOf(Page("", [route])))], 0, StopAtFirst)) == Success(route)
    ensures var url := FindUrl(host, domainGuid, path, port);
      FindResult(Paginate(url, [Answered(200, PageOf(Page("", [])))], 0, StopAtFirst)) == Failure(ModelNotFound)
  {
    FindFirstAnswer(host, domainGuid, path, port, [Answered(201, PageOf(Page("", [route])))]);
    FindFirstAnswer(host, domainGuid, path, port, [Answered(200, PageOf(Page("", [])))]);
  }

  /** The creation bodies: only the fields that were given, plus generate_port. */
  lemma CreateBodies()
    ensures CreateRouteBody("", "", "my-domain-guid", "my-space-guid", 0, false)
         == [("domain_guid", JString("my-domain-guid")), ("space_guid", JString("my-space-guid")), ("generate_port", JBool(false))]
    ensures CreateRouteBody("the-host", "", "my-domain-guid", "my-space-guid", 0, false)
         == [("host", JString("the-host")), ("domain_guid", JString("my-domain-guid")), ("space_guid", JString("my-space-guid")),
             ("generate_port", JBool(false))]
    ensures CreateRouteBody("", "the-path", "my-domain-guid", "my-space-guid", 0, false)
         == [("domain_guid", JString("my-domain-guid")), ("space_guid", JString("my-space-guid")), ("path", JString("/the-path")),
             ("generate_port", JBool(false))]
    ensures CreateRouteBody("", "", "my-domain-guid", "my-space-guid", 9090, false)
         == [("domain_guid", JString("my-domain-guid")), ("space_guid", JString("my-space-guid")), ("port", JNumber(9090)),
             ("generate_port", JBool(false))]
    ensures CreateRouteBody("", "", "my-domain-guid", "my-space-guid", 0, true)
         == [("domain_guid", JString("my-domain-guid")), ("space_guid", JString("my-space-guid")), ("generate_port", JBool(true))]
    ensures CreateInSpaceRequest("", "", "my-domain-guid", "my-space-guid", 0, false).url
         == "/v2/routes?inline-relations-depth=1&async=true"
  {
    assert NormalizedPath("the-path") == "/the-path";
  }

  /** A 201 entity gives the created route; a server that is gone gives an error. */
  lemma CreateAnswers(route: Route)
    ensures CreatedRoute(Answered(201, Entity(route))) == Success(route)
    ensures CreatedRoute(ConnectionFailed).Failure?
  {
  }

  /** The reservation check's answers: reserved on 204, free on 404, an error on 403. */
  lemma CheckIfExistsAnswers()
    ensures RouteExists<Route>(Answered(204, NoContent)) == Success(true)
    ensures RouteExists<Route>(Answered(404, NoContent)) == Success(false)
    ensures RouteExists<Route>(Answered(403, NoContent)) == Failure(HttpError(403))
  {
  }

  /** Bind, Unbind and Delete report no error on a 201 answer. */
  lemma MutationAnswers()
    ensures MutationError<Route>(Answered(201, NoContent)) == None
  {
  }
}
