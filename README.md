# Cloud Foundry CLI: the v2 configuration fake and the route repository, in Dafny

This project models two parts of the Cloud Foundry command line interface and proves
properties of both.

**The call-recording configuration fake** (`FakeConfig` of the v2 actor, module
`V2ActionFakes`, file `fake_config.dfy`). This is a class whose fields are the fake's own:
- one argument log per method;
- a default answer and a map of per-call overrides for each getter;
- an optional stub for each getter;
- the shared `invocations` record from method name to the argument lists of its calls.

The getters `AccessToken` and `Verbose` do the following, in this order:
1. read the override for the current call index;
2. log the call;
3. record it;
4. answer from the stub, else the override, else the default.

The setters `SetAccessToken` and `SetTokenInformation` only log and record. The methods change
only the fields they name. The class invariant `Valid` ties each method's own log to the shared
record: a method has as many entries under its name as it has logged calls, a getter's entries
are empty argument lists, and a setter's entry `i` holds the arguments of its call `i`. The
constructor establishes it and every logging method keeps it, so the call counts and argument
read-backs are statements about the shared record. The specification functions `Recorded` (what one recorded call does
to the record) and `Answer` (stub, then override, then default) are what the methods are proved
against, and the lemmas about those two functions state the fake's promises.

**The route repository of the cloud-controller API** (modules `Gateway`, `Routes` and
`RoutesFixtures`). It is modelled as the requests it sends and the way it reads the answers:
- `Find`'s filter query;
- the `CreateInSpace` body;
- the `CheckIfExists` URL and its status table;
- the `Bind`, `Unbind` and `Delete` paths;
- the page-by-page listing behind `ListRoutes`, `ListAllRoutes` and `Find`.

`ListPaginatedResources` is a loop method proved against the recursive specification
`Paginate`. The repository's own implementation (`cf/api/routes.go`) is not part of this model.
Its behaviour is taken from the assertions and response fixtures of `cf/api/routes_test.go`, and
`RoutesFixtures` restates those fixtures as lemmas about the general model.

Helper modules:
- `Text` models Go's `strings.Join` and `strings.Split` and the `%d` rendering of an integer.
- `UrlEscape` models `url.QueryEscape` over UTF-8 bytes, with its inverse.
- `Wrappers` holds `Option` and `Result`.

The server is a parameter. It is a finite script of exchanges, and the i-th request receives
the i-th exchange. A request sent after the script runs out finds no server.

Choices made where the tests leave room:
- `Find` is a listing whose visitor keeps the first route and stops. A listing that ends
  without an error and without any route is not-found.
- A path gets a leading `/` only when it lacks one. The tests pin only `somepath` → `/somepath`.
- The `Find` query is escaped as `url.Values.Encode` escapes it; the test handlers at lines
  128-134, 159-165 and 190-196 compare the request against `v.Encode()`. The test at line 209
  spells the escapes out (`%3A`, `%3B`), but its expected q holds only host and domain, which
  does not match the `Find` call it makes (with `somepath` and port 1478).
- The `CheckIfExists` query `path=/some-path` is written raw. This is the raw query that the
  test server compares against.
- `RouteExists` treats every 2xx status as reserved. The tests pin only 204 (line 513).

## Model

| member | source | states |
|---|---|---|
| V2ActionFakes.Recorded | actor/v2action/v2actionfakes/fake_config.go:1092-1102 | after one recorded call the key is present, its list is the old list with the call's arguments appended, and every other key's list is unchanged |
| V2ActionFakes.RecordedInOrder | actor/v2action/v2actionfakes/fake_config.go:1098-1101 | two calls under one key appear in call order after the earlier entries |
| V2ActionFakes.RecordedCommutes | actor/v2action/v2actionfakes/fake_config.go:1092-1102 | recording calls of two different methods in either order gives the same record |
| V2ActionFakes.Answer | actor/v2action/v2actionfakes/fake_config.go:180-195 | a getter's answer is always one of what the fake was told: the stub's result, the override for that call, or the default |
| V2ActionFakes.StubWins | actor/v2action/v2actionfakes/fake_config.go:187-189 | an installed stub's result is the answer whatever overrides and default are set |
| V2ActionFakes.OverrideOnlyAtIndex | actor/v2action/v2actionfakes/fake_config.go:218-230 | setting the override for call i changes the answer of call i only; a call with no override still gets the default |
| V2ActionFakes.AnswerWithoutStub | actor/v2action/v2actionfakes/fake_config.go:180-195 | without a stub, call n gets the override for n when one is set, and the default otherwise |
| V2ActionFakes.FakeConfig.constructor | actor/v2action/v2actionfakes/fake_config.go:12-22 | a fresh fake has no stubs, empty logs, zero-value defaults, no overrides and an empty record, and its logs agree with the record |
| V2ActionFakes.FakeConfig.AccessToken | actor/v2action/v2actionfakes/fake_config.go:180-195 | the invariant is kept, the call count goes up by one, the call is recorded under "AccessToken" with no arguments, the result is stub, else the override for the index the call had before logging, else the default, and no other method's count changes |
| V2ActionFakes.FakeConfig.AccessTokenCallCount | actor/v2action/v2actionfakes/fake_config.go:197-201 | the count equals the number of argument lists recorded under "AccessToken" in the shared record |
| V2ActionFakes.FakeConfig.AccessTokenCalls | actor/v2action/v2actionfakes/fake_config.go:203-207 | installs the stub and changes nothing else |
| V2ActionFakes.FakeConfig.AccessTokenReturns | actor/v2action/v2actionfakes/fake_config.go:209-216 | clears the stub and sets the default answer |
| V2ActionFakes.FakeConfig.AccessTokenReturnsOnCall | actor/v2action/v2actionfakes/fake_config.go:218-230 | clears the stub and sets the override of index i only, keeping all other overrides |
| V2ActionFakes.FakeConfig.SetAccessToken | actor/v2action/v2actionfakes/fake_config.go:492-502 | the invariant is kept, the count goes up by one and the new call's argument reads back at the old count, the call is recorded under "SetAccessToken", what AccessToken and Verbose return next is unchanged, and no other method's count changes |
| V2ActionFakes.FakeConfig.SetAccessTokenCallCount | actor/v2action/v2actionfakes/fake_config.go:504-508 | the count equals the number of argument lists recorded under "SetAccessToken" in the shared record |
| V2ActionFakes.FakeConfig.SetAccessTokenArgsForCall | actor/v2action/v2actionfakes/fake_config.go:516-521 | the argument of call i, as a one-element list, is the i-th argument list recorded under "SetAccessToken", for an index that has a call |
| V2ActionFakes.FakeConfig.SetTokenInformation | actor/v2action/v2actionfakes/fake_config.go:585-597 | the invariant is kept, the count goes up by one and the three arguments read back at the old count, the call is recorded in parameter order under "SetTokenInformation", the getters' next answers are unchanged, and no other method's count changes |
| V2ActionFakes.FakeConfig.SetTokenInformationCallCount | actor/v2action/v2actionfakes/fake_config.go:599-603 | the count equals the number of argument lists recorded under "SetTokenInformation" in the shared record |
| V2ActionFakes.FakeConfig.SetTokenInformationArgsForCall | actor/v2action/v2actionfakes/fake_config.go:611-616 | the three arguments of call i, in parameter order, are the i-th argument list recorded under "SetTokenInformation" |
| V2ActionFakes.FakeConfig.Verbose | actor/v2action/v2actionfakes/fake_config.go:987-1002 | the invariant is kept, the call count goes up by one, the call is recorded under "Verbose", both results come from stub, else override, else default, and no other method's count changes |
| V2ActionFakes.FakeConfig.VerboseCallCount | actor/v2action/v2actionfakes/fake_config.go:1004-1008 | the count equals the number of argument lists recorded under "Verbose" in the shared record |
| V2ActionFakes.FakeConfig.VerboseCalls | actor/v2action/v2actionfakes/fake_config.go:1010-1014 | installs the stub |
| V2ActionFakes.FakeConfig.VerboseReturns | actor/v2action/v2actionfakes/fake_config.go:1016-1024 | clears the stub and sets both default results |
| V2ActionFakes.FakeConfig.VerboseReturnsOnCall | actor/v2action/v2actionfakes/fake_config.go:1026-1040 | clears the stub and sets the override of index i only |
| V2ActionFakes.FakeConfig.Invocations | actor/v2action/v2actionfakes/fake_config.go:1085-1089 | the copy built key by key has exactly the record's keys, each with the record's list, and the fake itself is not changed |
| V2ActionFakes.FakeConfig.RecordInvocation | actor/v2action/v2actionfakes/fake_config.go:1092-1102 | the record becomes Recorded(old record, key, args) |
| V2ActionFakes.OverrideForSecondCall | actor/v2action/v2actionfakes/fake_config.go:180-230 | with default "a" and override "b" for call 1, three calls answer "a", "b", "a", and the count is 3 |
| V2ActionFakes.RecordsPerMethod | actor/v2action/v2actionfakes/fake_config.go:1092-1102 | interleaved AccessToken and Verbose calls are recorded under their own names, each in call order, and each method counts only its own calls |
| V2ActionFakes.StubBeatsOverride | actor/v2action/v2actionfakes/fake_config.go:181-189 | a stub beats an override for the same call, and the call is still counted and recorded |
| V2ActionFakes.SettersLogInOrder | actor/v2action/v2actionfakes/fake_config.go:492-616 | setter arguments read back by call index in call order, and setters leave the getter's default answer in place |
| Text.SplitJoin | cf/api/routes_test.go:161 | splitting the ';'-joined clauses gives the clauses back when none contains ';' |
| Text.Join | cf/api/routes_test.go:126-162 | a character other than the separator appears in the joined text only if some part contains it |
| Text.Split | cf/api/routes_test.go:126-162 | there is at least one piece, no piece contains the separator, and text without the separator is a single piece |
| Text.IntToString | cf/api/routes_test.go:157-162 | the rendering is non-empty, starts with '-' exactly for a negative number, and is otherwise digits |
| Text.BeforeAfter | cf/api/routes_test.go:130 | a "key:value" clause reads back as its key and value when the key has no ':' |
| Text.IntToStringRoundTrip | cf/api/routes_test.go:161 | the decimal text of the port parses back to the port, negative ports included |
| UrlEscape.QueryEscape | cf/api/routes_test.go:209 | an escaped query component is made only of unreserved characters, '%' and '+', so it contains no ':', ';' or '&' |
| UrlEscape.QueryEscapeRoundTrip | cf/api/routes_test.go:128-134 | unescaping an escaped query gives back the UTF-8 bytes of the original text |
| UrlEscape.QueryUnescape | cf/api/routes_test.go:126-162 | unescaping fails only on text containing '%', and never yields more than four bytes per character |
| Gateway.Lookup | cf/api/routes_test.go:246-252 | a field is absent exactly when no member has its name, and a found value belongs to a member with that name |
| Gateway.StatusError | cf/api/routes_test.go:525-562 | a non-2xx status becomes not-found exactly for 404 and an HTTP error with the status otherwise |
| Gateway.Outcome | cf/api/routes_test.go:505-562 | success exactly for a 2xx answer, carrying its payload; transport failure exactly when no server answered; not-found exactly for 404 |
| Gateway.DecodePage | cf/api/routes_test.go:188-223 | a page exactly for a 2xx answer carrying one; otherwise the exchange's error, or malformed for a 2xx answer with another body |
| Gateway.FirstRejected | cf/api/routes_test.go:65-69 | the visitor accepted every resource before the returned index and rejects the one at it, if any |
| Gateway.Paginate | cf/api/routes_test.go:50-80 | the first URL requested is the listing's URL, nothing is requested for an empty URL, and no more requests are made than the script has answers plus one |
| Gateway.VisitPage | cf/api/routes_test.go:65-69 | the resources handed to the visitor are the page's prefix up to and including the first rejected one, and it stops exactly when one was rejected |
| Gateway.ListPaginatedResources | cf/api/routes_test.go:50-113 | the loop visits, requests and fails exactly as Paginate specifies |
| Gateway.StopOnFirstRejection | cf/api/routes_test.go:143-154 | a visitor rejecting the first resource ends the listing after one request with one resource visited |
| Gateway.VisitorDecidesStop | cf/api/routes_test.go:50-186 | for every visitor and script, each resource visited except the last was accepted, and a listing whose last visited resource was rejected ends without an error |
| Gateway.RejectionFetchesNoMore | cf/api/routes_test.go:50-186 | a listing that ends on a rejected resource requests no further page: appending exchanges to the script leaves the listing unchanged |
| Gateway.EmptyPageFollowsNextUrl | cf/api/routes_test.go:51-62 | a page without resources but with a next_url still leads to that URL being requested next |
| Gateway.FailedPageStops | cf/api/routes_test.go:188-223 | an exchange without a page ends the listing with that exchange's error |
| Gateway.EnumeratesAllPages | cf/api/routes_test.go:50-80 | with a visitor that accepts everything, a chain of pages is visited completely in response order, the next_urls are requested verbatim, and no error is reported |
| Routes.NormalizedPath | cf/api/routes_test.go:334-346 | a non-empty path starts with '/', the empty path stays empty, and at most one '/' is added |
| Routes.NormalizedPathIdempotent | cf/api/routes_test.go:157-162 | normalising twice is normalising once |
| Routes.UrlPathSegments | cf/api/routes_test.go:586-633 | a URL path splits back on '/' into its segments when none of them contains '/' |
| Routes.FindClauses | cf/api/routes_test.go:126-162 | host and domain_guid clauses always, one more for a path, one more for a non-zero port, and no clause contains ';' when no input does |
| Routes.FindQuery | cf/api/routes_test.go:126-162 | the q value splits on ';' back into exactly the filter clauses when no input contains ';' |
| Routes.FindUrl | cf/api/routes_test.go:126-223 | the search URL is the fixed listing prefix followed by a fully escaped q value, which unescapes to the UTF-8 bytes of the query |
| Routes.FindRequest | cf/api/routes_test.go:126-137 | the search is a GET of the search URL with the Accept header application/json and no body |
| Routes.FindResult | cf/api/routes_test.go:126-223 | a route exactly when the listing had no error and visited something, and then the first route visited; the listing's error if any; not-found when it ended cleanly with nothing visited |
| Routes.FindQueryReadsBack | cf/api/routes_test.go:126-162 | the q value reads back as host, then domain_guid, then path exactly when a path is given and with a leading '/', then port exactly when the port is not 0 |
| Routes.Find | cf/api/routes_test.go:126-186 | Find's result and requests are those of the listing of the filter URL with a stop-at-first visitor |
| Routes.FindFirstAnswer | cf/api/routes_test.go:188-223 | a 2xx page with a route gives that route after one request; a page with no route and no next_url gives not-found; an answer without a page gives its error |
| Routes.CreateRouteBody | cf/api/routes_test.go:241-484 | three fields always, plus one each for a host, a path and a non-zero port, and no field name written twice |
| Routes.CreateRouteBodyFields | cf/api/routes_test.go:241-484 | for any field name: host only when non-empty, domain_guid and space_guid always, path only when non-empty and with a leading '/', port only when not 0, generate_port always, and no other field |
| Routes.CreateInSpaceRequest | cf/api/routes_test.go:241-256 | creation is a POST to /v2/routes?inline-relations-depth=1&async=true with the Accept header application/json and the creation body |
| Routes.CreatedEntityRoundTrip | cf/api/routes_test.go:241-438 | an entity that echoes the creation body decodes to the requested route, so dropping empty fields loses nothing |
| Routes.RouteFromEntity | cf/api/routes_test.go:265-283 | the route keeps the given guid, and every field absent from the entity becomes Go's zero value ("" or 0) |
| Routes.CreatedRoute | cf/api/routes_test.go:265-391 | the created route exactly for a 2xx entity; the exchange's error otherwise, or malformed for a 2xx answer without an entity |
| Routes.CheckIfExistsUrlShape | cf/api/routes_test.go:509 | the URL is /v2/routes/reserved/domain/D/host/H, followed by ?path= and the normalised path only when a path is given |
| Routes.CheckIfExistsUrl | cf/api/routes_test.go:505-582 | the URL starts with the reserved-route path of the domain and host, and is exactly that path when no route path is given |
| Routes.CheckIfExistsRequest | cf/api/routes_test.go:505-513 | the check is a GET of the reservation URL with the Accept header application/json and no body |
| Routes.CheckIfExistsUrlReadsBack | cf/api/routes_test.go:505-582 | the path splits into the reserved, domain and host segments; with no route path the URL has no query at all, otherwise the query is exactly path= and the normalised path |
| Routes.RouteExists | cf/api/routes_test.go:505-562 | reserved exactly on 2xx, free exactly on 404, and an error for every other status or a missing server |
| Routes.AppRoutePathShape | cf/api/routes_test.go:586-614 | the binding path is /v2/apps/A/routes/R |
| Routes.AppRoutePath | cf/api/routes_test.go:586-614 | the binding path splits on '/' into v2, apps, the app, routes, the route, when neither guid contains '/' |
| Routes.BindRequest | cf/api/routes_test.go:586-599 | binding is a PUT of the app's route path, asking for JSON, with no body |
| Routes.UnbindRequest | cf/api/routes_test.go:601-614 | unbinding is a DELETE of the same path that binding PUTs, asking for JSON, with no body |
| Routes.DeleteRequest | cf/api/routes_test.go:618-633 | deleting is a DELETE asking for JSON with no body, whose path splits on '/' into v2, routes, the route, when the guid contains no '/' |
| Routes.DeletePathShape | cf/api/routes_test.go:623 | the deletion path is /v2/routes/R |
| Routes.MutationError | cf/api/routes_test.go:586-633 | Bind, Unbind and Delete report no error exactly for a 2xx answer, and otherwise the exchange's error |
| Routes.AppRoutePathIdentifies | cf/api/routes_test.go:586-614 | two bindings with the same path name the same app and route |
| Routes.DeletePathIdentifies | cf/api/routes_test.go:618-632 | two deletions with the same path name the same route |
| Routes.ListRoutesUrlShape | cf/api/routes_test.go:54 | the space listing URL is /v2/spaces/S/routes?inline-relations-depth=1 |
| Routes.ListRoutesUrl | cf/api/routes_test.go:50-80 | before the '?' is the space's routes path and after it exactly inline-relations-depth=1, when the space guid contains no '?' |
| Routes.ListAllRoutesUrl | cf/api/routes_test.go:82-113 | before the '?' is /v2/routes, and the query splits on '&' into the unescaped org filter q=organization_guid:ORG and inline-relations-depth=1 |
| Routes.ListRoutes | cf/api/routes_test.go:50-80 | lists the space's routes as Paginate specifies from the space listing URL |
| Routes.ListAllRoutes | cf/api/routes_test.go:82-113 | lists the org's routes as Paginate specifies from the org listing URL |
| RoutesFixtures.TwoPages | cf/api/routes_test.go:51-62 | two pages linked by next_url give both routes in order after exactly two requests |
| RoutesFixtures.ListRoutesTwoPages | cf/api/routes_test.go:50-80 | the test's two pages give route-1-guid (empty path) then route-2-guid (path /path-2), requesting the first URL and then page 2 |
| RoutesFixtures.ListAllRoutesTwoPages | cf/api/routes_test.go:82-113 | the same two-page enumeration from the org-wide URL |
| RoutesFixtures.FindEscapesSeparators | cf/api/routes_test.go:209 | ':' is sent as %3A and ';' as %3B |
| RoutesFixtures.FindAnswers | cf/api/routes_test.go:157-223 | a 201 page holding a route gives that route; a 200 page with no resources gives not-found |
| RoutesFixtures.CreateBodies | cf/api/routes_test.go:241-484 | the five creation bodies of the tests, and the creation URL |
| RoutesFixtures.CreateAnswers | cf/api/routes_test.go:265-391 | a 201 entity gives the created route; a server that is gone gives an error |
| RoutesFixtures.CheckIfExistsAnswers | cf/api/routes_test.go:505-562 | 204 gives true, 404 gives false, 403 gives an error |
| RoutesFixtures.MutationAnswers | cf/api/routes_test.go:586-633 | a 201 answer is no error |

## Left out

- The `sync.RWMutex` locks of the fake: the model is single-threaded, and locking changes no sequential result.
- The fake's stubs as Go closures: a getter stub is modelled as an optional constant result. The setter stubs (`SetAccessTokenStub`, `SetTokenInformationStub`) and their installers `SetAccessTokenCalls` and `SetTokenInformationCalls` are not modelled. Such a stub is an arbitrary closure that fake_config.go calls after logging (lines 499-501 and 594-596), and it may also call back into the fake, for example to change what a getter returns.
- V2ActionFakes.FakeConfig.SetAccessToken, V2ActionFakes.FakeConfig.SetTokenInformation: the ensures saying that the getters' next answers and counts are unchanged describe Go's behaviour when no setter stub is installed; with a stub the closure may change them.
- The fake's other methods (`BinaryName`, `DialTimeout`, `PollingInterval`, `RefreshToken`, `SSHOAuthClient`, `SetRefreshToken`, `SetTargetInformation`, `SetUAAClientCredentials`, `SetUAAGrantType`, `SkipSSLValidation`, `StagingTimeout`, `StartupTimeout`, `Target`, `UAAGrantType`, `UnsetOrganizationAndSpaceInformation`, `UnsetSpaceInformation`): they repeat the pattern of `AccessToken` and `SetAccessToken` with other field names.
- V2ActionFakes.FakeConfig.Invocations: Dafny maps are values, so the model does not show that Go's copy shares the inner argument slices with the fake. Adding or removing keys in the result cannot touch the fake, in Go or in the model.
- The invocation record holds argument lists of strings. Go's `[]interface{}` can hold any value, but in the modelled subset every argument is a string.
- A nil map and an empty map are not distinguished. Every read gives the same answer for both.
- V2ActionFakes.FakeConfig.SetAccessTokenArgsForCall and SetTokenInformationArgsForCall require an index that has a call; Go panics on any other index.
- `cf/api/routes.go` is not part of this model. The repository's behaviour is taken from its tests, so code paths those tests do not reach are not modelled.
- JSON parsing of response bodies: a page is already decoded into its next_url and routes, and an entity into a route. `RouteFromEntity` models only how the fields of the creation body are read back.
- A route's domain, space and service-instance records: a route carries the domain and space GUIDs only. The `ServiceInstance` fields asserted at lines 74-75 and 106-107 are not modelled.
- HTTP itself: sockets, TLS, timeouts, the API endpoint's host, token refresh and 401 retries, headers other than `Accept: application/json`, the details carried by an HTTP error, and the bodies of error responses.
- The test server's own checks (all handlers called, request counts) become the list of requested URLs that the listing returns.
- `src/cf/commands/user/set_org_role_test.go` and `src/cf/requirements/service_instance_test.go` are not part of this model: they exercise a command and a requirement, not the route repository or the fake.
- Routes.FindQueryReadsBack, Routes.CheckIfExistsUrlShape: these state the `Find` query and the reservation URL for every input, as clauses that read back and as a URL shape over the parameters. The tests' literal URLs are not restated character by character, because the solver finds such long literal equalities too costly.
