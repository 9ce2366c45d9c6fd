/** The request dispatch of `HTTPServer`: handler registration through the
    `AddMethodCallback` overloads, the lookup through the URI mapping, and
    `ProcessBoomerang`'s fallback chain from a matching route to the default
    notification handler to a fixed 500 response.

    The URI mapping is not part of this model: its matching is the parameter
    `matcher`, a function of the registrations and the lookup key. */
module HttpServer {
  import opened Wrappers

  const DefaultServerNameText := "Hermod HTTP Server v0.9"

  datatype HttpMethod = HttpMethod(name: string)
  const GET := HttpMethod("GET")

  datatype ContentType = ContentType(mediaType: string, charset: string)
  const TEXT_UTF8 := ContentType("text/plain", "utf-8")

  /** The parts of a request the dispatch looks at. */
  datatype Request = Request(host: string, urlPath: string, httpMethod: HttpMethod,
                             bestMatchingAcceptType: Option<ContentType>, body: string)

  /** A response as the `HTTPResponseBuilder` sets it up. */
  datatype Response = Response(status: nat, contentType: Option<ContentType>, content: string,
                               server: Option<string>, connection: Option<string>)

  const InternalServerError := 500
  const Error500Text := "Error 500 - Internal Server Error!"

  /** An `HTTPDelegate`: the request and the template values in, a response out. */
  type HttpDelegate = (Request, seq<string>) -> Response

  /** The `OnNotification` event: connection id, timestamp and request in. */
  type NotificationHandler = (string, int, Request) -> Response

  datatype Authentication = Authentication(name: string)

  /** What a registration calls: a delegate (possibly `null`) or a reflected
      method, named. */
  datatype HandlerRef = Delegate(f: Option<HttpDelegate>) | Reflected(methodName: string)

  /** One `URIMapping.AddHandler` call, with every argument it was given. */
  datatype Registration = Registration(
    handler: HandlerRef,
    hosts: seq<string>,
    uriTemplate: string,
    httpMethod: Option<HttpMethod>,
    contentType: Option<ContentType>,
    hostAuthentication: Option<Authentication>,
    uriAuthentication: bool,
    methodAuthentication: bool,
    contentTypeAuthentication: bool)

  datatype Server = Server(defaultServerName: Option<string>, registrations: seq<Registration>,
                           onNotification: Option<NotificationHandler>)

  /** The route lookup: registrations and (host, URL, method, content type) to the
      best matching delegate and the values its template bound, if any. */
  type Matcher = (seq<Registration>, string, string, Option<HttpMethod>, Option<ContentType>)
                 -> Option<(HttpDelegate, seq<string>)>

  // ----- Construction -----

  /** `new HTTPServer(..., DefaultServername, ...)`: the constructor assigns the
      property to its own backing field instead of the parameter, so the name is
      `null` whatever was passed. */
  function NewServer(defaultServername: string := DefaultServerNameText): (r: Server)
    ensures r.defaultServerName == None
    ensures r.registrations == [] && r.onNotification == None
  {
    Server(None, [], None)
  }

  /** The constructor as evidently meant: the parameter becomes the name. */
  function IntendedNewServer(defaultServername: string := DefaultServerNameText): (r: Server)
    ensures r.defaultServerName == Some(defaultServername)
    ensures r.registrations == [] && r.onNotification == None
  {
    Server(Some(defaultServername), [], None)
  }

  /** Whatever name is passed, the constructor as written loses it, where the
      intended one keeps it; with no argument the default name is lost. */
  lemma ConstructorLosesName(name: string)
    ensures NewServer(name).defaultServerName == None
    ensures IntendedNewServer(name).defaultServerName == Some(name)
    ensures NewServer().defaultServerName != IntendedNewServer().defaultServerName
  {
  }

  // ----- Registration -----

  /** `AddMethodCallback(Hostname = "*", HTTPMethod = null, URITemplate = "/", ...,
      HTTPDelegate = null)`: a `null` method is registered as GET. */
  function AddMethodCallback(srv: Server, hostname: string := "*", httpMethod: Option<HttpMethod> := None,
                             uriTemplate: string := "/", contentType: Option<ContentType> := None,
                             hostAuthentication: Option<Authentication> := None,
                             uriAuthentication: bool := false, methodAuthentication: bool := false,
                             contentTypeAuthentication: bool := false,
                             handler: Option<HttpDelegate> := None): (r: Server)
    ensures r.defaultServerName == srv.defaultServerName && r.onNotification == srv.onNotification
    ensures |r.registrations| == |srv.registrations| + 1
    ensures r.registrations[..|srv.registrations|] == srv.registrations
    ensures var reg := r.registrations[|srv.registrations|];
            && reg.handler == Delegate(handler) && reg.hosts == [hostname] && reg.uriTemplate == uriTemplate
            && reg.httpMethod.Some?
            && (httpMethod.Some? ==> reg.httpMethod == httpMethod)
            && (httpMethod.None? ==> reg.httpMethod == Some(GET))
            && reg.contentType == contentType && reg.hostAuthentication == hostAuthentication
            && reg.uriAuthentication == uriAuthentication && reg.methodAuthentication == methodAuthentication
            && reg.contentTypeAuthentication == contentTypeAuthentication
  {
    var reg := Registration(Delegate(handler), [hostname], uriTemplate, Some(httpMethod.GetOr(GET)), contentType,
                            hostAuthentication, uriAuthentication, methodAuthentication, contentTypeAuthentication);
    assert (srv.registrations + [reg])[..|srv.registrations|] == srv.registrations;
    srv.(registrations := srv.registrations + [reg])
  }

  /** `AddMethodCallback(MethodHandler, Hostname, URITemplate, HTTPMethod, ...)`:
      everything is forwarded as given, a `null` method included. */
  function AddReflectedCallback(srv: Server, methodHandler: string, hostname: string, uriTemplate: string,
                                httpMethod: Option<HttpMethod>, contentType: Option<ContentType> := None,
                                hostAuthentication: Option<Authentication> := None,
                                uriAuthentication: bool := false, methodAuthentication: bool := false,
                                contentTypeAuthentication: bool := false): (r: Server)
    ensures r.defaultServerName == srv.defaultServerName && r.onNotification == srv.onNotification
    ensures |r.registrations| == |srv.registrations| + 1
    ensures r.registrations[..|srv.registrations|] == srv.registrations
    ensures var reg := r.registrations[|srv.registrations|];
            && reg.handler == Reflected(methodHandler) && reg.hosts == [hostname]
            && reg.uriTemplate == uriTemplate && reg.httpMethod == httpMethod
            && reg.contentType == contentType && reg.hostAuthentication == hostAuthentication
            && reg.uriAuthentication == uriAuthentication && reg.methodAuthentication == methodAuthentication
            && reg.contentTypeAuthentication == contentTypeAuthentication
  {
    AddReflectedCallbackHosts(srv, methodHandler, [hostname], uriTemplate, httpMethod, contentType,
                              hostAuthentication, uriAuthentication, methodAuthentication, contentTypeAuthentication)
  }

  /** The overload taking several host names. */
  function AddReflectedCallbackHosts(srv: Server, methodHandler: string, hostnames: seq<string>, uriTemplate: string,
                                     httpMethod: Option<HttpMethod>, contentType: Option<ContentType> := None,
                                     hostAuthentication: Option<Authentication> := None,
                                     uriAuthentication: bool := false, methodAuthentication: bool := false,
                                     contentTypeAuthentication: bool := false): (r: Server)
    ensures r.defaultServerName == srv.defaultServerName && r.onNotification == srv.onNotification
    ensures |r.registrations| == |srv.registrations| + 1
    ensures r.registrations[..|srv.registrations|] == srv.registrations
    ensures var reg := r.registrations[|srv.registrations|];
            && reg.handler == Reflected(methodHandler) && reg.hosts == hostnames
            && reg.uriTemplate == uriTemplate && reg.httpMethod == httpMethod
            && reg.contentType == contentType && reg.hostAuthentication == hostAuthentication
            && reg.uriAuthentication == uriAuthentication && reg.methodAuthentication == methodAuthentication
            && reg.contentTypeAuthentication == contentTypeAuthentication
  {
    var reg := Registration(Reflected(methodHandler), hostnames, uriTemplate, httpMethod, contentType,
                            hostAuthentication, uriAuthentication, methodAuthentication, contentTypeAuthentication);
    assert (srv.registrations + [reg])[..|srv.registrations|] == srv.registrations;
    srv.(registrations := srv.registrations + [reg])
  }

  /** The delegate and the reflected single-host overloads register the same
      route for the same arguments and a given method: the registrations differ
      in the handler alone. */
  lemma OverloadsAgree(srv: Server, f: Option<HttpDelegate>, name: string, host: string, template: string,
                       m: HttpMethod, contentType: Option<ContentType>, hostAuthentication: Option<Authentication>,
                       uriAuthentication: bool, methodAuthentication: bool, contentTypeAuthentication: bool)
    ensures var a := AddMethodCallback(srv, host, Some(m), template, contentType, hostAuthentication,
                                       uriAuthentication, methodAuthentication, contentTypeAuthentication, f);
            var b := AddReflectedCallback(srv, name, host, template, Some(m), contentType, hostAuthentication,
                                          uriAuthentication, methodAuthentication, contentTypeAuthentication);
            var n := |srv.registrations|;
            && |a.registrations| == |b.registrations|
            && a.registrations[..n] == b.registrations[..n]
            && a.registrations[n] == b.registrations[n].(handler := Delegate(f))
            && a.defaultServerName == b.defaultServerName && a.onNotification == b.onNotification
  {
  }

  /** The delegate overload never registers a missing method, the reflected ones
      keep it missing: the same call differs only there. */
  lemma MethodDefaults(srv: Server, f: HttpDelegate, name: string, host: string, template: string)
    ensures AddMethodCallback(srv, host, None, template, handler := Some(f)).registrations[|srv.registrations|].httpMethod
            == Some(GET)
    ensures AddReflectedCallback(srv, name, host, template, None).registrations[|srv.registrations|].httpMethod
            == None
    ensures AddMethodCallback(srv, handler := Some(f)).registrations[|srv.registrations|].hosts == ["*"]
    ensures AddMethodCallback(srv, handler := Some(f)).registrations[|srv.registrations|].uriTemplate == "/"
  {
  }

  // ----- Dispatch -----

  /** `GetHandler(Host, URL, HTTPMethod, HTTPContentType)`: the mapping's answer,
      passed through unchanged. */
  function GetHandler(srv: Server, matcher: Matcher, host: string, url: string,
                      httpMethod: Option<HttpMethod>, contentType: Option<ContentType>): (r: Option<(HttpDelegate, seq<string>)>)
    ensures r == matcher(srv.registrations, host, url, httpMethod, contentType)
  {
    matcher(srv.registrations, host, url, httpMethod, contentType)
  }

  /** The fixed answer when neither a route nor a default handler is there. */
  function Fallback(): (r: Response)
    ensures r.status == InternalServerError && r.contentType == Some(TEXT_UTF8)
    ensures r.content == Error500Text
    ensures r.server == Some("Hermod") && r.connection == Some("close")
  {
    Response(InternalServerError, Some(TEXT_UTF8), Error500Text, Some("Hermod"), Some("close"))
  }

  /** Where a request's response comes from. */
  datatype Source = MatchedRoute | DefaultHandler | ServerError

  /** The lookup key is the request's host, URL path, method and best matching
      accept type. */
  function Lookup(srv: Server, matcher: Matcher, request: Request): Option<(HttpDelegate, seq<string>)> {
    GetHandler(srv, matcher, request.host, request.urlPath, Some(request.httpMethod), request.bestMatchingAcceptType)
  }

  /** Which of the three outcomes `ProcessBoomerang` takes: a route when the lookup
      finds one, else the default handler when one is registered, else the error. */
  function SourceOf(srv: Server, matcher: Matcher, request: Request): (r: Source)
    ensures r == MatchedRoute <==> Lookup(srv, matcher, request).Some?
    ensures r == DefaultHandler <==> Lookup(srv, matcher, request).None? && srv.onNotification.Some?
    ensures r == ServerError <==> Lookup(srv, matcher, request).None? && srv.onNotification.None?
  {
    if Lookup(srv, matcher, request).Some? then MatchedRoute
    else if srv.onNotification.Some? then DefaultHandler
    else ServerError
  }

  /** `ProcessBoomerang(ConnectionId, Timestamp, HTTPRequest)`. */
  function ProcessBoomerang(srv: Server, matcher: Matcher, connectionId: string, timestamp: int,
                            request: Request): (r: Response)
    ensures Lookup(srv, matcher, request).Some? ==> r == Lookup(srv, matcher, request).value.0(request, [])
    ensures Lookup(srv, matcher, request).None? && srv.onNotification.Some?
            ==> r == srv.onNotification.value(connectionId, timestamp, request)
    ensures SourceOf(srv, matcher, request) == ServerError ==> r == Fallback() && r.status == InternalServerError
  {
    match Lookup(srv, matcher, request)
    case Some(found) => found.0(request, [])
    case None =>
      match srv.onNotification
      case Some(notify) => notify(connectionId, timestamp, request)
      case None => Fallback()
  }

  /** Every request gets exactly one of the three responses: the matched delegate
      called with no template values, the default handler's, or the 500. This
      states the shape of the model: it re-expresses `ProcessBoomerang`'s three
      ensures clauses by the branch `SourceOf` names, so that callers can reason
      by a single case split. */
  lemma ExactlyOneOutcome(srv: Server, matcher: Matcher, connectionId: string, timestamp: int, request: Request)
    ensures var r := ProcessBoomerang(srv, matcher, connectionId, timestamp, request);
            match SourceOf(srv, matcher, request)
            case MatchedRoute => r == Lookup(srv, matcher, request).value.0(request, [])
            case DefaultHandler => r == srv.onNotification.value(connectionId, timestamp, request)
            case ServerError => r == Fallback() && r.status == InternalServerError
  {
  }

  /** The values a matched template binds never reach the delegate: two mappings
      that find the same delegate give the same response. */
  lemma TemplateValuesDiscarded(srv: Server, m1: Matcher, m2: Matcher, f: HttpDelegate,
                                vs1: seq<string>, vs2: seq<string>,
                                connectionId: string, timestamp: int, request: Request)
    requires Lookup(srv, m1, request) == Some((f, vs1))
    requires Lookup(srv, m2, request) == Some((f, vs2))
    ensures ProcessBoomerang(srv, m1, connectionId, timestamp, request)
            == ProcessBoomerang(srv, m2, connectionId, timestamp, request)
    ensures ProcessBoomerang(srv, m1, connectionId, timestamp, request) == f(request, [])
  {
  }

  /** A matching route shadows the default handler: registering one or not makes
      no difference to a request the mapping resolves. */
  lemma RouteShadowsDefault(srv: Server, matcher: Matcher, notify: NotificationHandler,
                            connectionId: string, timestamp: int, request: Request)
    requires Lookup(srv, matcher, request).Some?
    ensures ProcessBoomerang(srv.(onNotification := Some(notify)), matcher, connectionId, timestamp, request)
            == ProcessBoomerang(srv.(onNotification := None), matcher, connectionId, timestamp, request)
  {
    assert Lookup(srv.(onNotification := Some(notify)), matcher, request) == Lookup(srv, matcher, request);
    assert Lookup(srv.(onNotification := None), matcher, request) == Lookup(srv, matcher, request);
  }

  /** Only the lookup key matters for the choice: requests that agree on host,
      URL path, method and accept type take the same branch. */
  lemma KeyDecidesSource(srv: Server, matcher: Matcher, r1: Request, r2: Request)
    requires r1.host == r2.host && r1.urlPath == r2.urlPath && r1.httpMethod == r2.httpMethod
    requires r1.bestMatchingAcceptType == r2.bestMatchingAcceptType
    ensures SourceOf(srv, matcher, r1) == SourceOf(srv, matcher, r2)
  {
  }

  /** A fresh server with no routes and no default handler answers everything
      with the 500, whatever the mapping would make of an empty table. */
  lemma FreshServerFails(matcher: Matcher, connectionId: string, timestamp: int, request: Request)
    requires forall h, u, m, c :: matcher([], h, u, m, c) == None
    ensures ProcessBoomerang(NewServer(), matcher, connectionId, timestamp, request) == Fallback()
  {
  }
}
