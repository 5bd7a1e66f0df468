/**
 * `SliceRoute`: a slice that hands a request to an ordered list of route
 * paths and answers with the response of the first path that produces one,
 * or with 404 "not found" when none does.
 */
module Routing {
  import opened Wrappers
  import opened Http
  import Search

  /** A request as a slice receives it: the request line, the headers and the body chunks. */
  datatype Request = Request(line: string, headers: Headers, body: seq<seq<byte>>)

  /** `SliceRoute.Path`: a response if the path's routing rule accepts the request. */
  type Path = Request -> Option<Response>

  /**
   * The routing slice. The varargs constructor and the list constructor both
   * keep the paths in the order given, so both are this one constructor.
   */
  datatype SliceRoute = SliceRoute(routes: seq<Path>)

  /** The fallback: status 404 with the UTF-8 body "not found" and no headers. */
  const NOT_FOUND_RESPONSE: Response := Response(NOT_FOUND, [], Utf8Ascii("not found"))

  /** The filter applied to each path's result: is a response present? */
  function Answers(req: Request): Path -> bool {
    (path: Path) => path(req).Some?
  }

  /** `SliceRoute.response(line, headers, body)`. */
  function Respond(route: SliceRoute, req: Request): (rsp: Response)
    ensures forall k :: 0 <= k < |route.routes| && route.routes[k](req).Some?
                     && (forall j :: 0 <= j < k ==> route.routes[j](req).None?)
                     ==> rsp == route.routes[k](req).value
    ensures (forall k :: 0 <= k < |route.routes| ==> route.routes[k](req).None?)
            ==> rsp == NOT_FOUND_RESPONSE
  {
    match Search.FirstIndex(route.routes, Answers(req))
    case Some(k) => route.routes[k](req).value
    case None => NOT_FOUND_RESPONSE
  }

  /**
   * How many paths `response` invokes: the lazy stream stops after the first
   * path that answers, so it is that path's position plus one, or every path
   * when none answers.
   */
  function Invoked(route: SliceRoute, req: Request): (n: nat)
    ensures n <= |route.routes|
    ensures forall j :: 0 <= j < n - 1 ==> route.routes[j](req).None?
    ensures n < |route.routes| ==> n > 0 && route.routes[n - 1](req).Some?
    ensures (exists k :: 0 <= k < |route.routes| && route.routes[k](req).Some?)
            ==> n > 0 && route.routes[n - 1](req).Some?
  {
    match Search.FirstIndex(route.routes, Answers(req))
    case Some(k) => k + 1
    case None => |route.routes|
  }

  /**
   * The response is the one the last invoked path gave, or the fallback:
   * nothing produced by a path that was not invoked can reach the caller.
   */
  lemma RespondUsesLastInvoked(route: SliceRoute, req: Request)
    ensures var n := Invoked(route, req);
      Respond(route, req) == if n > 0 && route.routes[n - 1](req).Some?
                             then route.routes[n - 1](req).value
                             else NOT_FOUND_RESPONSE
  {
  }

  /**
   * Paths after the first one that answers are never invoked and cannot
   * override it: tables that agree on their invoked prefix respond alike,
   * whatever later paths they hold.
   */
  lemma LaterPathsIgnored(route: SliceRoute, other: SliceRoute, req: Request)
    requires exists k :: 0 <= k < |route.routes| && route.routes[k](req).Some?
    requires Invoked(route, req) <= |other.routes|
    requires route.routes[..Invoked(route, req)] == other.routes[..Invoked(route, req)]
    ensures Invoked(other, req) == Invoked(route, req)
    ensures Respond(other, req) == Respond(route, req)
  {
    var k := Invoked(route, req) - 1;
    Search.FirstIndexIgnoresSuffix(route.routes, other.routes, Answers(req), k);
  }

  /** With no paths at all, the answer is the fallback and no path is invoked. */
  lemma EmptyTableNotFound(req: Request)
    ensures Respond(SliceRoute([]), req) == NOT_FOUND_RESPONSE
    ensures Invoked(SliceRoute([]), req) == 0
  {
  }

  /** The fallback's body is the nine bytes of "not found" in UTF-8. */
  lemma NotFoundBody()
    ensures NOT_FOUND_RESPONSE.body == [0x6E, 0x6F, 0x74, 0x20, 0x66, 0x6F, 0x75, 0x6E, 0x64]
    ensures NOT_FOUND_RESPONSE.status.code == "404" && NOT_FOUND_RESPONSE.headers == []
  {
  }
}
