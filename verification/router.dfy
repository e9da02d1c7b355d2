/** `SimpleRoute\Router` (src/SimpleRoute/Router.php) as an immutable value:
    every setter and registration call returns the updated router instead of
    `$this`, and `execute` returns the updated router together with the
    dispatch outcome.

    The constructor's reads of `$_SERVER` become the explicit
    `ServerRequest` argument, the regular-expression engine is the `Matcher`
    argument, and handlers are opaque ids. `getMethod` and `getUrl` are the
    `verb` and `url` fields. */
module SimpleRoute {
  import opened Optional
  import opened PhpString
  import opened Paths
  import opened Matching
  import opened Dispatch
  import opened Sequences
  import RT = RouteTable
  import OM = OrderedMap

  /** The request variables the constructor consults: `REQUEST_METHOD`,
      `HTTP_X_HTTP_METHOD_OVERRIDE` and `HTTP_X_HTTP_METHOD`, each `None`
      when not set. */
  datatype ServerRequest = ServerRequest(
    requestMethod: Option<string>,
    methodOverride: Option<string>,
    httpMethod: Option<string>)

  datatype Router = Router(routes: RT.Table, verb: string, url: string)

  /** The router after `execute`, which stores the normalised URL back into
      the object, and what `execute` did. */
  datatype Executed = Executed(router: Router, outcome: Outcome)

  /** The constructor's method resolution (lines 78-91): `get` without a
      request method; otherwise the lower-cased request method, except that
      a POST takes the override header when present, else the X-HTTP-Method
      header when present. */
  function ResolveMethod(req: ServerRequest): (m: string)
    ensures IsLowerCase(m)
    ensures req.requestMethod.None? ==> m == "get"
    ensures req.requestMethod.Some? && Lower(req.requestMethod.value) != "post" ==>
              m == Lower(req.requestMethod.value)
    ensures req.requestMethod.Some? && Lower(req.requestMethod.value) == "post" ==>
              m == Lower(if req.methodOverride.Some? then req.methodOverride.value
                         else req.httpMethod.ValueOr("post"))
  {
    match req.requestMethod
    case None => "get"
    case Some(rm) =>
      var lm := Lower(rm);
      if lm == "post" && req.methodOverride.Some? then Lower(req.methodOverride.value)
      else if lm == "post" && req.httpMethod.Some? then Lower(req.httpMethod.value)
      else lm
  }

  /** `new Router($url = '')` (lines 68-92): the eight default methods with
      no routes, the method resolved from the request, and the URL with the
      trailing-slash rule applied. */
  function New(req: ServerRequest, url: string := ""): (r: Router)
    ensures OM.Keys(r.routes) == RT.DefaultMethods
    ensures forall i :: 0 <= i < |r.routes| ==> r.routes[i].value == []
    ensures r.verb == ResolveMethod(req)
    // A consequence of the clause above and `ResolveMethod`'s contract,
    // kept for readers of the constructor alone.
    ensures IsLowerCase(r.verb) && (req.requestMethod.None? ==> r.verb == "get")
    ensures url <= r.url && |r.url| <= |url| + 1
    ensures !IsFalsy(url) ==> EndsWithSlash(r.url)
    ensures r.url == url <==> IsFalsy(url) || EndsWithSlash(url)
  {
    Router(RT.Empty(), ResolveMethod(req), AppendTrailingSlash(url))
  }

  /** `setMethod` (lines 101-105). */
  function SetMethod(r: Router, verb: string): (r': Router)
    ensures IsLowerCase(r'.verb)
    ensures r'.routes == r.routes && r'.url == r.url
  {
    r.(verb := Lower(verb))
  }

  /** `setUrl` (lines 124-134): the URL with the trailing-slash rule
      applied, as in the constructor. */
  function SetUrl(r: Router, url: string): (r': Router)
    ensures r'.routes == r.routes && r'.verb == r.verb
    ensures url <= r'.url && |r'.url| <= |url| + 1
    ensures !IsFalsy(url) ==> EndsWithSlash(r'.url)
    ensures r'.url == url <==> IsFalsy(url) || EndsWithSlash(url)
  {
    r.(url := AppendTrailingSlash(url))
  }

  /** `add` (lines 155-165): the handler is stored under the lower-cased
      method and the slash-normalised route. */
  function Add(r: Router, route: string, handler: RT.HandlerId, kind: string := "any"): (r': Router)
    ensures r'.verb == r.verb && r'.url == r.url
    ensures OM.HasKey(r'.routes, Lower(kind))
    ensures RT.Lookup(r'.routes, Lower(kind), AppendTrailingSlash(route)) == Some(handler)
  {
    r.(routes := RT.Add(r.routes, route, handler, kind))
  }

  /** `get($route, $callable)` (lines 174-177): `add` under `get`. */
  function Get(r: Router, route: string, handler: RT.HandlerId): (r': Router)
    ensures r'.verb == r.verb && r'.url == r.url
    ensures RT.Lookup(r'.routes, "get", AppendTrailingSlash(route)) == Some(handler)
  {
    LowerFixesLowerCase("get");
    Add(r, route, handler, "get")
  }

  /** `post($route, $callable)` (lines 186-189): `add` under `post`. */
  function Post(r: Router, route: string, handler: RT.HandlerId): (r': Router)
    ensures r'.verb == r.verb && r'.url == r.url
    ensures RT.Lookup(r'.routes, "post", AppendTrailingSlash(route)) == Some(handler)
  {
    LowerFixesLowerCase("post");
    Add(r, route, handler, "post")
  }

  /** `put($route, $callable)` (lines 198-201): `add` under `put`. */
  function Put(r: Router, route: string, handler: RT.HandlerId): (r': Router)
    ensures r'.verb == r.verb && r'.url == r.url
    ensures RT.Lookup(r'.routes, "put", AppendTrailingSlash(route)) == Some(handler)
  {
    LowerFixesLowerCase("put");
    Add(r, route, handler, "put")
  }

  /** `delete($route, $callable)` (lines 210-213): `add` under `delete`. */
  function Delete(r: Router, route: string, handler: RT.HandlerId): (r': Router)
    ensures r'.verb == r.verb && r'.url == r.url
    ensures RT.Lookup(r'.routes, "delete", AppendTrailingSlash(route)) == Some(handler)
  {
    LowerFixesLowerCase("delete");
    Add(r, route, handler, "delete")
  }

  /** `head($route, $callable)` (lines 222-225): `add` under `head`. */
  function Head(r: Router, route: string, handler: RT.HandlerId): (r': Router)
    ensures r'.verb == r.verb && r'.url == r.url
    ensures RT.Lookup(r'.routes, "head", AppendTrailingSlash(route)) == Some(handler)
  {
    LowerFixesLowerCase("head");
    Add(r, route, handler, "head")
  }

  /** `options($route, $callable)` (lines 234-237): `add` under `options`. */
  function Options(r: Router, route: string, handler: RT.HandlerId): (r': Router)
    ensures r'.verb == r.verb && r'.url == r.url
    ensures RT.Lookup(r'.routes, "options", AppendTrailingSlash(route)) == Some(handler)
  {
    LowerFixesLowerCase("options");
    Add(r, route, handler, "options")
  }

  /** `patch($route, $callable)` (lines 246-249): `add` under `patch`. */
  function Patch(r: Router, route: string, handler: RT.HandlerId): (r': Router)
    ensures r'.verb == r.verb && r'.url == r.url
    ensures RT.Lookup(r'.routes, "patch", AppendTrailingSlash(route)) == Some(handler)
  {
    LowerFixesLowerCase("patch");
    Add(r, route, handler, "patch")
  }

  /** `remove` (lines 259-265): the exact, unnormalised (method, route) key
      is gone and no method name is added or dropped. */
  function Remove(r: Router, route: string, kind: string := "any"): (r': Router)
    ensures r'.verb == r.verb && r'.url == r.url
    ensures RT.Lookup(r'.routes, kind, route) == None
    ensures OM.Keys(r'.routes) == OM.Keys(r.routes)
  {
    r.(routes := RT.Remove(r.routes, route, kind))
  }

  /** `getMethodsByRoute` (lines 275-303): the methods of the router, in
      table order and each once, one of whose routes equals or fully matches
      the argument; none for a falsy argument. */
  function GetMethodsByRoute(r: Router, route: string, matcher: Matcher): (ms: seq<string>)
    ensures IsFalsy(route) ==> ms == []
    ensures IsSubsequence(ms, OM.Keys(r.routes))
    ensures RT.WellFormed(r.routes) ==>
              forall v :: v in ms <==> !IsFalsy(route) && OM.HasKey(r.routes, v) && RT.Serves(RT.RoutesOf(r.routes, v), route, matcher)
    ensures OM.UniqueKeys(r.routes) ==> NoDuplicates(ms)
  {
    RT.MethodsByRoute(r.routes, route, matcher)
  }

  /** `execute` (lines 312-363): normalise the stored URL, then dispatch on
      it. */
  function Execute(r: Router, matcher: Matcher): (e: Executed)
    ensures e.router.url == RequestPath(r.url) && StartsWithSlash(e.router.url)
    ensures e.router.routes == r.routes && e.router.verb == r.verb
    ensures e.outcome == Resolve(r.routes, r.verb, e.router.url, matcher)
  {
    var path := RequestPath(r.url);
    Executed(r.(url := path), Resolve(r.routes, r.verb, path, matcher))
  }

  // ---------------------------------------------------------------------
  // Method resolution.
  // ---------------------------------------------------------------------

  /** The request method is compared case-insensitively, the override
      headers matter only for POST, and the override header shadows the
      X-HTTP-Method header. */
  lemma MethodResolution(rm: string, o1: Option<string>, x1: Option<string>, o2: Option<string>, x2: Option<string>)
    ensures ResolveMethod(ServerRequest(Some(rm), o1, x1)) == ResolveMethod(ServerRequest(Some(Lower(rm)), o1, x1))
    ensures Lower(rm) != "post" ==>
              ResolveMethod(ServerRequest(Some(rm), o1, x1)) == ResolveMethod(ServerRequest(Some(rm), o2, x2))
    ensures o1.Some? ==>
              ResolveMethod(ServerRequest(Some(rm), o1, x1)) == ResolveMethod(ServerRequest(Some(rm), o1, x2))
  {
    LowerIdempotent(rm);
  }

  /** `setMethod` stores the same method whatever the case of its argument,
      and a method already lower-case is stored verbatim. */
  lemma SetMethodLowerCases(r: Router, verb: string)
    ensures SetMethod(r, verb) == SetMethod(r, Lower(verb))
    ensures IsLowerCase(verb) ==> SetMethod(r, verb).verb == verb
  {
    LowerIdempotent(verb);
    if IsLowerCase(verb) {
      LowerFixesLowerCase(verb);
    }
  }

  // ---------------------------------------------------------------------
  // Registration.
  // ---------------------------------------------------------------------

  /** Adding under a method name that is already lower-case stores the
      route under that very name. */
  lemma StoredUnderVerb(r: Router, route: string, h: RT.HandlerId, verb: string)
    requires IsLowerCase(verb)
    ensures RT.Lookup(Add(r, route, h, verb).routes, verb, AppendTrailingSlash(route)) == Some(h)
  {
    LowerFixesLowerCase(verb);
  }

  // ---------------------------------------------------------------------
  // Execution.
  // ---------------------------------------------------------------------

  /** A newly constructed router has no fallback route, so `execute` throws
      whatever the URL and the request. */
  lemma FreshRouterFails(url: string, req: ServerRequest, matcher: Matcher)
    ensures Execute(New(req, url), matcher).outcome == NoFallbackError
  {
    var t := RT.Empty();
    forall v ensures RT.RoutesOf(t, v) == [] {
      match OM.Get(t, v)
      case Some(rs) =>
        assert OM.Entry(v, rs) in t;
      case None =>
    }
  }

  /** `execute` leaves its URL in normal form, so a second `execute` on the
      resulting router dispatches identically and stores the same URL. */
  lemma ExecuteRepeatable(r: Router, matcher: Matcher)
    ensures Execute(Execute(r, matcher).router, matcher) == Execute(r, matcher)
  {
    RequestPathIdempotent(r.url);
  }

  /** A route added under a method is reached by setting that method and
      setting the URL to the same string, and its handler is called with no
      arguments, whatever else is registered and whatever the matcher. */
  lemma AddThenExecute(r: Router, route: string, h: RT.HandlerId, kind: string, matcher: Matcher)
    requires !IsFalsy(route) && StartsWithSlash(route)
    ensures Execute(SetUrl(SetMethod(Add(r, route, h, kind), kind), route), matcher).outcome == Call(h, [])
  {
    SetUrlAgreesWithAdd(route);
    ResolvePriority(RT.Add(r.routes, route, h, kind), Lower(kind), AppendTrailingSlash(route), matcher);
  }
}
