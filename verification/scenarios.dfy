/** Concrete uses of the router: the two unit tests in Test/RouterTest.php,
    and the routes of Example/index.php dispatched under stated assumptions
    about what the regular-expression engine does on them. */
module Scenarios {
  import opened Optional
  import opened PhpString
  import opened Paths
  import opened Matching
  import opened Dispatch
  import opened SimpleRoute
  import RT = RouteTable
  import OM = OrderedMap

  /** A router built outside a web request: `$_SERVER` has none of the
      method variables, so the method is `get`. */
  const NoRequest := ServerRequest(None, None, None)

  /** `testCanNotExecuteWhenNoEmptyRouteIsSet`: `execute` on a new router
      throws. */
  lemma CannotExecuteWithoutEmptyRoute(matcher: Matcher)
    ensures Execute(New(NoRequest), matcher).outcome == NoFallbackError
  {
    FreshRouterFails("", NoRequest, matcher);
  }

  /** `testCanExecute`: with the empty route and `/test` registered for any
      method, `setUrl('/test')` makes `execute` call the `/test` handler
      with no arguments, whatever the matcher does. */
  lemma CanExecute(matcher: Matcher)
    ensures var r := SetUrl(Add(Add(New(NoRequest), "", 0), "/test", 1), "/test");
            Execute(r, matcher).outcome == Call(1, [])
  {
    var t := RT.Add(RT.Add(RT.Empty(), "", 0), "/test", 1);
    TestTable();
    TestLookups(t, "/test/");
    assert RequestPath(AppendTrailingSlash("/test")) == "/test/" by {
      TestKey();
      SetUrlAgreesWithAdd("/test");
    }
    ResolvePriority(t, "get", "/test/", matcher);
  }

  /** The router of `testCanExecute` has no fallback: `add('')` stores the
      key `''`, which `execute` never looks up, so any other URL on which
      neither stored pattern fully matches makes `execute` throw. */
  lemma EmptyRouteIsNoFallback(matcher: Matcher, url: string)
    requires var p := RequestPath(AppendTrailingSlash(url));
             p != "/test/" && !FullMatch(matcher, "", p) && !FullMatch(matcher, "/test/", p)
    ensures var r := SetUrl(Add(Add(New(NoRequest), "", 0), "/test", 1), url);
            Execute(r, matcher).outcome == NoFallbackError
  {
    var t := RT.Add(RT.Add(RT.Empty(), "", 0), "/test", 1);
    var p := RequestPath(AppendTrailingSlash(url));
    TestTable();
    RequestPathNotEmpty(AppendTrailingSlash(url));
    TestLookups(t, p);
    TestLookups(t, "/");
    var c := Candidates(t, "get");
    assert c == [] + [OM.Entry("", 0), OM.Entry("/test/", 1)];
    assert c[0].key == "" && c[1].key == "/test/";
    NoFallbackErrorIff(t, "get", p, matcher);
  }

  /** The table `testCanExecute` builds: `''` and `/test/` under `any`, in
      that order, and nothing under `get`. */
  lemma TestTable()
    ensures var t := RT.Add(RT.Add(RT.Empty(), "", 0), "/test", 1);
            RT.RoutesOf(t, "get") == [] && RT.RoutesOf(t, "any") == [OM.Entry("", 0), OM.Entry("/test/", 1)]
  {
    assert IsLowerCase("any");
    TestKey();
    assert AppendTrailingSlash("") != AppendTrailingSlash("/test");
    EmptyHasNoRoutes("get");
    EmptyHasNoRoutes("any");
    AddTwoUnderOneVerb(RT.Empty(), "", 0, "/test", 1, "any");
  }

  /** Lookups in the table of `testCanExecute`. */
  lemma TestLookups(t: RT.Table, p: string)
    requires RT.RoutesOf(t, "get") == [] && RT.RoutesOf(t, "any") == [OM.Entry("", 0), OM.Entry("/test/", 1)]
    ensures RT.Lookup(t, "get", p) == None
    ensures RT.Lookup(t, "any", p) == if p == "" then Some(0) else if p == "/test/" then Some(1) else None
  {
    var m := RT.RoutesOf(t, "any");
    OM.GetCons(m, p);
    assert m[1..] == [OM.Entry("/test/", 1)];
    OM.GetSingleton("/test/", 1, p);
  }

  /** Two routes with different keys added under a method that had none
      are its routes, in the order they were added. */
  lemma AddTwoUnderOneVerb(t: RT.Table, r1: string, h1: RT.HandlerId, r2: string, h2: RT.HandlerId, verb: string)
    requires RT.WellFormed(t) && IsLowerCase(verb) && RT.RoutesOf(t, verb) == []
    requires AppendTrailingSlash(r1) != AppendTrailingSlash(r2)
    ensures var t2 := RT.Add(RT.Add(t, r1, h1, verb), r2, h2, verb);
            && RT.RoutesOf(t2, verb) == [OM.Entry(AppendTrailingSlash(r1), h1), OM.Entry(AppendTrailingSlash(r2), h2)]
            && forall v :: v != verb ==> RT.RoutesOf(t2, v) == RT.RoutesOf(t, v)
  {
    AddFirstRoute(t, r1, h1, verb);
    AddSecondRoute(RT.Add(t, r1, h1, verb), r2, h2, verb, AppendTrailingSlash(r1), h1);
  }

  /** Adding a route with a new key under a method that has one route
      appends it after that route. */
  lemma AddSecondRoute(t: RT.Table, route: string, h: RT.HandlerId, verb: string, k1: string, h1: RT.HandlerId)
    requires RT.WellFormed(t) && IsLowerCase(verb) && RT.RoutesOf(t, verb) == [OM.Entry(k1, h1)]
    requires k1 != AppendTrailingSlash(route)
    ensures RT.WellFormed(RT.Add(t, route, h, verb))
    ensures RT.RoutesOf(RT.Add(t, route, h, verb), verb) == [OM.Entry(k1, h1), OM.Entry(AppendTrailingSlash(route), h)]
    ensures forall v :: v != verb ==> RT.RoutesOf(RT.Add(t, route, h, verb), v) == RT.RoutesOf(t, v)
  {
    LowerFixesLowerCase(verb);
    var k := AppendTrailingSlash(route);
    var m := RT.RoutesOf(t, verb);
    assert !OM.HasKey(m, k);
    assert OM.Put(m, k, h) == m + [OM.Entry(k, h)];
    RT.RoutesOfUnique(t, verb);
    OM.PutUnique(m, k, h);
    RT.PutRoutes(t, verb, OM.Put(m, k, h));
  }

  lemma TestKey()
    ensures AppendTrailingSlash("") == ""
    ensures AppendTrailingSlash("/test") == "/test/"
  {
    assert IsFalsy("");
    var s := "/test";
    assert s[|s| - 1] == 't';
    assert !IsFalsy(s);
    assert s + "/" == "/test/";
  }

  /** A new router has no routes under any method name. */
  lemma EmptyHasNoRoutes(verb: string)
    ensures RT.RoutesOf(RT.Empty(), verb) == []
  {
    var t := RT.Empty();
    match OM.Get(t, verb)
    case Some(rs) =>
      assert OM.Entry(verb, rs) in t;
    case None =>
  }

  /** Adding the first route under a method gives that method exactly
      this one route and leaves the other methods alone. */
  lemma AddFirstRoute(t: RT.Table, route: string, h: RT.HandlerId, verb: string)
    requires RT.WellFormed(t) && IsLowerCase(verb) && RT.RoutesOf(t, verb) == []
    ensures RT.WellFormed(RT.Add(t, route, h, verb))
    ensures RT.RoutesOf(RT.Add(t, route, h, verb), verb) == [OM.Entry(AppendTrailingSlash(route), h)]
    ensures forall v :: v != verb ==> RT.RoutesOf(RT.Add(t, route, h, verb), v) == RT.RoutesOf(t, v)
  {
    LowerFixesLowerCase(verb);
    RT.AddStores(t, route, h, verb);
    RT.AddOrder(t, route, h, verb);
    RT.PutRoutes(t, verb, OM.Put(RT.RoutesOf(t, verb), AppendTrailingSlash(route), h));
  }

  /** Example/index.php: a HEAD request for `/user/123` reaches the route
      registered with `head('/user/([0-9]+)', ...)`, and its handler gets
      the single argument `"123"`, provided the engine matches the stored
      pattern `/user/([0-9]+)/` against `/user/123/` with that capture. */
  lemma CaptureBecomesArgument(matcher: Matcher)
    requires matcher("/user/([0-9]+)/", "/user/123/") == Some(Captures("/user/123/", ["123"]))
    ensures var r := Head(New(ServerRequest(Some("HEAD"), None, None), "/user/123"), "/user/([0-9]+)", 7);
            Execute(r, matcher).outcome == Call(7, ["123"])
  {
    var t := RT.Add(RT.Empty(), "/user/([0-9]+)", 7, "head");
    HeadRequest();
    UserRouteTable();
    UserRouteMatches(t, matcher);
    ResolvePriority(t, "head", "/user/123/", matcher);
  }

  lemma HeadRequest()
    ensures ResolveMethod(ServerRequest(Some("HEAD"), None, None)) == "head"
    ensures RequestPath(AppendTrailingSlash("/user/123")) == "/user/123/"
  {
    assert Lower("HEAD") == "head";
    var s := "/user/123";
    assert s[|s| - 1] == '3';
    assert !IsFalsy(s);
    assert s + "/" == "/user/123/";
    SetUrlAgreesWithAdd(s);
  }

  lemma UserRouteTable()
    ensures RT.RoutesOf(RT.Add(RT.Empty(), "/user/([0-9]+)", 7, "head"), "head") == [OM.Entry("/user/([0-9]+)/", 7)]
    ensures RT.RoutesOf(RT.Add(RT.Empty(), "/user/([0-9]+)", 7, "head"), "any") == []
  {
    assert IsLowerCase("head");
    EmptyHasNoRoutes("head");
    EmptyHasNoRoutes("any");
    UserPatternKey();
    AddFirstRoute(RT.Empty(), "/user/([0-9]+)", 7, "head");
  }

  lemma UserRouteMatches(t: RT.Table, matcher: Matcher)
    requires matcher("/user/([0-9]+)/", "/user/123/") == Some(Captures("/user/123/", ["123"]))
    requires RT.RoutesOf(t, "head") == [OM.Entry("/user/([0-9]+)/", 7)]
    requires RT.RoutesOf(t, "any") == []
    ensures RT.Lookup(t, "head", "/user/123/") == None
    ensures RT.Lookup(t, "any", "/user/123/") == None
    ensures FirstMatch(Candidates(t, "head"), "/user/123/", matcher) == Some(0)
    ensures CallAt(Candidates(t, "head"), 0, "/user/123/", matcher) == Call(7, ["123"])
  {
    OM.GetSingleton("/user/([0-9]+)/", 7, "/user/123/");
    var c := Candidates(t, "head");
    assert c == [OM.Entry("/user/([0-9]+)/", 7)] + [];
    assert c[0].key == "/user/([0-9]+)/";
  }

  /** The key `add` stores for the pattern of Example/index.php. */
  lemma UserPatternKey()
    ensures AppendTrailingSlash("/user/([0-9]+)") == "/user/([0-9]+)/"
  {
    var s := "/user/([0-9]+)";
    assert s[|s| - 1] == ')';
    assert !IsFalsy(s);
    assert s + "/" == "/user/([0-9]+)/";
  }

  /** The "not found" route of Example/index.php: `/home` registered for GET
      is called for `/home`, and an unknown URL falls back to the `/` route,
      provided neither stored pattern matches the whole unknown URL. */
  lemma NotFoundFallsBack(matcher: Matcher)
    requires !FullMatch(matcher, "/", "/unknown/") && !FullMatch(matcher, "/home/", "/unknown/")
    ensures var r := Get(Add(New(NoRequest), "/", 1), "/home", 2);
            && Execute(SetUrl(r, "/home"), matcher).outcome == Call(2, [])
            && Execute(SetUrl(r, "/unknown"), matcher).outcome == Call(1, [])
  {
    var t := RT.Add(RT.Add(RT.Empty(), "/", 1, "any"), "/home", 2, "get");
    HomeTable();
    HomeIsExact(t, matcher);
    UnknownFallsBack(t, matcher);
  }

  /** The table of Example/index.php's `/` and `/home` routes. */
  lemma HomeTable()
    ensures var t := RT.Add(RT.Add(RT.Empty(), "/", 1, "any"), "/home", 2, "get");
            RT.RoutesOf(t, "get") == [OM.Entry("/home/", 2)] && RT.RoutesOf(t, "any") == [OM.Entry("/", 1)]
  {
    assert IsLowerCase("any") && IsLowerCase("get");
    EmptyHasNoRoutes("any");
    EmptyHasNoRoutes("get");
    HomeKeys();
    AddUnderTwoVerbs(RT.Empty(), "/", 1, "any", "/home", 2, "get");
  }

  /** One route added under each of two methods that had none. */
  lemma AddUnderTwoVerbs(t: RT.Table, r1: string, h1: RT.HandlerId, v1: string,
                         r2: string, h2: RT.HandlerId, v2: string)
    requires RT.WellFormed(t) && IsLowerCase(v1) && IsLowerCase(v2) && v1 != v2
    requires RT.RoutesOf(t, v1) == [] && RT.RoutesOf(t, v2) == []
    ensures var t2 := RT.Add(RT.Add(t, r1, h1, v1), r2, h2, v2);
            && RT.RoutesOf(t2, v1) == [OM.Entry(AppendTrailingSlash(r1), h1)]
            && RT.RoutesOf(t2, v2) == [OM.Entry(AppendTrailingSlash(r2), h2)]
  {
    AddFirstRoute(t, r1, h1, v1);
    AddFirstRoute(RT.Add(t, r1, h1, v1), r2, h2, v2);
  }

  /** The keys `add` stores for the routes of Example/index.php. */
  lemma HomeKeys()
    ensures AppendTrailingSlash("/") == "/"
    ensures AppendTrailingSlash("/home") == "/home/"
  {
    var s := "/home";
    assert s[|s| - 1] == 'e';
    assert !IsFalsy(s);
    assert s + "/" == "/home/";
  }

  lemma HomeIsExact(t: RT.Table, matcher: Matcher)
    requires RT.RoutesOf(t, "get") == [OM.Entry("/home/", 2)]
    ensures Resolve(t, "get", RequestPath(AppendTrailingSlash("/home")), matcher) == Call(2, [])
  {
    assert RequestPath(AppendTrailingSlash("/home")) == "/home/" by {
      SetUrlAgreesWithAdd("/home");
    }
    assert RT.Lookup(t, "get", "/home/") == Some(2);
    ResolvePriority(t, "get", "/home/", matcher);
  }

  lemma UnknownFallsBack(t: RT.Table, matcher: Matcher)
    requires !FullMatch(matcher, "/", "/unknown/") && !FullMatch(matcher, "/home/", "/unknown/")
    requires RT.RoutesOf(t, "get") == [OM.Entry("/home/", 2)]
    requires RT.RoutesOf(t, "any") == [OM.Entry("/", 1)]
    ensures Resolve(t, "get", RequestPath(AppendTrailingSlash("/unknown")), matcher) == Call(1, [])
  {
    UnknownKey();
    UnknownHasNoExactKey(t);
    UnknownMatchesNothing(t, matcher);
    ResolvePriority(t, "get", "/unknown/", matcher);
  }

  lemma UnknownHasNoExactKey(t: RT.Table)
    requires RT.RoutesOf(t, "get") == [OM.Entry("/home/", 2)]
    requires RT.RoutesOf(t, "any") == [OM.Entry("/", 1)]
    ensures RT.Lookup(t, "get", "/unknown/") == None
    ensures RT.Lookup(t, "any", "/unknown/") == None
    ensures RT.Lookup(t, "any", "/") == Some(1)
  {
    OM.GetSingleton("/home/", 2, "/unknown/");
    OM.GetSingleton("/", 1, "/unknown/");
    OM.GetSingleton("/", 1, "/");
  }

  lemma UnknownMatchesNothing(t: RT.Table, matcher: Matcher)
    requires !FullMatch(matcher, "/", "/unknown/") && !FullMatch(matcher, "/home/", "/unknown/")
    requires RT.RoutesOf(t, "get") == [OM.Entry("/home/", 2)]
    requires RT.RoutesOf(t, "any") == [OM.Entry("/", 1)]
    ensures FirstMatch(Candidates(t, "get"), "/unknown/", matcher) == None
  {
    var c := Candidates(t, "get");
    assert c == [OM.Entry("/home/", 2)] + [OM.Entry("/", 1)];
    assert c[0].key == "/home/" && c[1].key == "/";
  }

  lemma UnknownKey()
    ensures RequestPath(AppendTrailingSlash("/unknown")) == "/unknown/"
  {
    var s := "/unknown";
    assert s[|s| - 1] == 'n';
    assert !IsFalsy(s);
    assert s + "/" == "/unknown/";
    SetUrlAgreesWithAdd(s);
  }

  /** `remove` neither lower-cases the method nor appends a slash: after
      `add('/x', h, 'GET')`, `remove('/x', 'GET')` leaves the route in
      place, while `remove('/x/', 'get')` deletes it. */
  lemma RemoveIsVerbatim(h: RT.HandlerId)
    ensures var r := Add(New(NoRequest), "/x", h, "GET");
            && RT.Lookup(Remove(r, "/x", "GET").routes, "get", "/x/") == Some(h)
            && RT.Lookup(Remove(r, "/x/", "get").routes, "get", "/x/") == None
  {
    XKeys();
    UpperCaseMethodAbsent(RT.Empty());
    RemoveNotNormalised(RT.Empty(), "/x", h, "GET");
  }

  /** Removing with the arguments given to `add` misses when the method was
      not lower-case, while removing the stored method and key deletes. */
  lemma RemoveNotNormalised(t: RT.Table, route: string, h: RT.HandlerId, kind: string)
    requires RT.WellFormed(t) && Lower(kind) != kind && RT.Lookup(t, kind, route) == None
    ensures var t1 := RT.Add(t, route, h, kind);
            && RT.Lookup(RT.Remove(t1, route, kind), Lower(kind), AppendTrailingSlash(route)) == Some(h)
            && RT.Lookup(RT.Remove(t1, AppendTrailingSlash(route), Lower(kind)), Lower(kind), AppendTrailingSlash(route)) == None
  {
    var t1 := RT.Add(t, route, h, kind);
    RT.AddStores(t, route, h, kind);
    assert RT.Lookup(t1, kind, route) == None;
    RT.RemoveIdempotent(t1, route, kind);
    RT.RemoveDeletes(t1, AppendTrailingSlash(route), Lower(kind));
  }

  /** No method name of a table with the default methods is `GET`. */
  lemma UpperCaseMethodAbsent(t: RT.Table)
    requires OM.Keys(t) == RT.DefaultMethods
    ensures RT.Lookup(t, "GET", "/x") == None
  {
    XKeys();
    assert !OM.HasKey(t, "GET") by {
      forall i | 0 <= i < |t| ensures t[i].key != "GET" {
        assert OM.Keys(t)[i] == t[i].key;
      }
    }
  }

  lemma XKeys()
    ensures Lower("GET") == "get"
    ensures "GET" !in RT.DefaultMethods
    ensures AppendTrailingSlash("/x") == "/x/"
  {
    var s := "/x";
    assert s[|s| - 1] == 'x';
    assert !IsFalsy(s);
    assert s + "/" == "/x/";
  }

  /** A POST carrying both override headers is treated as the method named
      by `X-HTTP-Method-Override`, lower-cased. */
  lemma OverrideHeaderWins()
    ensures ResolveMethod(ServerRequest(Some("POST"), Some("PUT"), Some("DELETE"))) == "put"
    ensures ResolveMethod(ServerRequest(Some("POST"), None, Some("DELETE"))) == "delete"
    ensures ResolveMethod(ServerRequest(Some("GET"), Some("PUT"), Some("DELETE"))) == "get"
  {
    UpperVerbs();
  }

  lemma UpperVerbs()
    ensures Lower("POST") == "post" && Lower("PUT") == "put"
    ensures Lower("DELETE") == "delete" && Lower("GET") == "get"
  {
  }
}
