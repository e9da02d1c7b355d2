/** The lookup order of `execute` (Router.php lines 324-362), on an already
    normalised request URL:

    1. an exact key under the current method, called with no arguments;
    2. an exact key under `any`, called with no arguments;
    3. a pattern scan over the current method's routes and then `any`'s, in
       registration order; the first route that fully matches wins and its
       handler gets the capture groups (the whole-match element dropped);
    4. the fallback `any` / `/`, called with no arguments, or an exception
       when that route is missing. */
module Dispatch {
  import opened Optional
  import opened Matching
  import opened RouteTable
  import OM = OrderedMap

  /** What `execute` does: call one handler with positional string
      arguments, or throw "No "not found" route set.". */
  datatype Outcome = Call(handler: HandlerId, args: seq<string>) | NoFallbackError

  /** The routes the pattern scan visits, in the order it visits them. */
  function Candidates(t: Table, verb: string): RouteList {
    RoutesOf(t, verb) + RoutesOf(t, "any")
  }

  /** Position of the first route in `routes` that fully matches `path`. */
  function FirstMatch(routes: RouteList, path: string, matcher: Matcher): (r: Option<nat>)
    ensures r.None? <==> forall i :: 0 <= i < |routes| ==> !FullMatch(matcher, routes[i].key, path)
    ensures r.Some? ==> r.value < |routes| && FullMatch(matcher, routes[r.value].key, path)
    ensures r.Some? ==> forall j :: 0 <= j < r.value ==> !FullMatch(matcher, routes[j].key, path)
  {
    OM.FirstKey(routes, route => FullMatch(matcher, route, path))
  }

  /** Calling the handler of a matching route: `array_shift($matches)` drops
      the whole match and the remaining groups become the arguments. */
  function CallAt(routes: RouteList, i: nat, path: string, matcher: Matcher): (o: Outcome)
    requires i < |routes| && FullMatch(matcher, routes[i].key, path)
    ensures o.Call? && o.handler == routes[i].value
    ensures [path] + o.args == [matcher(routes[i].key, path).value.whole] + matcher(routes[i].key, path).value.groups
  {
    Call(routes[i].value, matcher(routes[i].key, path).value.groups)
  }

  /** One `foreach` of the pattern scan (lines 340-351): the call of the
      first route, in table order, whose pattern fully matches the path. */
  function Scan(routes: RouteList, path: string, matcher: Matcher): (r: Option<Outcome>)
    ensures r.None? <==> forall i :: 0 <= i < |routes| ==> !FullMatch(matcher, routes[i].key, path)
    ensures r.Some? ==>
              exists i :: 0 <= i < |routes| && FullMatch(matcher, routes[i].key, path) &&
                (forall j :: 0 <= j < i ==> !FullMatch(matcher, routes[j].key, path)) &&
                r.value == Call(routes[i].value, matcher(routes[i].key, path).value.groups)
  {
    match FirstMatch(routes, path, matcher)
    case Some(i) => Some(CallAt(routes, i, path, matcher))
    case None => None
  }

  /** The dispatch decision for method `verb` and request URL `path`. Only
      the pattern scan passes arguments, and the exception is thrown only
      when no exact key applies and the fallback route is missing. */
  function Resolve(t: Table, verb: string, path: string, matcher: Matcher): (o: Outcome)
    ensures o == NoFallbackError ==>
              Lookup(t, verb, path).None? && Lookup(t, "any", path).None? && Lookup(t, "any", "/").None?
    ensures o.Call? && o.args != [] ==> Lookup(t, verb, path).None? && Lookup(t, "any", path).None?
  {
    match Lookup(t, verb, path)
    case Some(h) => Call(h, [])
    case None =>
      match Lookup(t, "any", path)
      case Some(h) => Call(h, [])
      case None =>
        match Scan(RoutesOf(t, verb), path, matcher)
        case Some(d) => d
        case None =>
          match Scan(RoutesOf(t, "any"), path, matcher)
          case Some(d) => d
          case None =>
            match Lookup(t, "any", "/")
            case Some(h) => Call(h, [])
            case None => NoFallbackError
  }

  // ---------------------------------------------------------------------
  // The two scans behave as one scan over the concatenated route lists.
  // ---------------------------------------------------------------------

  lemma ScanConcat(a: RouteList, b: RouteList, path: string, matcher: Matcher)
    ensures Scan(a + b, path, matcher) == if Scan(a, path, matcher).Some? then Scan(a, path, matcher) else Scan(b, path, matcher)
  {
    match FirstMatch(a, path, matcher)
    case Some(i) =>
      FirstMatchInPrefix(a, b, path, matcher, i);
      assert (a + b)[i] == a[i];
    case None =>
      match FirstMatch(b, path, matcher)
      case Some(i) =>
        FirstMatchInSuffix(a, b, path, matcher, i);
        assert (a + b)[|a| + i] == b[i];
      case None =>
        NoMatchInEither(a, b, path, matcher);
  }

  /** A match in `a` is found in `a + b` at the same position. */
  lemma FirstMatchInPrefix(a: RouteList, b: RouteList, path: string, matcher: Matcher, i: nat)
    requires FirstMatch(a, path, matcher) == Some(i)
    ensures FirstMatch(a + b, path, matcher) == Some(i)
  {
    var ab := a + b;
    assert ab[i] == a[i];
    assert forall j :: 0 <= j < i ==> ab[j] == a[j];
  }

  /** Without a match in `a`, a match in `b` is found in `a + b` shifted
      past `a`. */
  lemma FirstMatchInSuffix(a: RouteList, b: RouteList, path: string, matcher: Matcher, i: nat)
    requires FirstMatch(a, path, matcher).None?
    requires FirstMatch(b, path, matcher) == Some(i)
    ensures FirstMatch(a + b, path, matcher) == Some(|a| + i)
  {
    var ab := a + b;
    assert ab[|a| + i] == b[i];
    forall j | 0 <= j < |a| + i ensures !FullMatch(matcher, ab[j].key, path) {
      if j < |a| {
        assert ab[j] == a[j];
      } else {
        assert ab[j] == b[j - |a|];
      }
    }
  }

  lemma NoMatchInEither(a: RouteList, b: RouteList, path: string, matcher: Matcher)
    requires FirstMatch(a, path, matcher).None? && FirstMatch(b, path, matcher).None?
    ensures FirstMatch(a + b, path, matcher).None?
  {
    var ab := a + b;
    forall j | 0 <= j < |ab| ensures !FullMatch(matcher, ab[j].key, path) {
      if j < |a| {
        assert ab[j] == a[j];
      } else {
        assert ab[j] == b[j - |a|];
      }
    }
  }

  // ---------------------------------------------------------------------
  // Dispatch priority.
  // ---------------------------------------------------------------------

  /** The full priority order of `execute`: exact key under the method, then
      exact key under `any` (both with no arguments), then the first route in
      `Candidates` that fully matches, with its capture groups, then the
      fallback `any` / `/` with no arguments, and otherwise the error. */
  lemma ResolvePriority(t: Table, verb: string, path: string, matcher: Matcher)
    ensures Lookup(t, verb, path).Some? ==>
              Resolve(t, verb, path, matcher) == Call(Lookup(t, verb, path).value, [])
    ensures Lookup(t, verb, path).None? && Lookup(t, "any", path).Some? ==>
              Resolve(t, verb, path, matcher) == Call(Lookup(t, "any", path).value, [])
    ensures Lookup(t, verb, path).None? && Lookup(t, "any", path).None? ==>
              var c := Candidates(t, verb);
              match FirstMatch(c, path, matcher)
              case Some(i) => Resolve(t, verb, path, matcher) == CallAt(c, i, path, matcher)
              case None =>
                Resolve(t, verb, path, matcher) ==
                  if Lookup(t, "any", "/").Some? then Call(Lookup(t, "any", "/").value, []) else NoFallbackError
  {
    ScanConcat(RoutesOf(t, verb), RoutesOf(t, "any"), path, matcher);
  }

  /** First registered wins: when the route at position `i` of the scan
      fully matches and no exact key applies, the call goes to a fully
      matching route at some position `k <= i` before which nothing matches,
      never to a later-registered one. */
  lemma FirstRegisteredWins(t: Table, verb: string, path: string, matcher: Matcher, i: nat)
    requires Lookup(t, verb, path).None? && Lookup(t, "any", path).None?
    requires i < |Candidates(t, verb)| && FullMatch(matcher, Candidates(t, verb)[i].key, path)
    ensures var c := Candidates(t, verb);
            exists k :: 0 <= k <= i && FullMatch(matcher, c[k].key, path) &&
              Resolve(t, verb, path, matcher) == CallAt(c, k, path, matcher) &&
              forall j :: 0 <= j < k ==> !FullMatch(matcher, c[j].key, path)
  {
    ResolvePriority(t, verb, path, matcher);
    var c := Candidates(t, verb);
    var k := FirstMatch(c, path, matcher).value;
    assert k <= i;
  }

  /** Dispatch fails exactly when nothing is found at any of the four
      steps: no exact key under the method or `any`, no fully matching
      route, and no fallback route. */
  lemma NoFallbackErrorIff(t: Table, verb: string, path: string, matcher: Matcher)
    ensures Resolve(t, verb, path, matcher) == NoFallbackError <==>
              && Lookup(t, verb, path).None?
              && Lookup(t, "any", path).None?
              && (forall i :: 0 <= i < |Candidates(t, verb)| ==> !FullMatch(matcher, Candidates(t, verb)[i].key, path))
              && Lookup(t, "any", "/").None?
  {
    ResolvePriority(t, verb, path, matcher);
  }

  /** Whatever is called was registered under the method or under `any`. */
  lemma CallIsRegistered(t: Table, verb: string, path: string, matcher: Matcher)
    ensures Resolve(t, verb, path, matcher).Call? ==>
              exists i :: 0 <= i < |Candidates(t, verb)| && Candidates(t, verb)[i].value == Resolve(t, verb, path, matcher).handler
  {
    ResolvePriority(t, verb, path, matcher);
    var c := Candidates(t, verb);
    if Lookup(t, verb, path).Some? {
      StoredIsCandidate(t, verb, verb, path, Lookup(t, verb, path).value);
    } else if Lookup(t, "any", path).Some? {
      StoredIsCandidate(t, verb, "any", path, Lookup(t, "any", path).value);
    } else if FirstMatch(c, path, matcher).Some? {
    } else if Lookup(t, "any", "/").Some? {
      StoredIsCandidate(t, verb, "any", "/", Lookup(t, "any", "/").value);
    }
  }

  /** A handler stored under the method or under `any` is among the
      candidates of the method. */
  lemma StoredIsCandidate(t: Table, verb: string, under: string, key: string, h: HandlerId)
    requires under == verb || under == "any"
    requires Lookup(t, under, key) == Some(h)
    ensures exists i :: 0 <= i < |Candidates(t, verb)| && Candidates(t, verb)[i].value == h
  {
    var a := RoutesOf(t, verb);
    var b := RoutesOf(t, "any");
    var c := Candidates(t, verb);
    if under == verb {
      var i :| 0 <= i < |a| && a[i] == OM.Entry(key, h);
      assert c[i] == a[i];
    } else {
      var i :| 0 <= i < |b| && b[i] == OM.Entry(key, h);
      assert c[|a| + i] == b[i];
    }
  }

  /** Method isolation: registering a route under a method other than the
      request's method and other than `any` never changes the dispatch. */
  lemma OtherMethodsIgnored(t: Table, verb: string, path: string, matcher: Matcher,
                            route: string, handler: HandlerId, kind: string)
    requires WellFormed(t)
    requires PhpString.Lower(kind) != verb && PhpString.Lower(kind) != "any"
    ensures Resolve(Add(t, route, handler, kind), verb, path, matcher) == Resolve(t, verb, path, matcher)
  {
    var t' := Add(t, route, handler, kind);
    AddKeepsOtherMethod(t, route, handler, kind, verb);
    AddKeepsOtherMethod(t, route, handler, kind, "any");
    ResolveFrame(t, t', verb, path, matcher);
  }

  /** Dispatch reads only the route lists of the request's method and of
      `any`. */
  lemma ResolveFrame(t: Table, t': Table, verb: string, path: string, matcher: Matcher)
    requires RoutesOf(t', verb) == RoutesOf(t, verb)
    requires RoutesOf(t', "any") == RoutesOf(t, "any")
    ensures Resolve(t', verb, path, matcher) == Resolve(t, verb, path, matcher)
  {
    assert Lookup(t', verb, path) == Lookup(t, verb, path);
    assert Lookup(t', "any", path) == Lookup(t, "any", path);
    assert Lookup(t', "any", "/") == Lookup(t, "any", "/");
  }
}
