/** The route table of Router.php: a PHP array from method name to a PHP
    array from route string to handler. It starts with the eight methods
    `any`, `get`, `post`, `put`, `delete`, `head`, `options`, `patch`, each
    with no routes (lines 40-49); `add` may append further method names.
    Handlers are opaque ids. */
module RouteTable {
  import opened Optional
  import opened PhpString
  import opened Paths
  import opened Matching
  import opened Sequences
  import OM = OrderedMap

  type HandlerId = nat

  /** The routes of one method, in registration order. */
  type RouteList = OM.OMap<string, HandlerId>

  type Table = OM.OMap<string, RouteList>

  const DefaultMethods: seq<string> := ["any", "get", "post", "put", "delete", "head", "options", "patch"]

  /** No method is listed twice and no route is listed twice under a method. */
  predicate WellFormed(t: Table) {
    OM.UniqueKeys(t) && forall i :: 0 <= i < |t| ==> OM.UniqueKeys(t[i].value)
  }

  /** The table of a newly constructed router. */
  function Empty(): (t: Table)
    ensures WellFormed(t)
    ensures OM.Keys(t) == DefaultMethods
    ensures forall i :: 0 <= i < |t| ==> t[i].value == []
  {
    seq(|DefaultMethods|, i requires 0 <= i < |DefaultMethods| => OM.Entry(DefaultMethods[i], []))
  }

  /** `$this->routes[$method]`, read as an empty list when the method has no
      entry (a `foreach` over the missing key visits nothing). */
  function RoutesOf(t: Table, verb: string): (r: RouteList)
    ensures !OM.HasKey(t, verb) ==> r == []
    ensures OM.HasKey(t, verb) ==> OM.Entry(verb, r) in t
    ensures OM.UniqueKeys(t) ==> forall i :: 0 <= i < |t| && t[i].key == verb ==> r == t[i].value
  {
    OM.Get(t, verb).ValueOr([])
  }

  /** `isset($this->routes[$method][$route])`, returning the handler. */
  function Lookup(t: Table, verb: string, route: string): (r: Option<HandlerId>)
    ensures r.Some? <==> OM.HasKey(RoutesOf(t, verb), route)
    ensures r.Some? ==> OM.Entry(route, r.value) in RoutesOf(t, verb)
    ensures r.Some? ==> OM.HasKey(t, verb)
  {
    OM.Get(RoutesOf(t, verb), route)
  }

  /** `add($route, $callable, $type = 'any')` (lines 155-165): store the
      handler under the lower-cased method and the trailing-slash-normalised
      route. */
  function Add(t: Table, route: string, handler: HandlerId, kind: string := "any"): (r: Table)
    ensures OM.HasKey(r, Lower(kind))
    ensures Lookup(r, Lower(kind), AppendTrailingSlash(route)) == Some(handler)
  {
    var m := Lower(kind);
    var routes := OM.Put(RoutesOf(t, m), AppendTrailingSlash(route), handler);
    OM.PutGet(RoutesOf(t, m), AppendTrailingSlash(route), handler);
    OM.PutGet(t, m, routes);
    OM.Put(t, m, routes)
  }

  /** `remove($route, $type = 'any')` (lines 259-265): unset the entry whose
      key is exactly `route` under exactly `kind`, with neither normalised. */
  function Remove(t: Table, route: string, kind: string := "any"): (r: Table)
    ensures Lookup(r, kind, route) == None
    ensures OM.Keys(r) == OM.Keys(t)
  {
    if Lookup(t, kind, route).Some? then
      var routes := OM.Remove(RoutesOf(t, kind), route);
      OM.PutGet(t, kind, routes);
      OM.PutKeys(t, kind, routes);
      OM.Put(t, kind, routes)
    else t
  }

  /** The test `getMethodsByRoute` applies to each stored route (lines
      287-297): the stored key equals the argument, or the stored pattern
      fully matches it. */
  predicate Serves(routes: RouteList, route: string, matcher: Matcher) {
    exists i :: 0 <= i < |routes| && (routes[i].key == route || FullMatch(matcher, routes[i].key, route))
  }

  /** The method names of `t` whose routes serve `route`, in table order,
      each once. */
  function MethodsServing(t: Table, route: string, matcher: Matcher): (ms: seq<string>)
    ensures IsSubsequence(ms, OM.Keys(t))
    ensures forall i :: 0 <= i < |t| && Serves(t[i].value, route, matcher) ==> t[i].key in ms
    ensures OM.UniqueKeys(t) ==>
              forall i :: 0 <= i < |t| && t[i].key in ms ==> Serves(t[i].value, route, matcher)
    ensures OM.UniqueKeys(t) ==> NoDuplicates(ms)
  {
    if |t| == 0 then []
    else
      var rest := MethodsServing(t[1..], route, matcher);
      assert OM.Keys(t) == [t[0].key] + OM.Keys(t[1..]);
      assert forall i :: 1 <= i < |t| ==> t[i] == t[1..][i - 1];
      assert OM.UniqueKeys(t) ==> OM.UniqueKeys(t[1..]) && t[0].key !in rest by {
        if OM.UniqueKeys(t) && t[0].key in rest {
          SubsequenceMembers(rest, OM.Keys(t[1..]), t[0].key);
          assert false;
        }
      }
      if Serves(t[0].value, route, matcher) then [t[0].key] + rest else rest
  }

  /** `getMethodsByRoute($route)` (lines 275-303): the methods of the table,
      in table order and each once, one of whose routes equals or fully
      matches the argument; none at all for a falsy argument. */
  function MethodsByRoute(t: Table, route: string, matcher: Matcher): (ms: seq<string>)
    ensures IsFalsy(route) ==> ms == []
    ensures IsSubsequence(ms, OM.Keys(t))
    ensures WellFormed(t) ==>
              forall v :: v in ms <==> !IsFalsy(route) && OM.HasKey(t, v) && Serves(RoutesOf(t, v), route, matcher)
    ensures OM.UniqueKeys(t) ==> NoDuplicates(ms)
  {
    if IsFalsy(route) then []
    else
      var ms := MethodsServing(t, route, matcher);
      assert WellFormed(t) ==>
               forall v :: v in ms <==> OM.HasKey(t, v) && Serves(RoutesOf(t, v), route, matcher) by {
        if WellFormed(t) {
          forall v ensures v in ms <==> OM.HasKey(t, v) && Serves(RoutesOf(t, v), route, matcher) {
            MethodsServingIff(t, route, matcher, v);
          }
        }
      }
      ms
  }

  /** A method is among those serving `route` exactly when it is in the
      table and one of its routes equals or fully matches `route`. */
  lemma MethodsServingIff(t: Table, route: string, matcher: Matcher, verb: string)
    requires WellFormed(t)
    ensures verb in MethodsServing(t, route, matcher) <==>
              OM.HasKey(t, verb) && Serves(RoutesOf(t, verb), route, matcher)
  {
    var ms := MethodsServing(t, route, matcher);
    if verb in ms {
      SubsequenceMembers(ms, OM.Keys(t), verb);
      var i :| 0 <= i < |t| && OM.Keys(t)[i] == verb;
      assert RoutesOf(t, verb) == t[i].value;
    }
    if OM.HasKey(t, verb) {
      var i :| 0 <= i < |t| && t[i].key == verb;
      assert RoutesOf(t, verb) == t[i].value;
    }
  }

  // ---------------------------------------------------------------------
  // Structure of the table.
  // ---------------------------------------------------------------------

  /** In a well-formed table the routes of a method are well-formed too. */
  lemma RoutesOfUnique(t: Table, verb: string)
    requires WellFormed(t)
    ensures OM.UniqueKeys(RoutesOf(t, verb))
  {
    if OM.HasKey(t, verb) {
      var i :| 0 <= i < |t| && t[i].key == verb;
      assert RoutesOf(t, verb) == t[i].value;
    }
  }

  /** Replacing the route list of one method keeps the table well-formed
      and leaves the route lists of all other methods as they were. */
  lemma PutRoutes(t: Table, verb: string, routes: RouteList)
    requires WellFormed(t) && OM.UniqueKeys(routes)
    ensures WellFormed(OM.Put(t, verb, routes))
    ensures RoutesOf(OM.Put(t, verb, routes), verb) == routes
    ensures forall m :: m != verb ==> RoutesOf(OM.Put(t, verb, routes), m) == RoutesOf(t, m)
  {
    var t' := OM.Put(t, verb, routes);
    OM.PutUnique(t, verb, routes);
    OM.PutGet(t, verb, routes);
    forall m | m != verb ensures RoutesOf(t', m) == RoutesOf(t, m) {
      OM.PutOther(t, verb, routes, m);
    }
    forall i | 0 <= i < |t'| ensures OM.UniqueKeys(t'[i].value) {
      if t'[i].key != verb {
        assert t'[i] in t by {
          match OM.IndexOf(t, verb)
          case Some(j) =>
            assert i != j;
          case None =>
            assert i < |t|;
        }
      }
      // The entry stored under `verb` is the one whose value is `routes`.
      assert t'[i].key == verb ==> t'[i].value == routes by {
        if t'[i].key == verb {
          assert OM.Get(t', verb) == Some(t'[i].value);
        }
      }
    }
  }

  // ---------------------------------------------------------------------
  // add: stores and overwrites.
  // ---------------------------------------------------------------------

  /** After `add`, the normalised route under the lower-cased method holds
      the new handler; every other (method, route) pair reads as before. */
  lemma AddStores(t: Table, route: string, handler: HandlerId, kind: string)
    requires WellFormed(t)
    ensures WellFormed(Add(t, route, handler, kind))
    ensures Lookup(Add(t, route, handler, kind), Lower(kind), AppendTrailingSlash(route)) == Some(handler)
    ensures forall m, k :: (m, k) != (Lower(kind), AppendTrailingSlash(route)) ==>
              Lookup(Add(t, route, handler, kind), m, k) == Lookup(t, m, k)
  {
    var m := Lower(kind);
    var k := AppendTrailingSlash(route);
    var routes := OM.Put(RoutesOf(t, m), k, handler);
    RoutesOfUnique(t, m);
    OM.PutUnique(RoutesOf(t, m), k, handler);
    PutRoutes(t, m, routes);
    OM.PutGet(RoutesOf(t, m), k, handler);
    forall m', k' | (m', k') != (m, k)
      ensures Lookup(Add(t, route, handler, kind), m', k') == Lookup(t, m', k')
    {
      if m' == m {
        OM.PutOther(RoutesOf(t, m), k, handler, k');
      }
    }
  }

  /** `add` keeps iteration order: an existing route keeps its position and
      a new one goes last; a method seen for the first time is appended to
      the table; other methods' route lists are untouched. */
  lemma AddOrder(t: Table, route: string, handler: HandlerId, kind: string)
    requires WellFormed(t)
    ensures var m := Lower(kind);
            var k := AppendTrailingSlash(route);
            OM.Keys(RoutesOf(Add(t, route, handler, kind), m)) ==
              if Lookup(t, m, k).Some? then OM.Keys(RoutesOf(t, m)) else OM.Keys(RoutesOf(t, m)) + [k]
    ensures OM.Keys(Add(t, route, handler, kind)) ==
              if OM.HasKey(t, Lower(kind)) then OM.Keys(t) else OM.Keys(t) + [Lower(kind)]
    ensures forall m :: m != Lower(kind) ==> RoutesOf(Add(t, route, handler, kind), m) == RoutesOf(t, m)
  {
    var m := Lower(kind);
    var k := AppendTrailingSlash(route);
    var routes := OM.Put(RoutesOf(t, m), k, handler);
    RoutesOfUnique(t, m);
    OM.PutUnique(RoutesOf(t, m), k, handler);
    PutRoutes(t, m, routes);
    OM.PutKeys(RoutesOf(t, m), k, handler);
    OM.PutKeys(t, m, routes);
  }

  // ---------------------------------------------------------------------
  // remove: exact, order-preserving and idempotent.
  // ---------------------------------------------------------------------

  /** After `remove`, the exact (method, route) key is absent; every other
      pair reads as before and no method disappears from the table. */
  lemma RemoveDeletes(t: Table, route: string, kind: string)
    requires WellFormed(t)
    ensures WellFormed(Remove(t, route, kind))
    ensures Lookup(Remove(t, route, kind), kind, route) == None
    ensures forall m, k :: (m, k) != (kind, route) ==> Lookup(Remove(t, route, kind), m, k) == Lookup(t, m, k)
    ensures OM.Keys(Remove(t, route, kind)) == OM.Keys(t)
  {
    if Lookup(t, kind, route).Some? {
      var routes := OM.Remove(RoutesOf(t, kind), route);
      RoutesOfUnique(t, kind);
      OM.RemoveUnique(RoutesOf(t, kind), route);
      PutRoutes(t, kind, routes);
      OM.PutKeys(t, kind, routes);
      assert OM.HasKey(t, kind);
      forall m, k | (m, k) != (kind, route)
        ensures Lookup(Remove(t, route, kind), m, k) == Lookup(t, m, k)
      {
        if m == kind {
          OM.RemoveOther(RoutesOf(t, kind), route, k);
        }
      }
    }
  }

  /** Removing a key that is not stored (including one that differs only by
      case or by a trailing slash from a stored one) changes nothing, so
      removing twice is the same as removing once. */
  lemma RemoveIdempotent(t: Table, route: string, kind: string)
    requires WellFormed(t)
    ensures Lookup(t, kind, route).None? ==> Remove(t, route, kind) == t
    ensures Remove(Remove(t, route, kind), route, kind) == Remove(t, route, kind)
  {
    RemoveDeletes(t, route, kind);
  }

  /** `add` leaves the routes of every other method as they were. */
  lemma AddKeepsOtherMethod(t: Table, route: string, handler: HandlerId, kind: string, verb: string)
    requires WellFormed(t) && verb != Lower(kind)
    ensures RoutesOf(Add(t, route, handler, kind), verb) == RoutesOf(t, verb)
  {
    AddOrder(t, route, handler, kind);
  }

  /** `unset` takes the entry out of its method's list and leaves the other
      routes of that method in their registration order. */
  lemma RemoveKeepsOrder(t: Table, route: string, kind: string, i: nat)
    requires WellFormed(t)
    requires i < |RoutesOf(t, kind)| && RoutesOf(t, kind)[i].key == route
    ensures RoutesOf(Remove(t, route, kind), kind) == RoutesOf(t, kind)[..i] + RoutesOf(t, kind)[i + 1..]
  {
    var routes := RoutesOf(t, kind);
    RoutesOfUnique(t, kind);
    OM.RemoveSplices(routes, route, i);
    OM.RemoveUnique(routes, route);
    assert Lookup(t, kind, route).Some?;
    PutRoutes(t, kind, OM.Remove(routes, route));
  }
  /** `remove`, given the key exactly as `add` stored it, undoes an `add`
      that created a new route under a method already in the table. */
  lemma RemoveUndoesAdd(t: Table, route: string, handler: HandlerId, kind: string)
    requires WellFormed(t)
    requires OM.HasKey(t, Lower(kind))
    requires Lookup(t, Lower(kind), AppendTrailingSlash(route)).None?
    ensures Remove(Add(t, route, handler, kind), AppendTrailingSlash(route), Lower(kind)) == t
  {
    var m := Lower(kind);
    var k := AppendTrailingSlash(route);
    var routes := RoutesOf(t, m);
    var added := OM.Put(routes, k, handler);
    RoutesOfUnique(t, m);
    OM.PutUnique(routes, k, handler);
    PutRoutes(t, m, added);
    AddStores(t, route, handler, kind);
    OM.RemoveAppended(routes, k, handler);
    OM.PutPut(t, m, added, routes);
    OM.PutSame(t, m);
  }
}
