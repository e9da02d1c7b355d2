# SimpleRoute router, modelled in Dafny

This project models `SimpleRoute\Router` (src/SimpleRoute/Router.php), a small PHP
request router. The router keeps a table from HTTP method name to an
insertion-ordered list of routes. A route is a string that is both an exact key
and a regular-expression pattern, and it maps to a handler. `add` and the
shortcuts `get` … `patch` register routes, and `remove` unregisters them.
`getMethodsByRoute` lists the methods that serve a URL. `execute` dispatches the
current URL under the current method.

The model is made of pure functions over immutable values:

- `Optional`: `Option`, for a key that is not set, a header that was not sent, or a pattern that does not match.
- `OrderedMap`: a PHP array used as a dictionary. It is an association list with
  unique keys. Assigning replaces a value in place or appends a new key, `unset`
  keeps the order of the rest, and a `foreach` returns on the first hit.
- `PhpString`: PHP truthiness of strings, ASCII `strtolower`, and `trim($s) == ''`.
- `Paths`: the trailing-slash rule of `add` and `setUrl`, and the URL
  normalisation at the start of `execute`.
- `Matching`: the regular-expression engine, kept abstract as a `Matcher`
  function. `FullMatch` is the router's test that the match covers the whole URL.
- `Sequences`: subsequence and no-duplicates predicates.
- `RouteTable`: the route table, `add`, `remove` and `getMethodsByRoute`.
- `Dispatch`: the four-step lookup order of `execute`.
- `SimpleRoute`: the `Router` object. Each mutator returns the updated router in
  place of `$this`. `execute` returns the updated router together with an
  `Outcome`, which is either a call of a handler with its arguments or the
  "No "not found" route set." exception.
- `Scenarios`: the two unit tests of Test/RouterTest.php and the routes of
  Example/index.php, stated as lemmas.

PHP details the model keeps:

- A string is falsy when it is `""` or `"0"`, as PHP's `!$url` and `!$route`
  evaluate it. So `add('0', …)` stores the key `0` without a slash, and
  `getMethodsByRoute('0')` returns nothing.
- `strtolower` is modelled as ASCII-only, which is its behaviour since PHP 8.2.
- An invalid pattern raises no error at registration. `add` stores any string,
  and at dispatch `preg_match` returns `false` for a bad pattern, which the
  router treats as no match. The model has no registration error.
- `remove` normalises neither its route nor its method: it unsets exactly
  `$routes[$type][$route]`. `Scenarios.RemoveIsVerbatim` shows that
  `remove('/x', 'GET')` does not undo `add('/x', h, 'GET')`.
- `add` appends a trailing slash but never puts a `/` in front. `execute` puts one
  in front when it is missing, and never dispatches on the empty string. So only a truthy
  route that starts with `/` is found again by `setUrl` with the same string
  (`Paths.SetUrlAgreesWithAdd`). A route such as `test` is stored as `test/`,
  while `setUrl('test')` dispatches on `/test/` (`Paths.SetUrlMissesRelativeRoute`).
  The key `''` stored by `add('')` is never looked up exactly. In particular, the
  `add('')` of Test/RouterTest.php installs no fallback: the fallback is the key
  `/` under `any`, and `Scenarios.EmptyRouteIsNoFallback` shows that this
  router throws on every other URL on which neither stored pattern fully
  matches (with the `i` flag, `/test/` still matches `/TEST/`).
- The default arguments `$url = ''` of the constructor and `$type = 'any'` of
  `add` and `remove` are Dafny default parameters.
- When the current method is `any`, `execute` scans the `any` list twice. The
  second scan cannot find anything the first missed, and the model keeps both
  scans.

## Model

| member | source | states |
|---|---|---|
| OrderedMap.FirstKey | src/SimpleRoute/Router.php:338-351 | a `foreach` that returns on the first hit yields the first position whose key satisfies the test, with no earlier hit, or none when no entry qualifies |
| OrderedMap.Get | src/SimpleRoute/Router.php:326 | for the non-null values the router stores, `isset($a[$k])` holds exactly when the key is present, and the read gives the value stored under it |
| OrderedMap.Put | src/SimpleRoute/Router.php:163 | assigning an existing key keeps the array's length; assigning a new key appends it at the end |
| OrderedMap.Remove | src/SimpleRoute/Router.php:262 | after `unset` the key is absent, every remaining entry was there before, and every entry under another key survives |
| OrderedMap.PutGet | src/SimpleRoute/Router.php:163 | the assigned key reads back the assigned value |
| OrderedMap.PutOther | src/SimpleRoute/Router.php:163 | assigning one key leaves every other key's lookup unchanged |
| OrderedMap.PutKeys | src/SimpleRoute/Router.php:163 | iteration order is unchanged when the key existed, otherwise the new key is appended last |
| OrderedMap.PutUnique | src/SimpleRoute/Router.php:163 | assignment never duplicates a key |
| OrderedMap.PutPut | src/SimpleRoute/Router.php:163 | a second assignment to the same key overrides the first |
| OrderedMap.PutSame | src/SimpleRoute/Router.php:163 | assigning a key the value it already holds changes nothing |
| OrderedMap.RemoveAbsent | src/SimpleRoute/Router.php:261-263 | unsetting an absent key changes nothing |
| OrderedMap.RemoveIdempotent | src/SimpleRoute/Router.php:262 | unsetting twice is the same as unsetting once |
| OrderedMap.RemoveOther | src/SimpleRoute/Router.php:262 | unsetting one key leaves every other key's lookup unchanged |
| OrderedMap.RemoveSplices | src/SimpleRoute/Router.php:262 | in an array without repeated keys, `unset` takes out exactly the one entry and the others keep their order |
| OrderedMap.RemoveUnique | src/SimpleRoute/Router.php:262 | `unset` never creates a repeated key |
| OrderedMap.RemoveAppended | src/SimpleRoute/Router.php:262 | unsetting a key that was just appended restores the array |
| OrderedMap.GetCons | src/SimpleRoute/Router.php:326 | a lookup reads the first entry when its key matches and otherwise reads the rest |
| PhpString.Lower | src/SimpleRoute/Router.php:103 | `strtolower` keeps the length, maps each letter A-Z to its lower-case form and keeps every other character, so the result has no upper-case letter |
| PhpString.LowerFixesLowerCase | src/SimpleRoute/Router.php:103 | a string with no upper-case letter is its own lower-case form |
| PhpString.LowerIdempotent | src/SimpleRoute/Router.php:103 | lower-casing twice is lower-casing once |
| Paths.AppendTrailingSlash | src/SimpleRoute/Router.php:128-131 | a truthy string not ending in `/` gets exactly one `/` appended; the string is left unchanged exactly when it is falsy or already ends in `/`; a truthy result ends in `/` |
| Paths.AppendTrailingSlashIdempotent | src/SimpleRoute/Router.php:157-160 | applying the trailing-slash rule twice equals applying it once |
| Paths.RequestPath | src/SimpleRoute/Router.php:314-322 | the dispatched URL starts with `/`; a falsy or blank URL becomes `/`; otherwise it is the URL itself, with one `/` in front exactly when the URL lacked one |
| Paths.SetUrlMissesRelativeRoute | src/SimpleRoute/Router.php:124-165 | for a truthy string not starting with `/`, `execute` dispatches on the key `add` stores for it with a `/` in front, so that key is never looked up exactly (only the pattern scan can still reach it) |
| Paths.RequestPathNotEmpty | src/SimpleRoute/Router.php:314-322 | `execute` never dispatches on the empty string |
| Paths.RequestPathIdempotent | src/SimpleRoute/Router.php:314-322 | normalising the request URL twice equals normalising it once |
| Paths.SetUrlAgreesWithAdd | src/SimpleRoute/Router.php:124-165 | for a truthy URL starting with `/`, the URL that `setUrl` and then `execute` dispatch on is the key that `add` stores for the same string |
| RouteTable.Empty | src/SimpleRoute/Router.php:40-49 | a new table is well-formed and lists `any`, `get`, `post`, `put`, `delete`, `head`, `options` and `patch` in that order, each with no routes |
| RouteTable.RoutesOf | src/SimpleRoute/Router.php:338-340 | the route list of a method is its entry in the table, the one entry of that name when names are unique, and empty when the method is missing, as a `foreach` over a missing key visits nothing |
| RouteTable.Lookup | src/SimpleRoute/Router.php:324-333 | an exact (method, route) lookup finds a handler exactly when the method's route list has that key, the handler is the one stored under it, and a found handler implies the method is in the table |
| RouteTable.Add | src/SimpleRoute/Router.php:155-165 | after `add` the lower-cased method is in the table and the slash-normalised route under it reads back the handler, whatever the table held before |
| RouteTable.Remove | src/SimpleRoute/Router.php:259-265 | after `remove` the exact (method, route) lookup fails, and the table's method names are unchanged |
| RouteTable.AddKeepsOtherMethod | src/SimpleRoute/Router.php:163 | `add` leaves the routes of every other method unchanged |
| RouteTable.PutRoutes | src/SimpleRoute/Router.php:163 | replacing one method's route list keeps the table well-formed, installs the new list and leaves every other method's routes unchanged |
| RouteTable.AddStores | src/SimpleRoute/Router.php:155-165 | `add` keeps the table well-formed, stores the handler under the lower-cased method and the slash-normalised route, and changes no other (method, route) lookup |
| RouteTable.AddOrder | src/SimpleRoute/Router.php:155-165 | re-adding a route keeps its position and a new route goes last under its method; a new method name goes last in the table; other methods' route lists are unchanged |
| RouteTable.RemoveDeletes | src/SimpleRoute/Router.php:259-265 | `remove` keeps the table well-formed, makes exactly the given (method, route) lookup fail, changes no other lookup and keeps the table's method names |
| RouteTable.RemoveIdempotent | src/SimpleRoute/Router.php:259-265 | removing an absent route changes nothing, and removing twice equals removing once |
| RouteTable.RemoveKeepsOrder | src/SimpleRoute/Router.php:259-265 | removing the route at position i of a method leaves that method's other routes in registration order |
| RouteTable.RemoveUndoesAdd | src/SimpleRoute/Router.php:155-265 | removing the stored key under the stored method undoes an `add` that created a new route under an existing method |
| RouteTable.MethodsServing | src/SimpleRoute/Router.php:282-302 | the listed methods appear in table order; every method one of whose routes equals or fully matches the argument is listed; in a table without repeated method names, only such methods are listed, each once |
| RouteTable.MethodsByRoute | src/SimpleRoute/Router.php:275-303 | the listed methods appear in table order and each once; in a well-formed table, a method is listed exactly when the argument is truthy, the method is in the table, and one of its routes equals or fully matches the argument; a falsy argument lists nothing |
| RouteTable.MethodsServingIff | src/SimpleRoute/Router.php:282-302 | in a well-formed table, a method is listed by the scan exactly when it is in the table and one of its routes equals or fully matches the argument |
| Dispatch.Resolve | src/SimpleRoute/Router.php:324-362 | only the pattern scan passes arguments, so a call with arguments means no exact key applied; the exception is thrown only when no exact key applies and the `any` / `/` fallback is missing |
| Dispatch.CallAt | src/SimpleRoute/Router.php:344-349 | calling a fully matching route calls its own handler, and `array_shift` is undone by putting the URL back in front of the arguments: that gives the whole match followed by the capture groups |
| Dispatch.Scan | src/SimpleRoute/Router.php:340-351 | one method's scan yields nothing exactly when no route fully matches the URL; otherwise it calls the handler of the first fully matching route with that route's capture groups |
| Dispatch.FirstMatch | src/SimpleRoute/Router.php:340-351 | the scan of one method's routes picks the first route that fully matches the URL, or none when no route does |
| Dispatch.ScanConcat | src/SimpleRoute/Router.php:337-352 | scanning the current method's routes and then `any`'s equals scanning their concatenation once |
| Dispatch.ResolvePriority | src/SimpleRoute/Router.php:324-362 | dispatch calls, in order: an exact key under the method, then an exact key under `any`, both with no arguments; then the first fully matching route of the method's routes followed by `any`'s, with its capture groups; then the `any` / `/` fallback with no arguments; otherwise it throws |
| Dispatch.FirstRegisteredWins | src/SimpleRoute/Router.php:336-352 | when no exact key applies and the route at position i matches, the call goes to a matching route at a position k <= i before which nothing matches |
| Dispatch.NoFallbackErrorIff | src/SimpleRoute/Router.php:354-362 | `execute` throws exactly when there is no exact key under the method or `any`, no route fully matches, and no `any` / `/` fallback exists |
| Dispatch.CallIsRegistered | src/SimpleRoute/Router.php:324-362 | every handler that is called is registered under the current method or under `any` |
| Dispatch.OtherMethodsIgnored | src/SimpleRoute/Router.php:324-352 | adding a route under a method other than the current one and other than `any` never changes the dispatch |
| Dispatch.ResolveFrame | src/SimpleRoute/Router.php:324-362 | dispatch depends only on the route lists of the current method and of `any` |
| SimpleRoute.New | src/SimpleRoute/Router.php:68-92 | a new router has the eight default methods in order, each with no routes; its method is the one resolved from the request, hence lower-case, and `get` without a request method; its URL extends the argument by at most one character, ends in `/` when the argument is truthy, and equals the argument exactly when that is falsy or already ends in `/` |
| SimpleRoute.ResolveMethod | src/SimpleRoute/Router.php:78-91 | the method is `get` without a request method; otherwise it is the lower-cased request method, except that a POST takes the override header, or failing that the X-HTTP-Method header; the result is always lower-case |
| SimpleRoute.MethodResolution | src/SimpleRoute/Router.php:81-91 | the request method is compared case-insensitively; the headers matter only for a POST; the override header shadows the X-HTTP-Method header |
| SimpleRoute.SetMethod | src/SimpleRoute/Router.php:101-105 | `setMethod` stores a lower-case method and changes neither routes nor URL |
| SimpleRoute.SetMethodLowerCases | src/SimpleRoute/Router.php:101-105 | `setMethod` stores the same method whatever the case of its argument, and stores an already lower-case method verbatim |
| SimpleRoute.SetUrl | src/SimpleRoute/Router.php:124-134 | `setUrl` changes neither routes nor method; the stored URL extends the argument by at most one character, ends in `/` when the argument is truthy, and equals the argument exactly when that is falsy or already ends in `/` |
| SimpleRoute.Add | src/SimpleRoute/Router.php:155-165 | `add` changes neither method nor URL; afterwards the lower-cased method is in the table and the slash-normalised route under it reads back the handler, whatever the router held before |
| SimpleRoute.Remove | src/SimpleRoute/Router.php:259-265 | `remove` changes neither method nor URL; afterwards the exact, unnormalised (method, route) lookup fails, and the table's method names are unchanged |
| SimpleRoute.GetMethodsByRoute | src/SimpleRoute/Router.php:275-303 | the same contract as `RouteTable.MethodsByRoute` over the router's table: methods in table order and each once; in a well-formed table a method is listed exactly when the argument is truthy and one of the method's routes equals or fully matches it; a falsy argument lists nothing |
| SimpleRoute.Get | src/SimpleRoute/Router.php:174-177 | `get` changes neither method nor URL, and afterwards the slash-normalised route under `get` reads back the handler, whatever the router held before |
| SimpleRoute.Post | src/SimpleRoute/Router.php:186-189 | `post` changes neither method nor URL, and afterwards the slash-normalised route under `post` reads back the handler, whatever the router held before |
| SimpleRoute.Put | src/SimpleRoute/Router.php:198-201 | `put` changes neither method nor URL, and afterwards the slash-normalised route under `put` reads back the handler, whatever the router held before |
| SimpleRoute.Delete | src/SimpleRoute/Router.php:210-213 | `delete` changes neither method nor URL, and afterwards the slash-normalised route under `delete` reads back the handler, whatever the router held before |
| SimpleRoute.Head | src/SimpleRoute/Router.php:222-225 | `head` changes neither method nor URL, and afterwards the slash-normalised route under `head` reads back the handler, whatever the router held before |
| SimpleRoute.Options | src/SimpleRoute/Router.php:234-237 | `options` changes neither method nor URL, and afterwards the slash-normalised route under `options` reads back the handler, whatever the router held before |
| SimpleRoute.Patch | src/SimpleRoute/Router.php:246-249 | `patch` changes neither method nor URL, and afterwards the slash-normalised route under `patch` reads back the handler, whatever the router held before |
| SimpleRoute.StoredUnderVerb | src/SimpleRoute/Router.php:155-165 | adding under an already lower-case method stores the route under that method name |
| SimpleRoute.Execute | src/SimpleRoute/Router.php:312-362 | `execute` stores the request path of the router's URL, which starts with `/`, changes neither routes nor method, and its outcome is the dispatch decision for the router's method and that stored path |
| SimpleRoute.FreshRouterFails | src/SimpleRoute/Router.php:354-358 | `execute` on a newly constructed router throws, whatever the URL and the request |
| SimpleRoute.ExecuteRepeatable | src/SimpleRoute/Router.php:314-322 | a second `execute` dispatches the same way and stores the same URL as the first |
| SimpleRoute.AddThenExecute | src/SimpleRoute/Router.php:324-328 | a route added under a method is reached, with no arguments, by setting that method and setting the URL to the same truthy `/`-prefixed string |
| Scenarios.CannotExecuteWithoutEmptyRoute | Test/RouterTest.php:8-13 | `execute` on a new router throws |
| Scenarios.CanExecute | Test/RouterTest.php:15-29 | with `''` and `/test` added and the URL set to `/test`, `execute` calls the `/test` handler with no arguments |
| Scenarios.EmptyRouteIsNoFallback | Test/RouterTest.php:15-23 | the router of `testCanExecute` throws on every URL other than `/test` on which neither stored pattern fully matches, because `add('')` does not install the `/` fallback |
| Scenarios.CaptureBecomesArgument | Example/index.php:35-48 | a HEAD request for `/user/123` calls the `head('/user/([0-9]+)')` handler with the single argument `123`, given that the engine captures it |
| Scenarios.NotFoundFallsBack | Example/index.php:17-33 | `/home` calls the GET `/home` handler, and an unknown URL falls back to the `/` route, given that neither pattern matches it |
| Scenarios.RemoveIsVerbatim | src/SimpleRoute/Router.php:259-265 | after `add('/x', h, 'GET')`, `remove('/x', 'GET')` leaves the route in place and `remove('/x/', 'get')` deletes it |
| Scenarios.RemoveNotNormalised | src/SimpleRoute/Router.php:259-265 | removing with `add`'s own arguments misses when the method was not lower-case, and removing the stored method and key deletes the route |
| Scenarios.OverrideHeaderWins | src/SimpleRoute/Router.php:85-90 | a POST with both headers takes the override header; without it, the X-HTTP-Method header; a GET ignores both |
| Scenarios.AddUnderTwoVerbs | src/SimpleRoute/Router.php:155-165 | one route added under each of two methods that had none leaves each method with exactly that route |
| Scenarios.AddTwoUnderOneVerb | src/SimpleRoute/Router.php:155-165 | two routes with different keys added under a method that had none become its routes in the order added, and other methods keep their routes |
| Scenarios.AddSecondRoute | src/SimpleRoute/Router.php:163 | a route with a new key added under a method holding one route goes after it |

## Left out
- Null handlers: `add` has no type declaration, so `add('/x', null)` stores a
  null, which `isset` then treats as absent (`remove` keeps it, `execute`
  skips the exact key). The model takes handlers to be non-null callables,
  as the `@param callable` docblock of `add` says; a handler id cannot be null.
- The `$_SERVER` superglobal is not modelled. Its three method variables become the explicit `ServerRequest` argument of `New`. Example/index.php passes `REQUEST_URI` as the URL, which is a plain string argument here.
- PCRE is not modelled. A stored route `r` becomes the pattern `'/^' . str_replace('/', '\/', r) . '/Uim'` and goes to `preg_match`. The model replaces the whole engine with an arbitrary `Matcher` function. That function stands for the escaping, the `U`, `i` and `m` flags, and the `false` returned for an invalid pattern (read as no match). PHP's warning for such a pattern is not modelled.
- Handlers are opaque ids, because `call_user_func_array` runs foreign code. Their return values, output and headers are not modelled. `execute`'s result is the `Outcome` describing which handler is called with which arguments. `Scenarios.CanExecute` states the call of the `/test` handler, not the string `'test'` it returns.
- The exception `execute` throws is the `NoFallbackError` outcome value.
- Fluent chaining (`return $this`) is not modelled. Each operation returns the new router value.
- `getMethod` and `getUrl` are not separate members, because they only read the `verb` and `url` fields.
- PHP converts numeric-string array keys to integers. This is not modelled. It is only observable as the type of a numeric method name returned by `getMethodsByRoute`, since stored routes end in `/` unless they are falsy.
- `execute` can scan a method that has no entry in the table, for example one set with `setMethod('trace')`. PHP then emits a warning for the `foreach` over null and visits nothing. The model visits nothing and leaves out the warning.
- Locale-dependent `strtolower` before PHP 8.2 is not modelled. Only ASCII letters are mapped.
- Example/index.php's controller class, the `echo` and `header` calls, and its other routes are demonstration code and are not modelled.
- Scenarios.CaptureBecomesArgument: assumes what the engine does on the example's pattern, because the engine is abstract.
- Scenarios.EmptyRouteIsNoFallback: assumes what the engine does on the stored patterns `''` and `/test/`, because the engine is abstract.
- Scenarios.NotFoundFallsBack: assumes what the engine does on the example's patterns, because the engine is abstract.
