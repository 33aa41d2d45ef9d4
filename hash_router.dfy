/** The current router: `Hash` (src/Hash.ts), `Route` (src/Route.ts) and
    `Router` (src/Router.ts), bundled unchanged in
    dist/dcore-extension-router.es6.js. */
module HashRouter {
  import opened Wrappers
  import opened Js
  import opened Seqs
  import opened Text
  import opened HashParsing
  import opened RoutePatterns
  import opened KeyOrder
  import opened Navigation

  /** The fragment of the page's URL, parsed. */
  class Hash {
    var value: string
    var search: seq<SearchParam>
    var tokens: seq<string>

    function State(): Fragment
      reads this
    {
      Fragment(value, search, tokens)
    }

    /** The three fields always agree with the stored value. */
    predicate Valid()
      reads this
    {
      State() == ParseFragment(value)
    }

    constructor()
      ensures value == "" && search == [] && tokens == []
      ensures Valid()
    {
      value := "";
      search := [];
      tokens := [];
      new;
      SplitFirst("", '/');
    }

    /** The `value` setter: null and undefined become "", one leading `#` is
        dropped, and value, search pairs and tokens are all recomputed from the
        new text alone. */
    method SetValue(raw: Option<string>)
      modifies this
      ensures State() == ParseFragment(StoredValue(raw, true))
      ensures Valid()
    {
      var hash := if raw.Some? then raw.value else "";
      hash := if |hash| == 0 || hash[0] != '#' then hash else hash[1..];
      assert hash == StoredValue(raw, true);
      var searchIndex := IndexOf(hash, '?');
      value := hash;
      search := ParseSearch(hash, searchIndex);
      tokens := ParseTokens(hash, searchIndex);
    }
  }

  /** The argument of a route's callback. */
  datatype RouteMatch = RouteMatch(path: string, params: Params)

  /** Why `route` throws. */
  datatype RouteError =
    | InvalidPath      // TypeError: path should be non empty string
    | InvalidCallback  // TypeError: callback should be a function
    | AlreadyAdded     // Error: the path has already been added

  /** A registered path with its compiled tokens and its callback. */
  class Route {
    const path: string
    const tokens: seq<RouteToken>
    const callback: Callback
    var params: Params
    /** The arguments of every call of the callback so far. */
    var calls: seq<RouteMatch>

    constructor(path: string, callback: Callback)
      requires path != "" && callback.Function?
      ensures this.path == path && this.callback == callback
      ensures tokens == CreateTokens(path)
      ensures params == map[] && calls == []
    {
      this.path := path;
      this.callback := callback;
      this.tokens := CreateTokens(path);
      this.params := map[];
      this.calls := [];
    }

    /** The constructor's argument checks: a path that is a non-empty string,
        then a callback that is a function. */
    static method Create(path: Arg, callback: Callback) returns (r: Result<Route, RouteError>)
      ensures r.Err? <==> !(path.Str? && path.s != "") || callback.NotAFunction?
      ensures r.Err? ==> r.error == (if path.Str? && path.s != "" then InvalidCallback else InvalidPath)
      ensures r.Ok? ==> fresh(r.value) && r.value.path == path.s && r.value.callback == callback &&
                        r.value.tokens == CreateTokens(path.s) && r.value.params == map[] && r.value.calls == []
    {
      if !(path.Str? && path.s != "") {
        return Err(InvalidPath);
      }
      if callback.NotAFunction? {
        return Err(InvalidCallback);
      }
      var route := new Route(path.s, callback);
      return Ok(route);
    }

    /** `matches`: equal token counts and every static token equal to the
        fragment token at its index, ignoring case. */
    method MatchesHash(hash: Hash) returns (b: bool)
      ensures b == Matches(tokens, hash.tokens)
    {
      b := MatchTokens(tokens, hash.tokens);
    }

    /** `start`: stores the params (search pairs, then dynamic tokens over them)
        and calls the callback once with the path and those params. A callback
        that throws is caught, so the call is recorded all the same. */
    method Start(hash: Hash)
      requires |tokens| <= |hash.tokens|
      modifies this`params, this`calls
      ensures params == RouteParams(tokens, hash.tokens, hash.search)
      ensures calls == old(calls) + (if callback.Function? then [RouteMatch(path, params)] else [])
    {
      params := RouteParams(tokens, hash.tokens, hash.search);
      if callback.Function? {
        calls := calls + [RouteMatch(path, params)];
      }
    }
  }

  /** The tokens of each route, in list order. */
  function TokenTable(routes: seq<Route>): (table: seq<seq<RouteToken>>)
  {
    seq(|routes|, i requires 0 <= i < |routes| => routes[i].tokens)
  }

  /** The path of each route, in list order. */
  function PathsOf(routes: seq<Route>): (paths: seq<string>)
  {
    seq(|routes|, i requires 0 <= i < |routes| => routes[i].path)
  }

  /** Every route holds the tokens compiled from its path and a callback that
      is a function. */
  ghost predicate WellFormed(routes: seq<Route>)
  {
    (forall i :: 0 <= i < |routes| ==> routes[i].tokens == CreateTokens(routes[i].path)) &&
    (forall i :: 0 <= i < |routes| ==> routes[i].callback.Function?)
  }

  /** A route of a well-formed list has a function callback. */
  lemma CallbackOf(routes: seq<Route>, r: Route)
    requires WellFormed(routes) && r in routes
    ensures r.callback.Function?
  {
  }

  /** What `current` reports: nulls when no route is current. */
  datatype CurrentMatch = CurrentMatch(path: Option<string>, params: Option<Params>)

  /** The router: the dictionary of routes keyed by path, the parsed fragment,
      the current route and the URLs written with `history.replaceState`. */
  class Router {
    var defaultHash: Option<string>
    /** The entries of the route dictionary, in the order `Object.keys` lists
        their paths. */
    var routes: seq<Route>
    const hash: Hash
    var currentRoute: Route?
    var replaced: seq<string>

    /** `paths`: the dictionary's keys, `Object.keys(routes)`. */
    function Paths(): (paths: seq<string>)
      reads this`routes
      ensures |paths| == |routes|
      ensures forall i :: 0 <= i < |routes| ==> paths[i] == routes[i].path
    {
      PathsOf(routes)
    }

    /** Every path is a key once, every route holds the tokens compiled from
        its path, every callback is a function, and the current route, if any,
        is one of the stored routes. */
    ghost predicate Valid()
      reads this`routes, this`currentRoute
    {
      Distinct(PathsOf(routes)) && WellFormed(routes) &&
      (currentRoute != null ==> currentRoute in routes)
    }

    constructor()
      ensures Valid() && KeysOrdered(Paths()) && hash.Valid()
      ensures defaultHash == None && routes == [] && currentRoute == null && replaced == []
      ensures hash.State() == Fragment("", [], [])
    {
      defaultHash := None;
      routes := [];
      hash := new Hash();
      currentRoute := null;
      replaced := [];
    }

    /** `current`: the current route's path and params, or nulls. */
    function Current(): (m: CurrentMatch)
      reads this`currentRoute, currentRoute
      ensures m.path.Some? <==> currentRoute != null
      ensures m.params.Some? <==> currentRoute != null
      ensures currentRoute != null ==> m.path.value == currentRoute.path && m.params.value == currentRoute.params
    {
      if currentRoute == null then CurrentMatch(None, None)
      else CurrentMatch(Some(currentRoute.path), Some(currentRoute.params))
    }

    /** `route`: throws on a path already in the dictionary (compared as a
        property key), then on an invalid path or callback; otherwise adds a
        fresh route under exactly that path, at the place `Object.keys` lists it. */
    method AddRoute(path: Arg, onStart: Callback) returns (o: Outcome<RouteError>)
      requires Valid()
      modifies this`routes
      ensures Valid()
      ensures old(KeysOrdered(Paths())) ==> KeysOrdered(Paths())
      ensures Key(path) in old(Paths()) ==> o == Fail(AlreadyAdded)
      ensures Key(path) !in old(Paths()) && !(path.Str? && path.s != "") ==> o == Fail(InvalidPath)
      ensures Key(path) !in old(Paths()) && path.Str? && path.s != "" && onStart.NotAFunction? ==> o == Fail(InvalidCallback)
      ensures o.Pass? <==> Key(path) !in old(Paths()) && path.Str? && path.s != "" && onStart.Function?
      ensures o.Fail? ==> routes == old(routes)
      ensures o.Pass? ==>
                path.Str? && Key(path) !in old(Paths()) && Paths() == InsertKey(old(Paths()), path.s) &&
                var i := KeySlot(old(Paths()), path.s);
                routes == old(routes)[..i] + [routes[i]] + old(routes)[i..] &&
                fresh(routes[i]) && routes[i].path == path.s && routes[i].tokens == CreateTokens(path.s) &&
                routes[i].callback == onStart &&
                routes[i].params == map[] && routes[i].calls == []
    {
      var paths := Paths();
      if Key(path) in paths {
        return Fail(AlreadyAdded);
      }
      var r := Route.Create(path, onStart);
      if r.Err? {
        return Fail(r.error);
      }
      Insert(r.value);
      return Pass;
    }

    /** `this.routes[path] = route` for a path not yet in the dictionary: the
        route enters the list at the place `Object.keys` gives its path. */
    method Insert(route: Route)
      requires Valid() && route.path !in Paths() && route.callback.Function?
      requires route.tokens == CreateTokens(route.path)
      modifies this`routes
      ensures Valid()
      ensures Paths() == InsertKey(old(Paths()), route.path)
      ensures var i := KeySlot(old(Paths()), route.path);
              routes == old(routes)[..i] + [route] + old(routes)[i..]
      ensures old(KeysOrdered(Paths())) ==> KeysOrdered(Paths())
    {
      hide CreateTokens;
      var paths := Paths();
      var i := KeySlot(paths, route.path);
      ghost var before := routes;
      routes := routes[..i] + [route] + routes[i..];
      assert Paths() == paths[..i] + [route.path] + paths[i..];
      DistinctInsert(paths, i, route.path);
      if currentRoute != null {
        ghost var j :| 0 <= j < |before| && before[j] == currentRoute;
        assert routes[if j < i then j else j + 1] == currentRoute;
      }
      if KeysOrdered(paths) {
        InsertKeyOrdered(paths, route.path);
      }
    }

    /** `__findRoute`: the first route, in `paths` order, that matches the
        current fragment, or null. */
    method FindRoute() returns (r: Route?)
      ensures r == (var i := FirstMatch(TokenTable(routes), hash.tokens); if i >= 0 then routes[i] else null)
    {
      ghost var table := TokenTable(routes);
      var i := 0;
      while i < |routes|
        invariant 0 <= i <= |routes|
        invariant forall j :: 0 <= j < i ==> !Matches(table[j], hash.tokens)
      {
        var found := routes[i].MatchesHash(hash);
        if found {
          FirstMatchAt(table, hash.tokens, i);
          return routes[i];
        }
        i := i + 1;
      }
      FirstMatchNone(table, hash.tokens);
      return null;
    }

    /** `start`: parses the fragment and starts the first matching route; on a
        miss, falls back to the default fragment when it is a string. The
        current route is whatever the last search found, null included. */
    method Start(h: string, pathname: string)
      requires Valid()
      modifies this`currentRoute, this`replaced, hash, routes
      ensures Valid()
      ensures var step := Navigate(TokenTable(routes), defaultHash, h, true, pathname);
              hash.State() == step.fragment &&
              replaced == old(replaced) + (if step.replaced.Some? then [step.replaced.value] else []) &&
              currentRoute == (if step.started >= 0 then routes[step.started] else null)
      ensures var r := currentRoute;
              r != null ==>
                r.params == RouteParams(r.tokens, hash.tokens, hash.search) &&
                r.calls == old(r.calls) + [RouteMatch(r.path, r.params)]
      ensures forall i :: 0 <= i < |routes| && routes[i] != currentRoute ==> unchanged(routes[i])
    {
      // Only the shape of the parsed fragments matters here, not how they are parsed.
      hide ParseFragment, WellFormed;
      hash.SetValue(Some(h));
      currentRoute := FindRoute();
      if currentRoute != null {
        NavigateDirect(TokenTable(routes), defaultHash, h, true, pathname);
        CallbackOf(routes, currentRoute);
        currentRoute.Start(hash);
        return;
      }
      if defaultHash.Some? {
        NavigateFallback(TokenTable(routes), defaultHash, h, true, pathname);
        StartDefaultRoute(h, pathname);
      } else {
        NavigateDirect(TokenTable(routes), defaultHash, h, true, pathname);
      }
    }

    /** `__startDefaultRoute`: replaces the URL with `pathname#defaultHash`,
        parses the default fragment and starts its first match, if any. */
    method StartDefaultRoute(invalidHash: string, pathname: string)
      requires Valid() && defaultHash.Some?
      modifies this`currentRoute, this`replaced, hash, routes
      ensures Valid()
      ensures routes == old(routes) && defaultHash == old(defaultHash)
      ensures replaced == old(replaced) + [pathname + "#" + defaultHash.value]
      ensures hash.State() == ParseFragment(StoredValue(defaultHash, true))
      ensures currentRoute == (var i := FirstMatch(TokenTable(routes), hash.tokens); if i >= 0 then routes[i] else null)
      ensures var r := currentRoute;
              r != null ==>
                r.params == RouteParams(r.tokens, hash.tokens, hash.search) &&
                r.calls == old(r.calls) + [RouteMatch(r.path, r.params)]
      ensures forall i :: 0 <= i < |routes| && routes[i] != currentRoute ==> unchanged(routes[i])
    {
      hide ParseFragment, WellFormed;
      replaced := replaced + [pathname + "#" + defaultHash.value];
      hash.SetValue(defaultHash);
      currentRoute := FindRoute();
      if currentRoute != null {
        CallbackOf(routes, currentRoute);
        currentRoute.Start(hash);
      }
    }
  }
}
