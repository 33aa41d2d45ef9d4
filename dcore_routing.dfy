/** The older `dcore.routing` generation: `UrlHash` (src/UrlHash.ts), the
    `Route` class bundled in dist/dcore-routing.ts, and `Routing`
    (src/Routing.ts). The plugin `RouteConfig` (Plugins/src/routing/RouteConfig.ts,
    Plugins/dist/dcore-routing-1.0.1.ts) is the same class with `hasRoutes`
    for `anyRoutes` and a `register` that returns the config for chaining. */
module DcoreRouting {
  import opened Wrappers
  import opened Js
  import opened Seqs
  import opened Text
  import opened HashParsing
  import opened RoutePatterns
  import opened Navigation

  /** The string after `#` in a URL, stored verbatim and parsed. */
  class UrlHash {
    var url: string
    var questionMarkIndex: int
    var tokens: seq<string>
    var queryParams: seq<SearchParam>

    function State(): Fragment
      reads this
    {
      Fragment(url, queryParams, tokens)
    }

    /** The index of the first `?` and the parsed fields agree with the stored text. */
    predicate Valid()
      reads this
    {
      questionMarkIndex == IndexOf(url, '?') && State() == ParseFragment(url)
    }

    constructor()
      ensures url == "" && questionMarkIndex == -1 && tokens == [] && queryParams == []
      ensures Valid()
    {
      url := "";
      questionMarkIndex := -1;
      tokens := [];
      queryParams := [];
      new;
      SplitFirst("", '/');
    }

    /** `anyQueryParams`: whether the stored text has a `?`. */
    predicate AnyQueryParams(): (b: bool)
      reads this
      ensures Valid() ==> (b <==> '?' in url)
      ensures Valid() ==> (b <==> queryParams != [])
    {
      questionMarkIndex > -1
    }

    /** The `value` setter: a falsy value is stored as "", anything else
        verbatim (no `#` is stripped); the index of `?` is recomputed, both
        lists are reset and then repopulated from the new text alone. */
    method SetValue(raw: Option<string>)
      modifies this
      ensures State() == ParseFragment(StoredValue(raw, false))
      ensures Valid()
    {
      var s := if raw.Some? then raw.value else "";
      url := s;
      questionMarkIndex := IndexOf(s, '?');
      queryParams := [];
      tokens := [];
      PopulateQueryParams();
      PopulateTokens();
    }

    /** `populateQueryParams`: without a `?` the list is left as it is;
        otherwise one pair per `&`-piece of the text after the `?`. */
    method PopulateQueryParams()
      requires questionMarkIndex == IndexOf(url, '?')
      modifies this`queryParams
      ensures queryParams == (if AnyQueryParams() then ParseSearch(url, questionMarkIndex) else old(queryParams))
    {
      hide Split, ParsePairs, IndexOf;
      if !AnyQueryParams() {
        return;
      }
      queryParams := ParsePairs(Split(url[questionMarkIndex + 1..], '&'));
    }

    /** `getValueWithoutQuery`: the text before the `?`, taken as
        `substring(0, length - (length - questionMarkIndex))`. */
    method GetValueWithoutQuery() returns (path: string)
      requires questionMarkIndex == IndexOf(url, '?')
      ensures path == HashWithoutSearch(url, questionMarkIndex)
      ensures '?' !in path
    {
      if !AnyQueryParams() {
        return url;
      }
      path := url[..|url| - (|url| - questionMarkIndex)];
    }

    /** `populateTokens`: the non-empty `/`-pieces of the text before the `?`. */
    method PopulateTokens()
      requires questionMarkIndex == IndexOf(url, '?')
      modifies this`tokens
      ensures tokens == ParseTokens(url, questionMarkIndex)
    {
      var path := GetValueWithoutQuery();
      tokens := NonEmpty(Split(path, '/'));
    }
  }

  /** One call of a route's callback: the params, and the pattern when the
      callback is handed one. */
  datatype Invocation = Invocation(params: Params, pattern: Option<string>)

  /** Why `register` throws. */
  datatype RegisterError =
    | AlreadyRegistered  // Error: the pattern has already been registered
    | InvalidPattern     // TypeError: pattern should be a string
    | InvalidCallback    // TypeError: callback should be a function

  /** The tokens of every non-empty `/`-piece, pushed one by one as
      `populateTokens` does in its `forEach`. */
  method PopulateTokens(pattern: string) returns (tokens: seq<RouteToken>)
    ensures tokens == CreateTokens(pattern)
  {
    hide NonEmpty, CompileAll, Split, Join, CreateToken;
    var pieces := Split(pattern, '/');
    tokens := [];
    var i := 0;
    while i < |pieces|
      invariant 0 <= i <= |pieces|
      invariant tokens == CompileAll(NonEmpty(pieces[..i]))
    {
      assert pieces[..i + 1] == pieces[..i] + [pieces[i]];
      NonEmptySnoc(pieces[..i], pieces[i]);
      if pieces[i] != "" {
        CompileAllSnoc(NonEmpty(pieces[..i]), pieces[i]);
        tokens := tokens + [CreateToken(pieces[i])];
      }
      i := i + 1;
    }
    assert pieces[..i] == pieces;
  }

  /** A registered pattern with its tokens and callback. `passesPattern` is
      false for the build in Plugins/dist/dcore-routing-1.0.1.js, whose
      `start` hands the callback the params alone. */
  class Route {
    const pattern: string
    const callback: Callback
    const passesPattern: bool
    const tokens: seq<RouteToken>
    /** The params of the last `start`; undefined before the first. */
    var queryParams: Option<Params>
    /** The arguments of every call of the callback so far. */
    var calls: seq<Invocation>

    constructor(pattern: string, onStart: Callback, passesPattern: bool)
      requires onStart.Function?
      ensures this.pattern == pattern && callback == onStart && this.passesPattern == passesPattern
      ensures tokens == CreateTokens(pattern)
      ensures queryParams == None && calls == []
    {
      this.pattern := pattern;
      this.callback := onStart;
      this.passesPattern := passesPattern;
      var compiled := PopulateTokens(pattern);
      this.tokens := compiled;
      this.queryParams := None;
      this.calls := [];
    }

    /** The constructor's checks: only the pattern's type and the callback's
        are checked, so "" is a valid pattern. */
    static method Create(pattern: Arg, onStart: Callback, passesPattern: bool) returns (r: Result<Route, RegisterError>)
      ensures r.Err? <==> pattern.Other? || onStart.NotAFunction?
      ensures r.Err? ==> r.error == (if pattern.Other? then InvalidPattern else InvalidCallback)
      ensures r.Ok? ==> fresh(r.value) && r.value.pattern == pattern.s && r.value.callback == onStart &&
                        r.value.passesPattern == passesPattern && r.value.tokens == CreateTokens(pattern.s) &&
                        r.value.queryParams == None && r.value.calls == []
    {
      if pattern.Other? {
        return Err(InvalidPattern);
      }
      if onStart.NotAFunction? {
        return Err(InvalidCallback);
      }
      var route := new Route(pattern.s, onStart, passesPattern);
      return Ok(route);
    }

    /** `equals`: equal token counts and every static token equal to the
        fragment token at its index, ignoring case. */
    method Equals(hashUrl: UrlHash) returns (b: bool)
      ensures b == Matches(tokens, hashUrl.tokens)
    {
      b := MatchTokens(tokens, hashUrl.tokens);
    }

    /** `start`: stores the params (query pairs, then dynamic tokens over
        them) and calls the callback once; a callback that throws is caught. */
    method Start(urlHash: UrlHash)
      requires |tokens| <= |urlHash.tokens|
      modifies this`queryParams, this`calls
      ensures queryParams == Some(RouteParams(tokens, urlHash.tokens, urlHash.queryParams))
      ensures calls == old(calls) +
                (if callback.Function? then [Invocation(queryParams.value, if passesPattern then Some(pattern) else None)] else [])
    {
      queryParams := Some(RouteParams(tokens, urlHash.tokens, urlHash.queryParams));
      if callback.Function? {
        calls := calls + [Invocation(queryParams.value, if passesPattern then Some(pattern) else None)];
      }
    }
  }

  /** The tokens of each route, in registration order. */
  function TokenTable(routes: seq<Route>): (table: seq<seq<RouteToken>>)
  {
    seq(|routes|, i requires 0 <= i < |routes| => routes[i].tokens)
  }

  /** The pattern of each route, in registration order. */
  function PatternsOf(routes: seq<Route>): (patterns: seq<string>)
  {
    seq(|routes|, i requires 0 <= i < |routes| => routes[i].pattern)
  }

  /** Every route holds the tokens compiled from its pattern and a callback
      that is a function. */
  ghost predicate WellFormed(routes: seq<Route>)
  {
    (forall i :: 0 <= i < |routes| ==> routes[i].tokens == CreateTokens(routes[i].pattern)) &&
    (forall i :: 0 <= i < |routes| ==> routes[i].callback.Function?)
  }

  /** A route of a well-formed list has a function callback. */
  lemma CallbackOf(routes: seq<Route>, r: Route)
    requires WellFormed(routes) && r in routes
    ensures r.callback.Function?
  {
  }

  /** What `getCurrentRoute` reports: nulls when no route is current. */
  datatype RouteState = RouteState(pattern: Option<string>, params: Option<Params>)

  /** `Routing` (and the plugin `RouteConfig`): the registered routes in an
      array, the parsed fragment, the current route and the URLs written
      with `history.replaceState`. */
  class Routing {
    var defaultUrl: Option<string>
    var routes: seq<Route>
    const urlHash: UrlHash
    var currentRoute: Route?
    var replaced: seq<string>
    /** Whether the routes' callbacks receive the pattern as well. */
    const passesPattern: bool

    /** No pattern is registered twice, every route holds the tokens compiled
        from its pattern, every callback is a function, and the current route,
        if any, is a registered one. */
    ghost predicate Valid()
      reads this`routes, this`currentRoute
    {
      Distinct(GetRoutes()) && WellFormed(routes) &&
      (currentRoute != null ==> currentRoute in routes)
    }

    /** The current route, if any, has been started, so it holds params. */
    ghost predicate CurrentStarted()
      reads this`currentRoute, currentRoute
    {
      currentRoute != null ==> currentRoute.queryParams.Some?
    }

    constructor(passesPattern: bool)
      ensures Valid() && CurrentStarted() && urlHash.Valid()
      ensures defaultUrl == None && routes == [] && currentRoute == null && replaced == []
      ensures this.passesPattern == passesPattern
      ensures urlHash.State() == Fragment("", [], [])
    {
      defaultUrl := None;
      routes := [];
      urlHash := new UrlHash();
      currentRoute := null;
      replaced := [];
      this.passesPattern := passesPattern;
    }

    /** `getRoutes`: the patterns in registration order. */
    function GetRoutes(): (patterns: seq<string>)
      reads this`routes
      ensures |patterns| == |routes|
      ensures forall i :: 0 <= i < |routes| ==> patterns[i] == routes[i].pattern
    {
      PatternsOf(routes)
    }

    /** `anyRoutes` (`hasRoutes` in RouteConfig): some pattern is registered. */
    function AnyRoutes(): (b: bool)
      reads this`routes
      ensures b <==> GetRoutes() != []
    {
      |routes| > 0
    }

    /** `getCurrentRoute`: the current route's pattern and params, or nulls. */
    function GetCurrentRoute(): (state: RouteState)
      reads this`currentRoute, currentRoute
      ensures state.pattern.Some? <==> currentRoute != null
      ensures currentRoute != null ==> state.pattern.value == currentRoute.pattern && state.params == currentRoute.queryParams
      ensures currentRoute == null ==> state.params.None?
    {
      if currentRoute == null then RouteState(None, None)
      else RouteState(Some(currentRoute.pattern), currentRoute.queryParams)
    }

    /** `register`: throws when a registered pattern is strictly equal to the
        argument, then when the Route constructor rejects it; otherwise the
        new route is appended. */
    method Register(pattern: Arg, callback: Callback) returns (o: Outcome<RegisterError>)
      requires Valid()
      modifies this`routes
      ensures Valid()
      ensures pattern.Str? && pattern.s in old(GetRoutes()) ==> o == Fail(AlreadyRegistered)
      ensures pattern.Other? ==> o == Fail(InvalidPattern)
      ensures pattern.Str? && pattern.s !in old(GetRoutes()) && callback.NotAFunction? ==> o == Fail(InvalidCallback)
      ensures o.Pass? <==> pattern.Str? && pattern.s !in old(GetRoutes()) && callback.Function?
      ensures o.Fail? ==> routes == old(routes)
      ensures o.Pass? ==>
                pattern.Str? && GetRoutes() == old(GetRoutes()) + [pattern.s] &&
                routes[..|old(routes)|] == old(routes) &&
                var r := routes[|routes| - 1];
                fresh(r) && r.callback == callback && r.passesPattern == passesPattern &&
                r.tokens == CreateTokens(pattern.s) && r.queryParams == None && r.calls == []
    {
      hide CreateTokens;
      if pattern.Str? && pattern.s in GetRoutes() {
        return Fail(AlreadyRegistered);
      }
      var r := Route.Create(pattern, callback, passesPattern);
      if r.Err? {
        return Fail(r.error);
      }
      ghost var before := routes;
      DistinctAppend(GetRoutes(), pattern.s);
      routes := routes + [r.value];
      assert GetRoutes() == old(GetRoutes()) + [pattern.s];
      assert routes[..|before|] == before;
      return Pass;
    }

    /** `__findRoute`: the first registered route that equals the current
        fragment, or null. */
    method FindRoute() returns (r: Route?)
      ensures r == (var i := FirstMatch(TokenTable(routes), urlHash.tokens); if i >= 0 then routes[i] else null)
    {
      ghost var table := TokenTable(routes);
      var i := 0;
      while i < |routes|
        invariant 0 <= i <= |routes|
        invariant forall j :: 0 <= j < i ==> !Matches(table[j], urlHash.tokens)
      {
        var found := routes[i].Equals(urlHash);
        if found {
          FirstMatchAt(table, urlHash.tokens, i);
          return routes[i];
        }
        i := i + 1;
      }
      FirstMatchNone(table, urlHash.tokens);
      return null;
    }

    /** `startRoute`: parses the fragment and starts the first matching
        route; on a miss, falls back to the default URL when it is a string.
        The current route is whatever the last search found, null included. */
    method StartRoute(hash: string, pathname: string)
      requires Valid()
      modifies this`currentRoute, this`replaced, urlHash, routes
      ensures Valid() && CurrentStarted()
      ensures var step := Navigate(TokenTable(routes), defaultUrl, hash, false, pathname);
              urlHash.State() == step.fragment &&
              replaced == old(replaced) + (if step.replaced.Some? then [step.replaced.value] else []) &&
              currentRoute == (if step.started >= 0 then routes[step.started] else null)
      ensures var r := currentRoute;
              r != null ==>
                r.queryParams == Some(RouteParams(r.tokens, urlHash.tokens, urlHash.queryParams)) &&
                r.calls == old(r.calls) + [Invocation(r.queryParams.value, if r.passesPattern then Some(r.pattern) else None)]
      ensures forall i :: 0 <= i < |routes| && routes[i] != currentRoute ==> unchanged(routes[i])
    {
      // Only the shape of the parsed fragments matters here, not how they are parsed.
      hide ParseFragment, WellFormed;
      urlHash.SetValue(Some(hash));
      currentRoute := FindRoute();
      if currentRoute != null {
        NavigateDirect(TokenTable(routes), defaultUrl, hash, false, pathname);
        CallbackOf(routes, currentRoute);
        currentRoute.Start(urlHash);
        return;
      }
      if defaultUrl.Some? {
        NavigateFallback(TokenTable(routes), defaultUrl, hash, false, pathname);
        StartDefaultRoute(hash, pathname);
      } else {
        NavigateDirect(TokenTable(routes), defaultUrl, hash, false, pathname);
      }
    }

    /** `__startDefaultRoute`: replaces the URL with `pathname#defaultUrl`,
        parses the default URL and starts its first match, if any. */
    method StartDefaultRoute(invalidHash: string, pathname: string)
      requires Valid() && defaultUrl.Some?
      modifies this`currentRoute, this`replaced, urlHash, routes
      ensures Valid() && CurrentStarted()
      ensures routes == old(routes) && defaultUrl == old(defaultUrl)
      ensures replaced == old(replaced) + [pathname + "#" + defaultUrl.value]
      ensures urlHash.State() == ParseFragment(StoredValue(defaultUrl, false))
      ensures currentRoute == (var i := FirstMatch(TokenTable(routes), urlHash.tokens); if i >= 0 then routes[i] else null)
      ensures var r := currentRoute;
              r != null ==>
                r.queryParams == Some(RouteParams(r.tokens, urlHash.tokens, urlHash.queryParams)) &&
                r.calls == old(r.calls) + [Invocation(r.queryParams.value, if r.passesPattern then Some(r.pattern) else None)]
      ensures forall i :: 0 <= i < |routes| && routes[i] != currentRoute ==> unchanged(routes[i])
    {
      hide ParseFragment, WellFormed;
      replaced := replaced + [pathname + "#" + defaultUrl.value];
      urlHash.SetValue(defaultUrl);
      currentRoute := FindRoute();
      if currentRoute != null {
        CallbackOf(routes, currentRoute);
        currentRoute.Start(urlHash);
      }
    }
  }
}
