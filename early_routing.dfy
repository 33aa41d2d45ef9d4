/** The earlier plugin build, Plugins/dist/dcore-routing.ts: the same
    `UrlHash` as the `dcore.routing` generation, a `Route` whose `start` keeps
    no params and lets a throwing callback's exception escape, and a
    `RouteConfig` that keeps no current route. */
module EarlyRouting {
  import opened Wrappers
  import opened Js
  import opened Seqs
  import opened HashParsing
  import opened RoutePatterns
  import opened Navigation
  import DcoreRouting

  /** The exception that escapes `start` when a callback throws. */
  datatype StartError = CallbackThrew(id: nat)

  /** A registered pattern with its tokens and callback. */
  class Route {
    const pattern: string
    const callback: Callback
    const tokens: seq<RouteToken>
    /** The params of every call of the callback so far. */
    var calls: seq<Params>

    constructor(pattern: string, onStart: Callback)
      requires onStart.Function?
      ensures this.pattern == pattern && callback == onStart
      ensures tokens == CreateTokens(pattern)
      ensures calls == []
    {
      this.pattern := pattern;
      this.callback := onStart;
      var compiled := DcoreRouting.PopulateTokens(pattern);
      this.tokens := compiled;
      this.calls := [];
    }

    /** The constructor's checks: the pattern's type, then the callback's. */
    static method Create(pattern: Arg, onStart: Callback) returns (r: Result<Route, DcoreRouting.RegisterError>)
      ensures r.Err? <==> pattern.Other? || onStart.NotAFunction?
      ensures r.Err? ==> r.error == (if pattern.Other? then DcoreRouting.InvalidPattern else DcoreRouting.InvalidCallback)
      ensures r.Ok? ==> fresh(r.value) && r.value.pattern == pattern.s && r.value.callback == onStart &&
                        r.value.tokens == CreateTokens(pattern.s) && r.value.calls == []
    {
      if pattern.Other? {
        return Err(DcoreRouting.InvalidPattern);
      }
      if onStart.NotAFunction? {
        return Err(DcoreRouting.InvalidCallback);
      }
      var route := new Route(pattern.s, onStart);
      return Ok(route);
    }

    /** `equals`: equal token counts and every static token equal to the
        fragment token at its index, ignoring case. */
    method Equals(hashUrl: DcoreRouting.UrlHash) returns (b: bool)
      ensures b == Matches(tokens, hashUrl.tokens)
    {
      b := MatchTokens(tokens, hashUrl.tokens);
    }

    /** `start`: computes the params in a local and calls the callback with
        them alone; there is no try/catch, so a throw escapes to the caller. */
    method Start(urlHash: DcoreRouting.UrlHash) returns (o: Outcome<StartError>)
      requires |tokens| <= |urlHash.tokens|
      modifies this`calls
      ensures calls == old(calls) + (if callback.Function? then [RouteParams(tokens, urlHash.tokens, urlHash.queryParams)] else [])
      ensures o.Fail? <==> callback.Function? && callback.throws
      ensures o.Fail? ==> o.error == CallbackThrew(callback.id)
    {
      var queryParams := RouteParams(tokens, urlHash.tokens, urlHash.queryParams);
      if callback.Function? {
        calls := calls + [queryParams];
        if callback.throws {
          return Fail(CallbackThrew(callback.id));
        }
      }
      return Pass;
    }
  }

  /** The tokens of each route, in registration order. */
  function TokenTable(routes: seq<Route>): (table: seq<seq<RouteToken>>)
  {
    seq(|routes|, i requires 0 <= i < |routes| => routes[i].tokens)
  }

  /** The pattern of each route, in registration order. */
  function PatternsOf(routes: seq<Route>): (patterns: seq<string>)
  {
    seq(|routes|, i requires 0 <= i < |routes| => routes[i].pattern)
  }

  /** Every route holds the tokens compiled from its pattern and a callback
      that is a function. */
  ghost predicate WellFormed(routes: seq<Route>)
  {
    (forall i :: 0 <= i < |routes| ==> routes[i].tokens == CreateTokens(routes[i].pattern)) &&
    (forall i :: 0 <= i < |routes| ==> routes[i].callback.Function?)
  }

  /** A route of a well-formed list has a function callback. */
  lemma CallbackOf(routes: seq<Route>, r: Route)
    requires WellFormed(routes) && r in routes
    ensures r.callback.Function?
  {
  }

  /** The callback calls a navigation makes: the started route's, and whether
      its exception escapes. */
  predicate StartedOnce(routes: seq<Route>, started: int, before: seq<Params>, after: seq<Params>,
                        params: Params, o: Outcome<StartError>)
    reads if 0 <= started < |routes| then {routes[started]} else {}
  {
    if 0 <= started < |routes| then
      var r := routes[started];
      after == before + [params] &&
      o == (if r.callback.Function? && r.callback.throws then Fail(CallbackThrew(r.callback.id)) else Pass)
    else o == Pass
  }

  /** `RouteConfig` of the earlier build: the routes in an array, the parsed
      fragment and the URLs written with `history.replaceState`. */
  class RouteConfig {
    var defaultUrl: Option<string>
    var routes: seq<Route>
    const urlHash: DcoreRouting.UrlHash
    var replaced: seq<string>

    /** No pattern is registered twice, every route holds the tokens compiled
        from its pattern, and every callback is a function. */
    ghost predicate Valid()
      reads this`routes
    {
      Distinct(GetRoutes()) && WellFormed(routes)
    }

    constructor()
      ensures Valid() && urlHash.Valid()
      ensures defaultUrl == None && routes == [] && replaced == []
      ensures urlHash.State() == Fragment("", [], [])
    {
      defaultUrl := None;
      routes := [];
      urlHash := new DcoreRouting.UrlHash();
      replaced := [];
    }

    /** `getRoutes`: the patterns in registration order. */
    function GetRoutes(): (patterns: seq<string>)
      reads this`routes
      ensures |patterns| == |routes|
      ensures forall i :: 0 <= i < |routes| ==> patterns[i] == routes[i].pattern
    {
      PatternsOf(routes)
    }

    /** `hasRoutes`: some pattern is registered. */
    function HasRoutes(): (b: bool)
      reads this`routes
      ensures b <==> GetRoutes() != []
    {
      |routes| > 0
    }

    /** `register`: throws when a registered pattern is strictly equal to the
        argument, then when the Route constructor rejects it; otherwise the
        new route is appended and the config returned for chaining. */
    method Register(pattern: Arg, callback: Callback) returns (o: Outcome<DcoreRouting.RegisterError>)
      requires Valid()
      modifies this`routes
      ensures Valid()
      ensures pattern.Str? && pattern.s in old(GetRoutes()) ==> o == Fail(DcoreRouting.AlreadyRegistered)
      ensures pattern.Other? ==> o == Fail(DcoreRouting.InvalidPattern)
      ensures pattern.Str? && pattern.s !in old(GetRoutes()) && callback.NotAFunction? ==> o == Fail(DcoreRouting.InvalidCallback)
      ensures o.Pass? <==> pattern.Str? && pattern.s !in old(GetRoutes()) && callback.Function?
      ensures o.Fail? ==> routes == old(routes)
      ensures o.Pass? ==>
                pattern.Str? && GetRoutes() == old(GetRoutes()) + [pattern.s] &&
                routes[..|old(routes)|] == old(routes) &&
                var r := routes[|routes| - 1];
                fresh(r) && r.callback == callback && r.tokens == CreateTokens(pattern.s) && r.calls == []
    {
      hide CreateTokens;
      if pattern.Str? && pattern.s in GetRoutes() {
        return Fail(DcoreRouting.AlreadyRegistered);
      }
      var r := Route.Create(pattern, callback);
      if r.Err? {
        return Fail(r.error);
      }
      ghost var before := routes;
      DistinctAppend(GetRoutes(), pattern.s);
      routes := routes + [r.value];
      assert GetRoutes() == old(GetRoutes()) + [pattern.s];
      assert routes[..|before|] == before;
      return Pass;
    }

    /** `findRoute`: the first registered route that equals the current
        fragment, or null. */
    method FindRoute() returns (r: Route?)
      ensures r == (var i := FirstMatch(TokenTable(routes), urlHash.tokens); if i >= 0 then routes[i] else null)
    {
      ghost var table := TokenTable(routes);
      var i := 0;
      while i < |routes|
        invariant 0 <= i <= |routes|
        invariant forall j :: 0 <= j < i ==> !Matches(table[j], urlHash.tokens)
      {
        var found := routes[i].Equals(urlHash);
        if found {
          FirstMatchAt(table, urlHash.tokens, i);
          return routes[i];
        }
        i := i + 1;
      }
      FirstMatchNone(table, urlHash.tokens);
      return null;
    }

    /** `startRoute`: parses the fragment and starts the first matching
        route, else falls back to the default URL when it is a string. A
        throwing callback's exception escapes, after the fragment, and on the
        fallback path the URL, have already changed. */
    method StartRoute(hash: string, pathname: string) returns (o: Outcome<StartError>)
      requires Valid()
      modifies this`replaced, urlHash, routes
      ensures Valid()
      ensures var step := Navigate(TokenTable(routes), defaultUrl, hash, false, pathname);
              urlHash.State() == step.fragment &&
              replaced == old(replaced) + (if step.replaced.Some? then [step.replaced.value] else []) &&
              (step.started >= 0 ==>
                 StartedOnce(routes, step.started, old(routes[step.started].calls), routes[step.started].calls,
                             RouteParams(routes[step.started].tokens, urlHash.tokens, urlHash.queryParams), o)) &&
              (step.started < 0 ==> o == Pass) &&
              forall i :: 0 <= i < |routes| && (step.started < 0 || routes[i] != routes[step.started]) ==> unchanged(routes[i])
    {
      // Only the shape of the parsed fragments matters here, not how they are parsed.
      hide ParseFragment, WellFormed;
      urlHash.SetValue(Some(hash));
      var nextRoute := FindRoute();
      if nextRoute != null {
        NavigateDirect(TokenTable(routes), defaultUrl, hash, false, pathname);
        CallbackOf(routes, nextRoute);
        o := nextRoute.Start(urlHash);
        return;
      }
      if defaultUrl.Some? {
        NavigateFallback(TokenTable(routes), defaultUrl, hash, false, pathname);
        o := StartDefaultRoute(hash, pathname);
      } else {
        NavigateDirect(TokenTable(routes), defaultUrl, hash, false, pathname);
        o := Pass;
      }
    }

    /** `startDefaultRoute`: replaces the URL with `pathname#defaultUrl`,
        parses the default URL and starts its first match, if any. */
    method StartDefaultRoute(invalidHash: string, pathname: string) returns (o: Outcome<StartError>)
      requires Valid() && defaultUrl.Some?
      modifies this`replaced, urlHash, routes
      ensures Valid()
      ensures defaultUrl == old(defaultUrl)
      ensures replaced == old(replaced) + [pathname + "#" + defaultUrl.value]
      ensures urlHash.State() == ParseFragment(StoredValue(defaultUrl, false))
      ensures var i := FirstMatch(TokenTable(routes), urlHash.tokens);
              (i >= 0 ==>
                 StartedOnce(routes, i, old(routes[i].calls), routes[i].calls,
                             RouteParams(routes[i].tokens, urlHash.tokens, urlHash.queryParams), o)) &&
              (i < 0 ==> o == Pass) &&
              forall j :: 0 <= j < |routes| && (i < 0 || routes[j] != routes[i]) ==> unchanged(routes[j])
    {
      hide ParseFragment, WellFormed;
      replaced := replaced + [pathname + "#" + defaultUrl.value];
      urlHash.SetValue(defaultUrl);
      var nextRoute := FindRoute();
      o := Pass;
      if nextRoute != null {
        CallbackOf(routes, nextRoute);
        o := nextRoute.Start(urlHash);
      }
    }
  }
}
