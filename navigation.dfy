/** What one navigation does, independently of which router generation runs
    it: parse the fragment, start the first matching route, and otherwise fall
    back to the default fragment after replacing the URL (`start` of
    src/Router.ts, `startRoute` of src/Routing.ts and of the `RouteConfig`
    classes). */
module Navigation {
  import opened Wrappers
  import opened HashParsing
  import opened RoutePatterns

  /** The index of the first route at or after `from`, in table order, whose
      tokens match, or -1. */
  function FirstMatchFrom(table: seq<seq<RouteToken>>, segments: seq<string>, from: nat): (i: int)
    requires from <= |table|
    ensures i == -1 || from <= i < |table|
    ensures i >= 0 ==> Matches(table[i], segments)
    ensures forall j :: from <= j < |table| && (i < 0 || j < i) ==> !Matches(table[j], segments)
    decreases |table| - from
  {
    if from == |table| then -1
    else if Matches(table[from], segments) then from
    else FirstMatchFrom(table, segments, from + 1)
  }

  /** The index of the first route, in table order, whose tokens match, or -1. */
  function FirstMatch(table: seq<seq<RouteToken>>, segments: seq<string>): (i: int)
    ensures -1 <= i < |table|
    ensures i >= 0 ==> Matches(table[i], segments)
    ensures forall j :: 0 <= j < |table| && (i < 0 || j < i) ==> !Matches(table[j], segments)
  {
    FirstMatchFrom(table, segments, 0)
  }

  /** A matching index with no match before it is the first match. */
  lemma FirstMatchAt(table: seq<seq<RouteToken>>, segments: seq<string>, i: nat)
    requires i < |table| && Matches(table[i], segments)
    requires forall j :: 0 <= j < i ==> !Matches(table[j], segments)
    ensures FirstMatch(table, segments) == i
  {
    FirstMatchFromAt(table, segments, i, 0);
  }

  lemma {:induction false} FirstMatchFromAt(table: seq<seq<RouteToken>>, segments: seq<string>, i: nat, from: nat)
    requires from <= i < |table| && Matches(table[i], segments)
    requires forall j :: from <= j < i ==> !Matches(table[j], segments)
    ensures FirstMatchFrom(table, segments, from) == i
    decreases i - from
  {
    if from < i {
      FirstMatchFromAt(table, segments, i, from + 1);
    }
  }

  /** A table with no matching entry has no first match. */
  lemma FirstMatchNone(table: seq<seq<RouteToken>>, segments: seq<string>)
    requires forall j :: 0 <= j < |table| ==> !Matches(table[j], segments)
    ensures FirstMatch(table, segments) == -1
  {
  }

  /** The effect of one navigation: the fragment the router ends up holding,
      the index of the route it starts (-1 for none), and the URL it writes
      with `history.replaceState`, if any. */
  datatype Step = Step(fragment: Fragment, started: int, replaced: Option<string>)

  /** One navigation to `hash` over a route table, with an optional default
      fragment and the page's `location.pathname`. */
  function Navigate(table: seq<seq<RouteToken>>, defaultHash: Option<string>, hash: string,
                    stripMark: bool, pathname: string): (r: Step)
    ensures -1 <= r.started < |table|
    ensures r.started >= 0 ==> Matches(table[r.started], r.fragment.tokens)
    ensures r.started >= 0 ==> forall j :: 0 <= j < r.started ==> !Matches(table[j], r.fragment.tokens)
    ensures r.started < 0 ==> forall j :: 0 <= j < |table| ==> !Matches(table[j], r.fragment.tokens)
    ensures r.replaced.None? ==> r.fragment == ParseFragment(StoredValue(Some(hash), stripMark))
    ensures r.replaced.Some? <==>
              defaultHash.Some? &&
              forall j :: 0 <= j < |table| ==> !Matches(table[j], ParseFragment(StoredValue(Some(hash), stripMark)).tokens)
    ensures r.replaced.Some? ==>
              r.replaced.value == pathname + "#" + defaultHash.value &&
              r.fragment == ParseFragment(StoredValue(defaultHash, stripMark))
  {
    var direct := ParseFragment(StoredValue(Some(hash), stripMark));
    var i := FirstMatch(table, direct.tokens);
    if i >= 0 || defaultHash.None? then
      Step(direct, i, None)
    else
      var fallback := ParseFragment(StoredValue(defaultHash, stripMark));
      Step(fallback, FirstMatch(table, fallback.tokens), Some(pathname + "#" + defaultHash.value))
  }

  /** A direct match, or a miss without a default, keeps the parsed fragment. */
  lemma NavigateDirect(table: seq<seq<RouteToken>>, defaultHash: Option<string>, hash: string,
                       stripMark: bool, pathname: string)
    requires FirstMatch(table, ParseFragment(StoredValue(Some(hash), stripMark)).tokens) >= 0 || defaultHash.None?
    ensures var direct := ParseFragment(StoredValue(Some(hash), stripMark));
            Navigate(table, defaultHash, hash, stripMark, pathname) == Step(direct, FirstMatch(table, direct.tokens), None)
  {
  }

  /** A miss with a default replaces the URL and searches again under the default fragment. */
  lemma NavigateFallback(table: seq<seq<RouteToken>>, defaultHash: Option<string>, hash: string,
                         stripMark: bool, pathname: string)
    requires FirstMatch(table, ParseFragment(StoredValue(Some(hash), stripMark)).tokens) < 0 && defaultHash.Some?
    ensures var fallback := ParseFragment(StoredValue(defaultHash, stripMark));
            Navigate(table, defaultHash, hash, stripMark, pathname) ==
            Step(fallback, FirstMatch(table, fallback.tokens), Some(pathname + "#" + defaultHash.value))
  {
  }

  /** A navigation to a fragment some route matches never touches the URL and
      starts the first such route. */
  lemma DirectMatchStartsFirst(table: seq<seq<RouteToken>>, defaultHash: Option<string>, hash: string,
                               stripMark: bool, pathname: string, k: nat)
    requires k < |table|
    requires Matches(table[k], ParseFragment(StoredValue(Some(hash), stripMark)).tokens)
    ensures Navigate(table, defaultHash, hash, stripMark, pathname).replaced.None?
    ensures 0 <= Navigate(table, defaultHash, hash, stripMark, pathname).started <= k
  {
    var r := Navigate(table, defaultHash, hash, stripMark, pathname);
    assert r.replaced.None?;
  }

  /** With the default unset, a miss changes nothing but the fragment and starts nothing. */
  lemma MissWithoutDefault(table: seq<seq<RouteToken>>, hash: string, stripMark: bool, pathname: string)
    requires forall j :: 0 <= j < |table| ==> !Matches(table[j], ParseFragment(StoredValue(Some(hash), stripMark)).tokens)
    ensures Navigate(table, None, hash, stripMark, pathname) ==
            Step(ParseFragment(StoredValue(Some(hash), stripMark)), -1, None)
  {
  }
}
