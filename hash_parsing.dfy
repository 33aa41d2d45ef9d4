/** Parsing of a URL fragment into its path tokens and its search pairs,
    shared by every router generation (src/Hash.ts, src/UrlHash.ts and the
    `UrlHash` classes bundled under dist/ and Plugins/dist/). */
module HashParsing {
  import opened Wrappers
  import opened Seqs
  import opened Text

  /** One `key=value` pair of the part after `?`. */
  datatype SearchParam = SearchParam(key: string, value: string)

  /** The parsed form of a stored fragment. */
  datatype Fragment = Fragment(value: string, search: seq<SearchParam>, tokens: seq<string>)

  /** The first piece of `split` is the text before the first separator, and
      the remaining pieces split the text after it. */
  lemma SplitFirst(s: string, sep: char)
    ensures var i := IndexOf(s, sep);
      (i < 0 ==> Split(s, sep) == [s]) &&
      (i >= 0 ==> Split(s, sep) == [s[..i]] + Split(s[i + 1..], sep))
  {
  }

  /** `split("=")` on a pair: the key is the text before the first `=`, the
      value the text between the first and the second `=` (or the end), and
      "" when there is no `=` at all (`args[1] || ""`). */
  function ParseSearchPair(pair: string): (p: SearchParam)
    ensures '=' !in p.key && '=' !in p.value
    ensures p.key <= pair
    ensures '=' !in pair ==> p == SearchParam(pair, "")
    ensures '=' in pair ==>
      var k := |p.key|;
      k < |pair| && pair[k] == '=' && p.value <= pair[k + 1..] &&
      (k + 1 + |p.value| == |pair| || pair[k + 1 + |p.value|] == '=')
  {
    var args := Split(pair, '=');
    SplitFirst(pair, '=');
    var i := IndexOf(pair, '=');
    if i >= 0 then
      SplitFirst(pair[i + 1..], '=');
      SearchParam(args[0], args[1])
    else
      SearchParam(args[0], "")
  }

  /** The text a pair is parsed from, in its simplest form. */
  function PairText(p: SearchParam): string
  {
    p.key + "=" + p.value
  }

  /** Parsing the text of an `=`-free pair gives the pair back. */
  lemma PairRoundTrip(p: SearchParam)
    requires '=' !in p.key && '=' !in p.value
    ensures ParseSearchPair(PairText(p)) == p
  {
    var s := PairText(p);
    IndexOfGlued(p.key, '=', p.value);
    assert s[..|p.key|] == p.key;
    assert s[|p.key| + 1..] == p.value;
  }

  /** `.map(parseSearchPair)` over the `&`-pieces. */
  function ParsePairs(pieces: seq<string>): (params: seq<SearchParam>)
    ensures |params| == |pieces|
    ensures forall i :: 0 <= i < |pieces| ==> params[i] == ParseSearchPair(pieces[i])
  {
    seq(|pieces|, i requires 0 <= i < |pieces| => ParseSearchPair(pieces[i]))
  }

  /** `parseSearch(hash, searchIndex)` of src/Hash.ts and `populateQueryParams`
      of `UrlHash`: no pairs without a `?`, otherwise one pair per `&`-piece of
      the text after it. */
  function ParseSearch(hash: string, searchIndex: int): (params: seq<SearchParam>)
    requires searchIndex < |hash|
    ensures searchIndex < 0 <==> params == []
    ensures searchIndex >= 0 ==> params == ParsePairs(Split(hash[searchIndex + 1..], '&'))
  {
    if searchIndex < 0 then [] else ParsePairs(Split(hash[searchIndex + 1..], '&'))
  }

  /** The text of a search list: the pairs joined by `&`. */
  function SearchText(params: seq<SearchParam>): string
  {
    Join(seq(|params|, i requires 0 <= i < |params| => PairText(params[i])), '&')
  }

  /** A pair that survives a print-and-parse round trip. */
  predicate PlainPair(p: SearchParam)
  {
    '=' !in p.key && '=' !in p.value && '&' !in p.key && '&' !in p.value
  }

  /** Parsing the printed form of a non-empty list of plain pairs gives the list back. */
  lemma SearchRoundTrip(params: seq<SearchParam>)
    requires |params| >= 1
    requires forall i :: 0 <= i < |params| ==> PlainPair(params[i])
    ensures ParsePairs(Split(SearchText(params), '&')) == params
  {
    var texts := seq(|params|, i requires 0 <= i < |params| => PairText(params[i]));
    forall i | 0 <= i < |texts|
      ensures '&' !in texts[i]
    {
      assert texts[i] == params[i].key + ['='] + params[i].value;
    }
    SplitJoin(texts, '&');
    forall i | 0 <= i < |params|
      ensures ParseSearchPair(texts[i]) == params[i]
    {
      PairRoundTrip(params[i]);
    }
  }

  /** `hashWithoutSearch` / `getValueWithoutQuery`: the text before the `?`. */
  function HashWithoutSearch(hash: string, searchIndex: int): (path: string)
    requires searchIndex < |hash|
    ensures path <= hash
    ensures searchIndex < 0 ==> path == hash
    ensures searchIndex >= 0 ==> |path| == searchIndex
  {
    if searchIndex < 0 then hash else hash[..searchIndex]
  }

  /** Every character of a piece of `split` occurs in the split text. */
  lemma {:induction false} SplitPieceChars(s: string, sep: char, c: char)
    requires c !in s
    ensures forall i :: 0 <= i < |Split(s, sep)| ==> c !in Split(s, sep)[i]
    decreases |s|
  {
    SplitFirst(s, sep);
    var i := IndexOf(s, sep);
    if i >= 0 {
      assert s == s[..i] + [sep] + s[i + 1..];
      SplitPieceChars(s[i + 1..], sep, c);
    }
  }

  /** `parseTokens` / `populateTokens`: the non-empty `/`-pieces before the `?`. */
  function ParseTokens(hash: string, searchIndex: int): (tokens: seq<string>)
    requires searchIndex == IndexOf(hash, '?')
    ensures tokens == NonEmpty(Split(HashWithoutSearch(hash, searchIndex), '/'))
    ensures forall i :: 0 <= i < |tokens| ==> tokens[i] != "" && '/' !in tokens[i] && '?' !in tokens[i]
  {
    var path := HashWithoutSearch(hash, searchIndex);
    assert '?' !in path;
    SplitPieceChars(path, '/', '?');
    NonEmpty(Split(path, '/'))
  }

  /** The text a hash class stores for an assigned value: `value || ""`, and,
      for src/Hash.ts (`stripMark`), without one leading `#`. */
  function StoredValue(raw: Option<string>, stripMark: bool): string
  {
    var s := if raw.Some? then raw.value else "";
    if stripMark && |s| > 0 && s[0] == '#' then s[1..] else s
  }

  /** Exactly one leading `#` is stripped, and only when asked; null and
      undefined store "". */
  lemma StoredValueStripsOneMark(v: string)
    ensures StoredValue(Some("#" + v), true) == v
    ensures StoredValue(Some("#" + v), false) == "#" + v
    ensures (|v| == 0 || v[0] != '#') ==> StoredValue(Some(v), true) == v
    ensures StoredValue(Some(v), false) == v
    ensures StoredValue(None, true) == "" && StoredValue(None, false) == ""
  {
    assert ("#" + v)[1..] == v;
  }

  /** Parses a stored fragment the way both hash classes' setters do. */
  function ParseFragment(value: string): (f: Fragment)
    ensures f.value == value
    ensures '?' !in value <==> f.search == []
    ensures forall i :: 0 <= i < |f.tokens| ==> f.tokens[i] != "" && '/' !in f.tokens[i] && '?' !in f.tokens[i]
  {
    var q := IndexOf(value, '?');
    Fragment(value, ParseSearch(value, q), ParseTokens(value, q))
  }

  /** Whatever follows the first `?` is query text: the tokens are the
      non-empty `/`-pieces of the text before it, and the search pairs are the
      `&`-pieces of the text after it. */
  lemma TokensBeforeQuery(path: string, query: string)
    requires '?' !in path
    ensures ParseFragment(path).tokens == NonEmpty(Split(path, '/'))
    ensures ParseFragment(path).search == []
    ensures ParseFragment(path + "?" + query).tokens == NonEmpty(Split(path, '/'))
    ensures ParseFragment(path + "?" + query).search == ParsePairs(Split(query, '&'))
  {
    var s := path + "?" + query;
    var q := IndexOf(s, '?');
    assert s[..|path|] == path && s[|path|] == '?';
    assert q == |path|;
    assert s[q + 1..] == query;
  }

  /** The tokens of an absolute path without `?` are the non-empty pieces after the leading `/`. */
  lemma TokensOfAbsolute(path: string)
    requires '?' !in path
    ensures ParseFragment("/" + path).tokens == NonEmpty(Split(path, '/'))
  {
    var s := "/" + path;
    assert s == "" + ['/'] + path;
    var q := IndexOf(s, '?');
    assert HashWithoutSearch(s, q) == s;
    SplitStep("", '/', path);
  }

  /** A token list survives being printed as an absolute path and parsed again. */
  lemma TokensRoundTrip(tokens: seq<string>)
    requires forall i :: 0 <= i < |tokens| ==> tokens[i] != "" && '/' !in tokens[i] && '?' !in tokens[i]
    ensures ParseFragment("/" + Join(tokens, '/')).tokens == tokens
  {
    JoinAvoids(tokens, '/', '?');
    TokensOfAbsolute(Join(tokens, '/'));
    if |tokens| == 0 {
      SplitFirst("", '/');
    } else {
      SplitJoin(tokens, '/');
    }
  }

  /** A join of pieces that avoid `c` (with a separator other than `c`) avoids `c`. */
  lemma {:induction false} JoinAvoids(pieces: seq<string>, sep: char, c: char)
    requires sep != c
    requires forall i :: 0 <= i < |pieces| ==> c !in pieces[i]
    ensures c !in Join(pieces, sep)
    decreases |pieces|
  {
    if |pieces| > 1 {
      JoinAvoids(pieces[1..], sep, c);
    }
  }

  /** The search list of a fragment is one pair per `&`-piece after its first `?`. */
  lemma SearchOfFragment(path: string, params: seq<SearchParam>)
    requires '?' !in path
    requires |params| >= 1
    requires forall i :: 0 <= i < |params| ==> PlainPair(params[i])
    ensures ParseFragment(path + "?" + SearchText(params)).search == params
  {
    var s := path + "?" + SearchText(params);
    IndexOfGlued(path, '?', SearchText(params));
    assert s[|path| + 1..] == SearchText(params);
    SearchRoundTrip(params);
  }
}
