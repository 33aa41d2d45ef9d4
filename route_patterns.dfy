/** Route patterns: compiling a path into static and `{name}` tokens, matching
    the tokens against a fragment, and building the params of a match
    (src/Route.ts and the `Route` classes bundled under dist/ and Plugins/dist/). */
module RoutePatterns {
  import opened Wrappers
  import opened Seqs
  import opened Text
  import opened HashParsing

  /** One `/`-piece of a route path. */
  datatype RouteToken = RouteToken(name: string, isDynamic: bool)

  /** The params handed to a route's callback. */
  type Params = map<string, string>

  /** The character class `[a-zA-Z]`. */
  predicate IsLetter(c: char)
  {
    'a' <= c <= 'z' || 'A' <= c <= 'Z'
  }

  /** The length of the run of letters that starts at index `k`. */
  function LetterRun(s: string, k: nat): (n: nat)
    requires k <= |s|
    ensures k + n <= |s|
    ensures forall m :: k <= m < k + n ==> IsLetter(s[m])
    ensures k + n == |s| || !IsLetter(s[k + n])
    decreases |s| - k
  {
    if k == |s| || !IsLetter(s[k]) then 0 else 1 + LetterRun(s, k + 1)
  }

  /** The regular expression `/{([a-zA-Z]+)}/` matches at index `i`: a `{`,
      one or more letters (the greedy run), then `}`. */
  predicate ParamAt(s: string, i: int)
  {
    0 <= i < |s| && s[i] == '{' &&
    var n := LetterRun(s, i + 1);
    n >= 1 && i + 1 + n < |s| && s[i + 1 + n] == '}'
  }

  /** The leftmost index at or after `from` where the pattern matches, or -1. */
  function FindParam(s: string, from: nat): (k: int)
    requires from <= |s|
    ensures k == -1 || from <= k < |s|
    ensures k >= 0 ==> ParamAt(s, k)
    ensures forall j :: from <= j < |s| && (k < 0 || j < k) ==> !ParamAt(s, j)
    decreases |s| - from
  {
    if from == |s| then -1
    else if ParamAt(s, from) then from
    else FindParam(s, from + 1)
  }

  /** The leftmost match at or after `from` is at `k` when `k` matches and
      nothing between `from` and `k` does. */
  lemma {:induction false} FindParamAt(s: string, k: nat, from: nat)
    requires from <= k < |s| && ParamAt(s, k)
    requires forall j :: from <= j < k ==> !ParamAt(s, j)
    ensures FindParam(s, from) == k
    decreases k - from
  {
    if from < k {
      FindParamAt(s, k, from + 1);
    }
  }

  /** The letters the group `([a-zA-Z]+)` captures for a match at `k`. */
  function ParamName(s: string, k: int): (name: string)
    requires ParamAt(s, k)
    ensures |name| >= 1 && forall i :: 0 <= i < |name| ==> IsLetter(name[i])
  {
    s[k + 1..k + 1 + LetterRun(s, k + 1)]
  }

  /** `routeParamRegex.exec(piece)[1]`: the letters of the leftmost match. The
      pattern is not anchored, so the match may sit anywhere in the piece. */
  function ExecParam(s: string): (m: Option<string>)
    ensures m.None? <==> forall j :: 0 <= j < |s| ==> !ParamAt(s, j)
    ensures m.Some? ==> FindParam(s, 0) >= 0 && m.value == ParamName(s, FindParam(s, 0))
  {
    var k := FindParam(s, 0);
    if k < 0 then None else Some(ParamName(s, k))
  }

  /** `createToken` / `parseToken`: dynamic, named by the captured letters, when
      the pattern matches somewhere in the piece; static, named by the piece, otherwise. */
  function CreateToken(piece: string): (t: RouteToken)
    ensures !t.isDynamic <==> forall j :: 0 <= j < |piece| ==> !ParamAt(piece, j)
    ensures !t.isDynamic ==> t.name == piece
    ensures t.isDynamic ==> FindParam(piece, 0) >= 0 && t.name == ParamName(piece, FindParam(piece, 0))
    ensures t.isDynamic ==> |t.name| >= 1 && forall i :: 0 <= i < |t.name| ==> IsLetter(t.name[i])
  {
    match ExecParam(piece)
    case None => RouteToken(piece, false)
    case Some(name) => RouteToken(name, true)
  }

  /** A run of letters followed by a non-letter has exactly the letters' length. */
  lemma {:induction false} LetterRunOf(s: string, k: nat, n: nat)
    requires k + n <= |s|
    requires forall m :: k <= m < k + n ==> IsLetter(s[m])
    requires k + n == |s| || !IsLetter(s[k + n])
    ensures LetterRun(s, k) == n
    decreases n
  {
    if n > 0 {
      LetterRunOf(s, k + 1, n - 1);
    }
  }

  /** A piece with no `{` is a static token named by the piece itself. */
  lemma StaticPiece(piece: string)
    requires '{' !in piece
    ensures CreateToken(piece) == RouteToken(piece, false)
  {
    forall j | 0 <= j < |piece|
      ensures !ParamAt(piece, j)
    {
      assert piece[j] in piece;
    }
  }

  /** `{name}` anywhere in a piece, after a prefix without `{`, makes the piece
      a dynamic token called `name`, whatever surrounds it. */
  lemma DynamicPiece(prefix: string, name: string, suffix: string)
    requires '{' !in prefix
    requires |name| >= 1 && forall i :: 0 <= i < |name| ==> IsLetter(name[i])
    ensures CreateToken(prefix + "{" + name + "}" + suffix) == RouteToken(name, true)
  {
    hide CreateToken, ExecParam, FindParam;
    var s := prefix + "{" + name + "}" + suffix;
    var k := |prefix|;
    forall j | 0 <= j < k
      ensures !ParamAt(s, j)
    {
      assert s[j] == prefix[j];
      assert prefix[j] in prefix;
    }
    forall m | k + 1 <= m < k + 1 + |name|
      ensures IsLetter(s[m])
    {
      assert s[m] == name[m - k - 1];
    }
    assert s[k + 1 + |name|] == '}';
    LetterRunOf(s, k + 1, |name|);
    assert ParamAt(s, k);
    FindParamAt(s, k, 0);
    assert s[k + 1..k + 1 + |name|] == name;
    var t := CreateToken(s);
    assert t.isDynamic;
  }

  /** The unanchored pattern in action: `x{id}y` is the dynamic token `id` and
      `{Id}` keeps its case. */
  lemma DynamicExamples()
    ensures CreateToken("x{id}y") == RouteToken("id", true)
    ensures CreateToken("{Id}") == RouteToken("Id", true)
  {
    hide CreateToken, ExecParam, FindParam, LetterRun, ParamAt;
    assert "x{id}y" == "x" + "{" + "id" + "}" + "y";
    DynamicPiece("x", "id", "y");
    assert "{Id}" == "" + "{" + "Id" + "}" + "";
    DynamicPiece("", "Id", "");
  }

  /** `{id1}` is static: the digit ends the letter run before the `}`. */
  lemma StaticExample()
    ensures CreateToken("{id1}") == RouteToken("{id1}", false)
  {
    hide CreateToken, ExecParam, FindParam;
    var s := "{id1}";
    assert LetterRun(s, 1) == 2 by {
      LetterRunOf(s, 1, 2);
    }
    assert !ParamAt(s, 0);
    forall j | 1 <= j < |s|
      ensures !ParamAt(s, j)
    {
      assert s[j] != '{';
    }
  }

  /** A token per piece, in order. */
  function CompileAll(pieces: seq<string>): (tokens: seq<RouteToken>)
    ensures |tokens| == |pieces|
    ensures forall i :: 0 <= i < |pieces| ==> tokens[i] == CreateToken(pieces[i])
  {
    seq(|pieces|, i requires 0 <= i < |pieces| => CreateToken(pieces[i]))
  }

  /** Compiling one more piece appends its token. */
  lemma CompileAllSnoc(pieces: seq<string>, p: string)
    ensures CompileAll(pieces + [p]) == CompileAll(pieces) + [CreateToken(p)]
  {
    var l, r := CompileAll(pieces + [p]), CompileAll(pieces) + [CreateToken(p)];
    assert forall i :: 0 <= i < |l| ==> l[i] == r[i];
  }

  /** `createTokens` (src/Route.ts): a token for every non-empty `/`-piece, in order. */
  function CreateTokens(path: string): (tokens: seq<RouteToken>)
  {
    CompileAll(NonEmpty(Split(path, '/')))
  }

  /** A path has one token per non-empty `/`-piece, and every token has a
      non-empty name without `/`: a static name is a non-empty piece between
      slashes, a dynamic one a run of letters. */
  lemma CreateTokensNames(path: string)
    ensures |CreateTokens(path)| == |NonEmpty(Split(path, '/'))|
    ensures forall i :: 0 <= i < |CreateTokens(path)| ==>
              CreateTokens(path)[i].name != "" && '/' !in CreateTokens(path)[i].name
  {
    var pieces := NonEmpty(Split(path, '/'));
    forall i | 0 <= i < |pieces|
      ensures CreateTokens(path)[i].name != "" && '/' !in CreateTokens(path)[i].name
    {
      var t := CreateToken(pieces[i]);
      if t.isDynamic {
        assert !IsLetter('/');
      } else {
        assert pieces[i] in Split(path, '/');
      }
    }
  }

  /** A route token accepts a fragment token: any token when dynamic, otherwise
      one equal to its name ignoring (ASCII) case. */
  predicate Accepts(t: RouteToken, segment: string)
  {
    t.isDynamic || SameIgnoringCase(t.name, segment)
  }

  /** `matches` / `equals`: as many tokens as the fragment, each accepting its counterpart. */
  predicate Matches(tokens: seq<RouteToken>, segments: seq<string>)
  {
    |tokens| == |segments| && forall i :: 0 <= i < |tokens| ==> Accepts(tokens[i], segments[i])
  }

  /** The index loop of `matches` (src/Route.ts) and `equals` (older generations). */
  method MatchTokens(tokens: seq<RouteToken>, segments: seq<string>) returns (b: bool)
    ensures b == Matches(tokens, segments)
  {
    if |tokens| != |segments| {
      return false;
    }
    var i := 0;
    while i < |tokens|
      invariant 0 <= i <= |tokens|
      invariant forall j :: 0 <= j < i ==> Accepts(tokens[j], segments[j])
    {
      if tokens[i].isDynamic {
        i := i + 1;
        continue;
      }
      if Lower(tokens[i].name) != Lower(segments[i]) {
        return false;
      }
      i := i + 1;
    }
    return true;
  }

  /** A route compiled from a path without `?` matches the fragment of that
      same path, whatever its `{}` placeholders are. */
  lemma SelfMatch(path: string)
    requires '?' !in path
    ensures Matches(CreateTokens(path), ParseFragment(path).tokens)
  {
    var q := IndexOf(path, '?');
    assert HashWithoutSearch(path, q) == path;
    var pieces := NonEmpty(Split(path, '/'));
    assert ParseFragment(path).tokens == pieces;
    var tokens := CreateTokens(path);
    forall i | 0 <= i < |tokens|
      ensures Accepts(tokens[i], pieces[i])
    {
    }
  }

  /** Matching ignores case on both sides. */
  lemma MatchesIgnoresCase(tokens: seq<RouteToken>, segments: seq<string>)
    requires Matches(tokens, segments)
    ensures Matches(tokens, seq(|segments|, i requires 0 <= i < |segments| => Lower(segments[i])))
  {
    var lowered := seq(|segments|, i requires 0 <= i < |segments| => Lower(segments[i]));
    forall i | 0 <= i < |tokens|
      ensures Accepts(tokens[i], lowered[i])
    {
      LowerIdempotent(segments[i]);
    }
  }

  /** The search pairs folded left to right into an empty object: a later pair
      overwrites an earlier one with the same key. */
  function SearchFold(search: seq<SearchParam>): (p: Params)
    ensures p.Keys == set i | 0 <= i < |search| :: search[i].key
  {
    if |search| == 0 then map[]
    else
      var last := search[|search| - 1];
      SearchFold(search[..|search| - 1])[last.key := last.value]
  }

  /** The names of the dynamic tokens. */
  function DynamicNames(tokens: seq<RouteToken>): set<string>
  {
    set i | 0 <= i < |tokens| && tokens[i].isDynamic :: tokens[i].name
  }

  /** The dynamic tokens, left to right, write the fragment token at their index over `base`. */
  function Overlay(tokens: seq<RouteToken>, segments: seq<string>, base: Params): (m: Params)
    requires |tokens| <= |segments|
    ensures m.Keys == base.Keys + DynamicNames(tokens)
  {
    if |tokens| == 0 then base
    else
      var n := |tokens| - 1;
      var m := Overlay(tokens[..n], segments, base);
      if tokens[n].isDynamic then m[tokens[n].name := segments[n]] else m
  }

  /** `parseParams` / `getParamsFromUrl`: search pairs first, dynamic tokens over them. */
  function RouteParams(tokens: seq<RouteToken>, segments: seq<string>, search: seq<SearchParam>): (p: Params)
    requires |tokens| <= |segments|
    ensures p.Keys == (set i | 0 <= i < |search| :: search[i].key) + DynamicNames(tokens)
  {
    Overlay(tokens, segments, SearchFold(search))
  }

  /** The index of the last pair with key `k`, or -1. */
  function LastKey(search: seq<SearchParam>, k: string): (i: int)
    ensures -1 <= i < |search|
    ensures i >= 0 ==> search[i].key == k
    ensures forall j :: i < j < |search| ==> search[j].key != k
  {
    if |search| == 0 then -1
    else if search[|search| - 1].key == k then |search| - 1
    else LastKey(search[..|search| - 1], k)
  }

  /** The index of the last dynamic token named `k`, or -1. */
  function LastDynamic(tokens: seq<RouteToken>, k: string): (i: int)
    ensures -1 <= i < |tokens|
    ensures i >= 0 ==> tokens[i].isDynamic && tokens[i].name == k
    ensures forall j :: i < j < |tokens| ==> !(tokens[j].isDynamic && tokens[j].name == k)
  {
    if |tokens| == 0 then -1
    else if tokens[|tokens| - 1].isDynamic && tokens[|tokens| - 1].name == k then |tokens| - 1
    else LastDynamic(tokens[..|tokens| - 1], k)
  }

  /** A key is in the folded search iff some pair has it, and maps to the value of the last such pair. */
  lemma {:induction false} SearchFoldLookup(search: seq<SearchParam>, k: string)
    ensures k in SearchFold(search) <==> LastKey(search, k) >= 0
    ensures k in SearchFold(search) ==> SearchFold(search)[k] == search[LastKey(search, k)].value
  {
    if |search| > 0 {
      var n := |search| - 1;
      SearchFoldLookup(search[..n], k);
      if search[n].key != k {
        var i := LastKey(search[..n], k);
        assert i >= 0 ==> search[..n][i] == search[i];
      }
    }
  }

  /** A key is in the overlay iff a dynamic token has that name or it is in the
      base; the last such token decides its value, else the base does. */
  lemma {:induction false} OverlayLookup(tokens: seq<RouteToken>, segments: seq<string>, base: Params, k: string)
    requires |tokens| <= |segments|
    ensures k in Overlay(tokens, segments, base) <==> LastDynamic(tokens, k) >= 0 || k in base
    ensures LastDynamic(tokens, k) >= 0 ==> Overlay(tokens, segments, base)[k] == segments[LastDynamic(tokens, k)]
    ensures LastDynamic(tokens, k) < 0 && k in base ==> Overlay(tokens, segments, base)[k] == base[k]
  {
    if |tokens| > 0 {
      var n := |tokens| - 1;
      OverlayLookup(tokens[..n], segments, base, k);
      if !(tokens[n].isDynamic && tokens[n].name == k) {
        var i := LastDynamic(tokens[..n], k);
        assert i >= 0 ==> tokens[..n][i] == tokens[i];
      }
    }
  }

  /** Route params are keyed by dynamic names and search keys; a dynamic token
      beats a search pair with the same key, and among several the last one wins. */
  lemma ParamsLookup(tokens: seq<RouteToken>, segments: seq<string>, search: seq<SearchParam>, k: string)
    requires |tokens| <= |segments|
    ensures k in RouteParams(tokens, segments, search) <==> LastDynamic(tokens, k) >= 0 || LastKey(search, k) >= 0
    ensures LastDynamic(tokens, k) >= 0 ==>
      RouteParams(tokens, segments, search)[k] == segments[LastDynamic(tokens, k)]
    ensures LastDynamic(tokens, k) < 0 && LastKey(search, k) >= 0 ==>
      RouteParams(tokens, segments, search)[k] == search[LastKey(search, k)].value
  {
    SearchFoldLookup(search, k);
    OverlayLookup(tokens, segments, SearchFold(search), k);
  }
}
