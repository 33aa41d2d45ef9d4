# Hash-fragment routing, model registry and service registry, in Dafny

This project models the core of a TypeScript/JavaScript repository: the
client-side router of a browser extension, which turns the fragment of a URL
(the text after `#`) into a route and starts that route's callback. It also
models the two plugins bundled with it: the mvp plugin's `Model`/`Collection`
pair and the services plugin's `ServiceConfig`.

The router exists in three generations, and each has its own module.

- `HashRouter` is the current router: `Hash`, `Route` and `Router` from
  src/Hash.ts, src/Route.ts and src/Router.ts. These are bundled unchanged in
  dist/dcore-extension-router.es6.js. Routes are kept in a dictionary keyed by
  path. Their priority order is therefore the order in which `Object.keys`
  lists the paths. `KeyOrder` models that order.
- `DcoreRouting` is the `dcore.routing` generation, covering several files:
  - `UrlHash` (src/UrlHash.ts, .js);
  - the `Route` bundled in dist/dcore-routing.ts, .js;
  - `Routing` (src/Routing.ts, .js);
  - the plugin `RouteConfig` (Plugins/src/routing/RouteConfig.ts,
    src/RouteConfig.js, Plugins/dist/dcore-routing-1.0.1.ts, .js).

  `RouteConfig` is the same class as `Routing` with `hasRoutes` in place of
  `anyRoutes`. Its `register` returns the config for chaining, which the
  model's `Outcome` stands for. The route flag `passesPattern` distinguishes
  the builds whose callback receives `(params, pattern)` from
  Plugins/dist/dcore-routing-1.0.1.js, whose callback receives the params
  alone.
- `EarlyRouting` is the earlier plugin build Plugins/dist/dcore-routing.ts. It
  keeps no current route and no params on the route. It has no try/catch
  around the callback, so a throwing callback escapes `startRoute`. The model
  returns that escape as an error outcome.

Shared logic lives in its own modules:
- `Text` and `Seqs` hold `split`, `filter`, `indexOf`, ASCII `toLowerCase`
  and swap-with-last removal.
- `HashParsing` parses a fragment into tokens and search pairs.
- `RoutePatterns` compiles a pattern into tokens with the regular expression
  `/{([a-zA-Z]+)}/`, matches tokens against a fragment, and builds a match's
  params.
- `Navigation` is one navigation as a pure function: the first match, else
  the default fallback. The three router classes are proved against it.

The mvp plugin is the `Mvp` module (Plugins/dist/dcore-mvp.ts, its 1.0.0 and
.js copies, and Plugins/src/mvp/Collection.ts). A `Model` keeps per-event
lists of `(handler, context)` entries. A `Collection` holds models in an array
and listens to each member's "change" and "destroy" events. The source's
`Collection` extends `Model`; the model gives the collection its own listener
lists in a `Model` held in the field `events`.

The services plugin is the `Services` module
(Plugins/src/services/ServiceConfig.ts, Plugins/dist/dcore-services-1.0.0.js).

Thrown errors are modelled as `Result`/`Outcome` values. User callbacks are
modelled as recorded calls: a route records every callback invocation, and a
`Model` records every handler call made by `notify`. `history.replaceState` is
modelled by a `replaced` field listing the URLs written. `location.pathname`
is a parameter.

On these points the model follows the source, where a reader might expect
otherwise:
- After a navigation that matches nothing, not even under the default,
  `currentRoute` is null. The search result overwrites it, so no stale route
  is retained (src/Router.ts:43,77; src/Routing.ts:36,89).
- The dynamic-token expression is not anchored. `x{id}y` is the dynamic token
  `id`, and `{id1}` is static (`RoutePatterns.DynamicExamples`,
  `RoutePatterns.StaticExample`).
- A search pair's value is the text between the first and the second `=`, not
  everything after the first `=`.
- Only the current router rejects an empty path. The older generations accept
  `""`, which compiles to no tokens.
- Route priority in the current router is `Object.keys` order. Array-index
  paths such as "10" come first, by value, and the other paths follow in
  insertion order. This is not simply insertion order.

## Model

| member | source | states |
|---|---|---|
| Seqs.IndexOf | src/UrlHash.ts:26 | -1 exactly when the element is absent; otherwise an index holding it, with no earlier occurrence |
| Seqs.SwapRemove | Plugins/src/mvp/Collection.ts:108-109 | overwriting a slot with the last element and shortening by one removes exactly that slot's element from the multiset of elements |
| Seqs.SwapRemoveSlots | Plugins/src/mvp/Collection.ts:108-109 | after the removal the vacated slot holds the former last element and every other remaining slot is unchanged |
| Text.Split | src/Hash.ts:11-14 | `split` yields at least one piece, no piece holds the separator, and joining the pieces gives the input back |
| Text.SplitJoin | src/Hash.ts:25-29 | splitting a join of separator-free pieces gives the pieces back |
| Text.NonEmpty | src/Hash.ts:28 | `filter(t => t !== "")` keeps only non-empty pieces of the input and changes nothing when none is empty |
| Text.NonEmptyAppend | src/Hash.ts:28 | filtering distributes over concatenation |
| Text.LowerChar | src/Route.ts:93 | ASCII lower-casing maps `A`-`Z` to `a`-`z` and leaves every other character alone |
| Text.Lower | src/Route.ts:93 | a lowered string has the same length and is lowered character by character |
| Text.LowerIdempotent | src/Route.ts:93 | lower-casing twice is lower-casing once, so a lowered string equals its original ignoring case |
| HashParsing.SplitFirst | src/Hash.ts:18-21 | the first piece of `split` is the text before the first separator, and the rest splits the text after it |
| HashParsing.ParseSearchPair | src/Hash.ts:17-23 | the key is the text before the first `=`, the value is the text up to the second `=` or the end, and the value is "" when there is no `=` |
| HashParsing.PairRoundTrip | src/Hash.ts:17-23 | parsing `key=value` of an `=`-free pair gives the pair back |
| HashParsing.ParsePairs | src/Hash.ts:14 | one pair per piece, in order |
| HashParsing.ParseSearch | src/Hash.ts:6-15 | no pairs exactly when there is no `?`; otherwise one pair per `&`-piece of the text after the first `?` |
| HashParsing.SearchRoundTrip | src/Hash.ts:6-23 | a non-empty list of plain pairs, printed with `&` and `=` and parsed again, comes back unchanged |
| HashParsing.HashWithoutSearch | src/Hash.ts:31-33 | the text before the `?`: a prefix of the fragment, the whole fragment without `?`, otherwise exactly `searchIndex` characters |
| HashParsing.ParseTokens | src/Hash.ts:25-33 | the tokens are exactly the non-empty `/`-pieces of the text before the first `?` (all of it when there is none), in order; so no token is empty or holds `/` or `?` |
| HashParsing.StoredValueStripsOneMark | src/Hash.ts:49-50 | null becomes ""; exactly one leading `#` is stripped when stripping is on, and the string is kept verbatim otherwise |
| HashParsing.ParseFragment | src/Hash.ts:48-56 | the stored value is the input, there are no search pairs exactly when there is no `?`, and tokens are non-empty and free of `/` and `?` |
| HashParsing.TokensBeforeQuery | src/Hash.ts:6-33 | for a path without `?` followed by `?` and any query: the tokens are the non-empty `/`-pieces of the path and the search pairs are one per `&`-piece of the query; without the `?` part there are no pairs |
| HashParsing.TokensOfAbsolute | src/Hash.ts:25-33 | the tokens of `/path` without `?` are the non-empty `/`-pieces of `path`, in order |
| HashParsing.TokensRoundTrip | src/Hash.ts:25-33 | a token list printed as an absolute path and parsed again comes back unchanged |
| HashParsing.SearchOfFragment | src/Hash.ts:51-54 | the search pairs of `path?search` are exactly the printed pairs, whatever the path |
| KeyOrder.KeysOrderedPairwise | src/Router.ts:21-23 | in `Object.keys` order every array-index key precedes every other key, and index keys ascend by value |
| KeyOrder.KeySlot | src/Router.ts:38 | a non-index key goes last |
| KeyOrder.KeySlotBetween | src/Router.ts:38 | an index key goes just after the leading index keys of smaller value |
| KeyOrder.InsertKey | src/Router.ts:38 | adding a key lengthens the key list by one |
| KeyOrder.InsertKeyContents | src/Router.ts:38 | the new key list holds exactly the old keys and the new one |
| KeyOrder.InsertKeyOrdered | src/Router.ts:21-23 | adding a key keeps the list in `Object.keys` order |
| KeyOrder.PlainKeysInsertionOrder | src/Router.ts:21-23 | non-index keys keep their insertion order, and a new non-index key is listed after all of them |
| KeyOrder.KeyOrderExample | src/Router.ts:21-23 | adding "home", "10", "2" lists them as "2", "10", "home" |
| RoutePatterns.LetterRun | src/Route.ts:12 | the greedy `[a-zA-Z]+` run: all letters, ended by a non-letter or the end |
| RoutePatterns.FindParam | src/Route.ts:12 | the leftmost index where `{letters}` matches, or -1 when it matches nowhere |
| RoutePatterns.ParamName | src/Route.ts:30 | the captured group is one or more letters |
| RoutePatterns.ExecParam | src/Route.ts:27 | `exec` fails exactly when the expression matches nowhere; otherwise it captures the letters of the leftmost match |
| RoutePatterns.CreateToken | src/Route.ts:26-33 | a piece is static, named by itself, exactly when the expression matches nowhere; otherwise it is dynamic and named by the leftmost capture |
| RoutePatterns.StaticPiece | src/Route.ts:26-33 | a piece without `{` is a static token named by the piece |
| RoutePatterns.DynamicPiece | src/Route.ts:26-33 | `{name}` after a `{`-free prefix makes a dynamic token `name`, whatever follows |
| RoutePatterns.DynamicExamples | src/Route.ts:12 | `x{id}y` is dynamic `id`, and `{Id}` keeps its case |
| RoutePatterns.StaticExample | src/Route.ts:12 | `{id1}` is the static token `{id1}` |
| RoutePatterns.CompileAll | src/Route.ts:17-23 | one token per piece, in order |
| RoutePatterns.CompileAllSnoc | src/Route.ts:17-23 | compiling one more piece appends its token |
| RoutePatterns.MatchTokens | src/Route.ts:81-99 | the index loop returns true exactly when the counts are equal and every static token equals its fragment token ignoring case |
| RoutePatterns.CreateTokensNames | src/Route.ts:14-24 | `createTokens` gives one token per non-empty `/`-piece of the path, each with a non-empty name free of `/`; with `RoutePatterns.SelfMatch`, a route matches its own path |
| RoutePatterns.SelfMatch | src/Route.ts:14-24 | a route compiled from a `?`-free path matches the fragment of that path |
| RoutePatterns.MatchesIgnoresCase | src/Route.ts:93 | a match survives lower-casing the fragment tokens |
| RoutePatterns.SearchFold | src/Route.ts:35-42 | `parseSearch` holds exactly the keys of the search pairs; `RoutePatterns.SearchFoldLookup` gives each key's value |
| RoutePatterns.SearchFoldLookup | src/Route.ts:35-42 | a key is in the folded search exactly when some pair has it, and it maps to the last such pair's value |
| RoutePatterns.Overlay | src/Route.ts:120-129 | the keys after the token fold are the base keys plus the dynamic tokens' names |
| RoutePatterns.RouteParams | src/Route.ts:120-129 | `parseParams` holds exactly the search keys and the dynamic tokens' names; `RoutePatterns.ParamsLookup` gives each value |
| RoutePatterns.OverlayLookup | src/Route.ts:120-129 | dynamic tokens write their fragment token over the base, and the last token with a name decides it |
| RoutePatterns.ParamsLookup | src/Route.ts:120-129 | params hold exactly the dynamic names and search keys; a dynamic token beats a search pair with the same key |
| Navigation.FirstMatchFrom | src/Router.ts:56-67 | the first matching index at or after a start, or -1 when none matches |
| Navigation.FirstMatch | src/Router.ts:56-67 | the first matching index: it matches, no earlier one does, and -1 means none matches |
| Navigation.FirstMatchAt | src/Router.ts:58-63 | a matching index with no earlier match is the first match |
| Navigation.Navigate | src/Router.ts:41-83 | one navigation: the URL is replaced exactly when nothing matches the fragment and a default exists, the fragment is then the default's, and the started route is the first match of the final fragment or none |
| Navigation.NavigateDirect | src/Router.ts:42-47 | a direct match, or a miss without a default, keeps the parsed fragment and writes no URL |
| Navigation.NavigateFallback | src/Router.ts:49-50 | a miss with a default writes `pathname#default` and searches again under the default |
| Navigation.DirectMatchStartsFirst | src/Router.ts:41-47 | when some route matches the fragment, the URL is not replaced and the first match, at or before it, is started |
| Navigation.MissWithoutDefault | src/Router.ts:49-53 | with no default, a miss only reparses the fragment and starts nothing |
| HashRouter.Hash.constructor | src/Hash.ts:40-42 | a new fragment is "" with no tokens and no search pairs |
| HashRouter.Hash.SetValue | src/Hash.ts:48-56 | value, search pairs and tokens are all recomputed from the assigned text alone, with null as "" and one `#` stripped |
| HashRouter.Route.constructor | src/Route.ts:65-68 | the route keeps its path and callback, its tokens are the compiled path, and its params are empty |
| HashRouter.Route.Create | src/Route.ts:56-69 | throws exactly for a path that is not a non-empty string (checked first) or a callback that is not a function |
| HashRouter.Route.MatchesHash | src/Route.ts:81-99 | `matches` holds exactly when the tokens match the fragment's tokens |
| HashRouter.Route.Start | src/Route.ts:105-129 | params become search pairs overlaid by dynamic tokens, and the callback is called once with `{path, params}`; a throw is caught |
| HashRouter.Router.constructor | src/Router.ts:11-16 | no default, no paths, no current route, an empty fragment |
| HashRouter.Router.Current | src/Router.ts:25-31 | path and params are both null exactly when there is no current route, otherwise they are that route's |
| HashRouter.Router.Paths | src/Router.ts:21-23 | `paths` lists one key per stored route, the route's path; `Valid` keeps each once, and the constructor and `HashRouter.Router.AddRoute` keep them in `Object.keys` order |
| HashRouter.Router.AddRoute | src/Router.ts:33-39 | succeeds exactly for a non-empty string path not yet a key with a function callback; throws on a path already a key, then on an invalid path or callback, changing nothing; otherwise exactly one fresh route is added, at its `Object.keys` place, holding the path, the tokens compiled from the path, the callback and no params; every route keeps the tokens of its own path (`Valid`) |
| HashRouter.Router.Insert | src/Router.ts:38 | storing under a new key inserts the route where `Object.keys` lists its path and keeps that order |
| HashRouter.Router.FindRoute | src/Router.ts:56-67 | the first route in `paths` order that matches the fragment, or null |
| HashRouter.Router.Start | src/Router.ts:41-54 | the fragment, written URL and current route are those of `Navigation.Navigate`; only the current route is started, once; no other route changes |
| HashRouter.Router.StartDefaultRoute | src/Router.ts:69-83 | writes `pathname#defaultHash`, reparses the default, and starts its first match or sets the current route to null |
| DcoreRouting.UrlHash.constructor | src/UrlHash.ts:14-17 | a new fragment is "" with no tokens, no query pairs and `?` at -1 |
| DcoreRouting.UrlHash.SetValue | src/UrlHash.ts:23-31 | a falsy value is stored as "", anything else verbatim; both lists are rebuilt from the new text alone |
| DcoreRouting.UrlHash.AnyQueryParams | src/UrlHash.ts:33-35 | for a consistent hash, true exactly when the text has a `?`, which is exactly when there are query params |
| DcoreRouting.UrlHash.PopulateQueryParams | src/UrlHash.ts:37-46 | without `?` the list is left alone; otherwise one pair per `&`-piece after the `?` |
| DcoreRouting.UrlHash.GetValueWithoutQuery | src/UrlHash.ts:63-69 | the `substring` arithmetic yields the text before the first `?` |
| DcoreRouting.UrlHash.PopulateTokens | src/UrlHash.ts:56-61 | the tokens are those `HashParsing.ParseTokens` gives, that is exactly the non-empty `/`-pieces of the URL before its first `?`, in order |
| DcoreRouting.PopulateTokens | dist/dcore-routing.ts:154-161 | the `forEach` pushing a token per non-empty piece yields the compiled pattern |
| DcoreRouting.Route.constructor | dist/dcore-routing.ts:103-105 | the route keeps its pattern and callback, its tokens are the compiled pattern, and it has no params yet |
| DcoreRouting.Route.Create | dist/dcore-routing.ts:93-106 | throws exactly for a non-string pattern (checked first) or a non-function callback; "" is accepted |
| DcoreRouting.Route.Equals | dist/dcore-routing.ts:118-136 | `equals` holds exactly when the tokens match the fragment's tokens |
| DcoreRouting.Route.Start | dist/dcore-routing.ts:142-152 | params become query pairs overlaid by dynamic tokens, and the callback gets them once, with the pattern in the builds that pass it; a throw is caught |
| DcoreRouting.Routing.constructor | src/Routing.ts:13-16 | no default, no routes, no current route, an empty fragment |
| DcoreRouting.Routing.GetRoutes | src/Routing.ts:59-61 | the patterns in registration order |
| DcoreRouting.Routing.AnyRoutes | src/Routing.ts:66-68 | true exactly when some pattern is registered |
| DcoreRouting.Routing.GetCurrentRoute | src/Routing.ts:49-54 | pattern and params are null without a current route, otherwise they are that route's |
| DcoreRouting.Routing.Register | src/Routing.ts:23-29 | succeeds exactly for a string pattern not yet registered with a function callback; throws on a duplicate pattern, then on an invalid pattern or callback, changing nothing; otherwise appends exactly one fresh route |
| DcoreRouting.Routing.FindRoute | src/Routing.ts:70-79 | the first registered route equal to the fragment, or null |
| DcoreRouting.Routing.StartRoute | src/Routing.ts:34-47 | the fragment, written URL and current route are those of `Navigation.Navigate` without `#` stripping; only the current route is started, once |
| DcoreRouting.Routing.StartDefaultRoute | src/Routing.ts:81-95 | writes `pathname#defaultUrl`, reparses it verbatim, and starts its first match or sets the current route to null |
| EarlyRouting.Route.constructor | Plugins/dist/dcore-routing.ts:104-106 | the route keeps its pattern and callback, and its tokens are the compiled pattern |
| EarlyRouting.Route.Create | Plugins/dist/dcore-routing.ts:94-107 | throws exactly for a non-string pattern (checked first) or a non-function callback |
| EarlyRouting.Route.Equals | Plugins/dist/dcore-routing.ts:119-137 | `equals` holds exactly when the tokens match the fragment's tokens |
| EarlyRouting.Route.Start | Plugins/dist/dcore-routing.ts:143-148 | the callback is called once with the params alone; the call fails exactly when the callback throws |
| EarlyRouting.RouteConfig.constructor | Plugins/dist/dcore-routing.ts:229-231 | no default, no routes, an empty fragment |
| EarlyRouting.RouteConfig.GetRoutes | Plugins/dist/dcore-routing.ts:268-270 | the patterns in registration order |
| EarlyRouting.RouteConfig.HasRoutes | Plugins/dist/dcore-routing.ts:275-277 | true exactly when some pattern is registered |
| EarlyRouting.RouteConfig.Register | Plugins/dist/dcore-routing.ts:238-245 | succeeds exactly for a string pattern not yet registered with a function callback; throws on a duplicate pattern, then on an invalid pattern or callback, changing nothing; otherwise appends exactly one fresh route |
| EarlyRouting.RouteConfig.FindRoute | Plugins/dist/dcore-routing.ts:198-207 | the first registered route equal to the fragment, or null |
| EarlyRouting.RouteConfig.StartRoute | Plugins/dist/dcore-routing.ts:250-263 | navigates as `Navigation.Navigate`; the started route's callback is called once and its throw escapes as the result; no other route changes |
| EarlyRouting.RouteConfig.StartDefaultRoute | Plugins/dist/dcore-routing.ts:209-223 | writes `pathname#defaultUrl`, reparses it, and starts its first match, whose throw escapes |
| Mvp.ListenersOf | Plugins/dist/dcore-mvp.ts:63 | a type never registered has an empty list |
| Mvp.Dispatch | Plugins/dist/dcore-mvp.ts:85-87 | one handler call per listener |
| Mvp.NotifyReaches | Plugins/dist/dcore-mvp.ts:80-88 | a listener is called by `notify` exactly when it is registered for the type, once per registration |
| Mvp.OffAsWrittenList | Plugins/dist/dcore-mvp.ts:62-75 | on a match the last entry is dropped, whichever entry matched; otherwise nothing changes |
| Mvp.Without | Plugins/dist/dcore-mvp.ts:62-75 | the corrected `off` removes exactly one occurrence of the matched entry, and nothing when none matches |
| Mvp.OffAsWrittenDropsOther | Plugins/dist/dcore-mvp.ts:68-69 | detaching the first of two listeners as written keeps it and drops the other |
| Mvp.RegisteredOn | Plugins/dist/dcore-mvp.ts:48-52 | `on` adds exactly one registration of its entry under its type and no other |
| Mvp.RegisteredWithout | Plugins/dist/dcore-mvp.ts:62-75 | the corrected `off` of a registered entry removes exactly one registration of it and no other |
| Mvp.Model.constructor | Plugins/dist/dcore-mvp.ts:35 | a new model has no listeners |
| Mvp.Model.On | Plugins/dist/dcore-mvp.ts:43-54 | returns false exactly for an empty type and then changes nothing; otherwise appends the entry to that type's list |
| Mvp.Model.OffAsWritten | Plugins/dist/dcore-mvp.ts:62-75 | the loop as written: true exactly when an entry matches, and then the list loses its last entry |
| Mvp.Model.Off | Plugins/dist/dcore-mvp.ts:62-75 | the corrected loop: true exactly when an entry matches, and then that entry is removed by moving the last one into its slot |
| Mvp.Model.Notify | Plugins/dist/dcore-mvp.ts:80-88 | calls a snapshot of the type's listeners in list order with the data, and nothing for an unregistered type |
| Mvp.Model.Change | Plugins/dist/dcore-mvp.ts:93-95 | notifies "change" with the model itself |
| Mvp.Model.Destroy | Plugins/dist/dcore-mvp.ts:100-102 | notifies "destroy" with the model itself |
| Mvp.AsModel | Plugins/dist/dcore-mvp.ts:17-28 | null exactly for a null or non-object target; otherwise a model with no listeners |
| Mvp.RemoveStep | Plugins/src/mvp/Collection.ts:100-110 | one iteration of `removeRange`: a held model moves from the list to the deleted ones, and an absent one is skipped |
| Mvp.RemoveEach | Plugins/src/mvp/Collection.ts:93-111 | the kept and deleted models together are the original list, and only listed models are deleted |
| Mvp.RemoveEachStep | Plugins/src/mvp/Collection.ts:99-111 | the loop processes the listed models one by one, in order |
| Mvp.RemoveEachPresent | Plugins/src/mvp/Collection.ts:93-111 | removing models the list holds deletes each of them, in argument order, and keeps exactly the rest |
| Mvp.RemoveAll | Plugins/src/mvp/Collection.ts:123-125 | removing a list's own models empties it and deletes all of them |
| Mvp.Collection.constructor | Plugins/src/mvp/Collection.ts:42-47 | constructing with an array holds exactly those models, in that order, and listens to each once per slot, keeping every other registration of each model |
| Mvp.Collection.ToArray | Plugins/src/mvp/Collection.ts:147-149 | the models in slot order, as a copy: later changes to the collection do not reach it |
| Mvp.Collection.Size | Plugins/src/mvp/Collection.ts:49-51 | the number of slots, duplicates counted |
| Mvp.Collection.Add | Plugins/src/mvp/Collection.ts:57-61 | a null model is ignored; otherwise it is `addRange([model])`, and the model keeps every registration but the collection's own |
| Mvp.Collection.AddRange | Plugins/src/mvp/Collection.ts:67-79 | a non-array is ignored; otherwise every model is appended in order and listened to, and "added-items" fires exactly once, even for an empty array; each listed model keeps every registration but the collection's own, and only the listeners of listed models change |
| Mvp.Collection.AttachEach | Plugins/src/mvp/Collection.ts:72-76 | the loop attaches both handlers to every model and appends it, in order, and every listed model keeps every other registration it had before the loop |
| Mvp.Collection.Attach | Plugins/src/mvp/Collection.ts:73-75 | one step appends the model and sets its listeners to the old ones with the change entry and the destroy entry appended (`AttachedTo`), keeping every other registration; no other model's listeners change |
| Mvp.Collection.Remove | Plugins/src/mvp/Collection.ts:85-87 | `removeRange([model])`; the model keeps every registration but the collection's own |
| Mvp.Collection.RemoveRange | Plugins/src/mvp/Collection.ts:93-117 | a non-array is ignored; otherwise the list becomes what `RemoveEach` keeps, removed models stop being listened to, and "deleted-items" fires once with them exactly when there are any; each listed model keeps every registration but the collection's own, and only the listeners of listed models change |
| Mvp.Collection.RemoveEachHeld | Plugins/src/mvp/Collection.ts:98-111 | the loop removes what `RemoveEach` removes and returns the deleted models; the listed models keep every registration but the collection's own |
| Mvp.Collection.RemoveNext | Plugins/src/mvp/Collection.ts:99-111 | the loop body keeps its invariant: after one more listed model, the list and the deleted models are `RemoveEach` of one more model |
| Mvp.Collection.RemoveOne | Plugins/src/mvp/Collection.ts:100-110 | one iteration is one `RemoveStep`, and the model keeps every registration but the collection's own |
| Mvp.Collection.Detach | Plugins/src/mvp/Collection.ts:106-109 | the model's listeners become `DetachedFrom` the old ones (one change entry and one destroy entry removed, every other registration kept) and its slot is swap-removed; no other model's listeners change |
| Mvp.Collection.Unlisten | Plugins/src/mvp/Collection.ts:106-107 | the listeners become the old ones with one change entry and one destroy entry taken out by the corrected `off` (`DetachedFrom`, in terms of `Without`): each handler loses exactly one registration and every other registration is kept |
| Mvp.Collection.Clear | Plugins/src/mvp/Collection.ts:123-125 | the list is emptied, with one "deleted-items" carrying the former list exactly when it was non-empty; every former member keeps every registration but the collection's own |
| Mvp.Collection.Contains | Plugins/src/mvp/Collection.ts:131-133 | true exactly when the model occupies a slot |
| Mvp.Collection.Any | Plugins/src/mvp/Collection.ts:139-141 | true exactly when the list is non-empty |
| Mvp.Collection.OnItemChange | Plugins/src/mvp/Collection.ts:23-25 | a member's change re-emits "updated-item" with the member |
| Mvp.Collection.OnItemDestroy | Plugins/src/mvp/Collection.ts:27-29 | a member's destroy removes it as `removeRange([item])`; the item keeps every registration but the collection's own |
| Mvp.AttachCounts | Plugins/src/mvp/Collection.ts:73-74 | attaching adds exactly one registration of each of the collection's two entries and changes no other registration count or other type's list |
| Mvp.DetachCounts | Plugins/src/mvp/Collection.ts:106-107 | detaching an attached collection removes exactly one registration of each of its two entries and changes nothing else |
| Mvp.DetachUndoesAttach | Plugins/src/mvp/Collection.ts:73-74 | detaching after attaching restores every registration count, and every other type's list |
| Mvp.AttachSameOthers | Plugins/src/mvp/Collection.ts:73-74 | attaching keeps every registration that is not one of the collection's own entries |
| Mvp.DetachSameOthers | Plugins/src/mvp/Collection.ts:106-107 | detaching an attached collection keeps every registration that is not one of its own entries |
| Mvp.MemberHearsCollection | Plugins/src/mvp/Collection.ts:73-74 | a member's change and destroy reach the collection |
| Mvp.FormerMemberUnheard | Plugins/src/mvp/Collection.ts:106-107 | once removed, a model's change and destroy no longer reach the collection |
| Services.ServiceConfig.constructor | Plugins/src/services/ServiceConfig.ts:15 | a new registry is empty |
| Services.ServiceConfig.Add | Plugins/src/services/ServiceConfig.ts:22-37 | throws for an id that is not a non-empty string, then for a non-function creator, then for a registered id, changing nothing; otherwise stores the creator |
| Services.ServiceConfig.Get | Plugins/src/services/ServiceConfig.ts:44-51 | throws for an unknown id; otherwise calls the creator again and returns its result or propagates its throw |
| Services.AddedIsFound | Plugins/src/services/ServiceConfig.ts:35-50 | what `add` stores is what `get` calls, and other ids are unaffected |

## Left out

- Browser I/O is not modelled. This covers `window.location`, `hashchange`,
  `console.warn` and `console.error` (no-ops), and the install files and
  install tails that bind them. `history.replaceState` appears only as the
  `replaced` list, and `location.pathname` is a parameter.
- The `createPipeline`/`createHook` wrapping of `route` and `start` is not
  modelled: it is an API of the host framework.
- Route callbacks and service creators are not run. Each call is recorded,
  with a `throws` flag standing for an exception. Model event handlers are
  recorded the same way but carry no such flag (see Mvp.Model.Notify below).
  Reentrancy is therefore not modelled. A member's change or destroy reaches
  its collection as a recorded call, and the collection's reaction is the
  separate methods `Mvp.Collection.OnItemChange` and
  `Mvp.Collection.OnItemDestroy`.
- `Object.freeze` on params is not modelled. Params are immutable values here.
- Inherited prototype keys of `{}` are not modelled. The services map and the
  listener map are plain maps, so ids such as "toString" behave like any
  other key.
- RoutePatterns.RouteParams: for the DcoreRouting and EarlyRouting
  generations, the source builds the params object on `{}` and then assigns
  the search pairs and the dynamic tokens to it (dist/dcore-routing.ts:173-186,
  Plugins/dist/dcore-routing.ts:169-182,
  Plugins/dist/dcore-routing-1.0.1.ts:175-188). There, a search pair or a dynamic
  token named `__proto__` is silently dropped (assigning a string to an
  object's `__proto__` does nothing); the model keeps it like any other name. The current router builds
  its params with `Object.create(null)` and has no such case.
- The `tokens`, `search` and `getTokens` getters that return copies are not
  separate members: sequences are values.
- `Collection.forEach` is not modelled: it only iterates with a caller's
  function.
- View, Presenter, the DOM polyfills and the build files are not part of this
  model.
- Text.Lower: `toLowerCase` is modelled for ASCII only. Unicode case mapping
  is not modelled.
- HashRouter.Route.Start: requires the fragment to have at least as many
  tokens as the route. The routers call `start` only after a match, when the
  counts are equal. Reading past the fragment's tokens (`undefined`) is not
  modelled.
- DcoreRouting.Route.Start: the same requirement as HashRouter.Route.Start,
  for the same reason.
- EarlyRouting.Route.Start: the same requirement as HashRouter.Route.Start,
  for the same reason.
- Mvp.AsModel: returns a new model rather than the target object with the
  model's fields copied onto it. Identity with the target is not modelled.
- Mvp.Collection.AddRange: requires that the collection's handlers are
  registered on each added model exactly once per slot the model already
  holds (`TracksAll`). In the source only the collection can register those
  module-private handlers, so this holds as long as every removal uses the
  corrected `off` (`Mvp.Model.Off`). With the bundled `off` (see Findings),
  removing a model whose collection entry is followed by a later entry under
  the same event type leaves the collection's entry in place; re-adding that
  model afterwards, which the source accepts
  (Plugins/src/mvp/Collection.ts:57-61,67-76), is outside the model.
- Mvp.Collection.Add: the same requirement as Mvp.Collection.AddRange, with
  the same consequence for a model re-added after a removal with the bundled
  `off`.
- Mvp.Collection.constructor: the same requirement as
  Mvp.Collection.AddRange, met by every model not held by this new
  collection.
- Mvp.Collection: in the source `Collection` extends `Model`
  (Plugins/src/mvp/Collection.ts:31-39), so a collection can itself be a
  member of another collection, and its inherited `change` and `destroy`
  notify with the collection as the model. Here `Collection` is a separate
  class whose listener lists live in its `events` model; it has no `Change`
  or `Destroy` of its own, and a collection held as a member of another
  collection is not modelled (one can join another only through its
  `events` model).
- Mvp.Model.Notify: handlers cannot throw in this model. In the source,
  `notify` calls them in a `forEach` with no try/catch
  (Plugins/dist/dcore-mvp.ts:85-87). A throwing handler would therefore end
  the notification, skip the handlers after it and pass the exception to the
  caller of `notify`. None of that is modelled: every listed handler is
  recorded as called.
- Mvp.Collection.RemoveRange: detaches with the corrected `off`
  (`Mvp.Model.Off`), not with the bundled one (see Findings). With the bundled
  `off`, the collection's own entry stays registered whenever a later entry
  follows it under the same event type, and that later entry is lost. The
  contracts below hold for the corrected `off` only.
- Mvp.Collection.Remove: holds for the corrected `off` only, as for
  Mvp.Collection.RemoveRange.
- Mvp.Collection.Clear: holds for the corrected `off` only, as for
  Mvp.Collection.RemoveRange.
- Mvp.Collection.OnItemDestroy: holds for the corrected `off` only, as for
  Mvp.Collection.RemoveRange.
- Mvp.Collection.RemoveEachHeld: holds for the corrected `off` only, as for
  Mvp.Collection.RemoveRange.
- Mvp.Collection.RemoveOne: holds for the corrected `off` only, as for
  Mvp.Collection.RemoveRange.
- Mvp.Collection.Detach: holds for the corrected `off` only, as for
  Mvp.Collection.RemoveRange.
- Mvp.Collection.Unlisten: holds for the corrected `off` only, as for
  Mvp.Collection.RemoveRange.
- Mvp.Collection.RemoveNext: holds for the corrected `off` only, as for
  Mvp.Collection.RemoveRange.
- Mvp.FormerMemberUnheard: holds for the corrected `off` only. With the
  bundled `off`, a removed model that has a later entry under "change" or
  "destroy" keeps the collection's entry and still reaches the collection.
- Mvp.MemberHearsCollection: holds for the corrected `off` only. It needs
  `Valid()`, which the bundled `off` can break while the model stays a member:
  after `m.on("change", h)` and `c.add(m)`, "change" holds `[h, collection
  entry]`, and `m.off("change", h)` then drops the collection's entry instead
  of `h`, so `m.change()` no longer reaches `c` although `c` still holds `m`.
- Services.ServiceConfig.Get: what a creator returns is modelled as an
  `Instance` value naming the creator and the call that produced it. Creators'
  own behaviour is not modelled, so the model does not say whether two calls of
  one creator return the same object or different ones. What it does state is
  that `get` stores nothing: every successful `get` appends one call of the
  stored creator to `calls`.

## Findings

| source | as written | input that shows it | evidently intended | confidence | as-written member | corrected member |
|---|---|---|---|---|---|---|
| Plugins/dist/dcore-mvp.ts:62-75 | on a match, `off` assigns the last entry to a local variable and decrements the length, so the last entry is dropped rather than the matched one (the same code is in Plugins/dist/dcore-mvp-1.0.0.ts:61-74 and Plugins/dist/dcore-mvp.js:53-65) | two entries a and b under one event type, then `off` of a: the list becomes [a], so a is still called and b no longer is. In a collection: a model holding the collection's "change" entry a and a user handler b added after it, then `remove` of the model: the model still reaches the collection and b is no longer called, and re-adding the model later registers the collection a second time. A user handler h registered before `add`, then `off` of h: the list keeps h and loses the collection's entry, so a member no longer reaches its collection | move the last entry into the matched slot, then shorten the list, so exactly the matched entry is removed | not executed | Mvp.OffAsWrittenDropsOther | Mvp.Model.Off |
