# Interest search: a Dafny model

This project models the search logic of the ConvoseApp interest picker
(`App.tsx`). A user types into a search box. After a 200 ms debounce the
component either re-ranks the interests it already holds or asks the
autocomplete service for new ones. It then shows a ranked list of matching
interests. Three pure pieces carry that logic, and each becomes Dafny here:

- **Ranking** (`filterInterests`). The query is trimmed and lower-cased into a
  search word. The interests whose lower-cased name starts with the word
  ("prefix matches") keep their order. After them come the interests whose
  name contains the word without starting with it ("inner matches"), sorted
  by their `match` score, highest first. The sort is stable. Everything else
  is dropped. In the model this is `Ranking.Rank(q, items)`, defined as
  `RankWord(Normalize(q), items)`.
- **Cache gate** (the body of the debounce timer). A non-empty search is
  served from the cache when some cached name, lower-cased, starts with the
  lower-cased search. The gate does not trim the search, although the ranking
  does. Otherwise a fetch starts. This is `Gate.HasMatchingInterest`.
- **Search state** (`allInterests`, `filteredInterests`). The state changes
  through pure transitions. `Search.Commit` is the timer firing. `StartFetch`
  and `FetchSettled` are the two halves of `fetchInterests`. `Step` and `Run`
  replay a sequence of such events.

Modules: `Options` (optional payload field), `Text` (JavaScript `trim`,
`toLowerCase`, `startsWith`, `includes`), `Interests` (the record and the
order-keeping filter `Select`), `Sorting` (the stable score sort), `Ranking`,
`Gate`, `Search`.

Behaviour worth knowing:

- A query that trims to nothing ranks to the whole list, not to an empty
  list. Every name starts with the empty word (`Ranking.RankBlankQuery`).
- There is no guard against stale responses. Whichever request settles last
  decides the state, even if it was sent earlier (`Search.LastSettledWins`).
- There is no loading flag, and a failed fetch leaves both lists as they were.
- A search made only of white space is not short-circuited. It passes the
  `search.length >= 1` test and reaches the gate. When some cached name starts
  with that white space it shows the whole cache; otherwise `fetchInterests`
  clears the list (`Search.BlankSearchNeverFetches`).
- The cache is not tagged with the query that produced it.

## Model

| member | source | states |
|---|---|---|
| Text.Trim | App.tsx:26 | `trim` removes exactly the leading and trailing ECMAScript white space: the result is a slice of the input, every removed character is white space, and the result neither starts nor ends with white space |
| Text.Lower | App.tsx:51 | `toLowerCase` maps each character on its own and keeps the length (ASCII letters only) |
| Text.StartsWithLowerContainsNormalized | App.tsx:51-53 | a name that starts with the lower-cased search contains the trimmed, lower-cased search, so the untrimmed gate test implies the trimmed ranking test |
| Interests.SelectCounts | App.tsx:52-59 | `filter` keeps each item that passes the test exactly as often as it occurs, and removes each item that fails it |
| Interests.SelectMembers | App.tsx:52-59 | an item is in the filtered list iff it is in the input and passes the test; the filter never adds an occurrence |
| Interests.MatchSplits | App.tsx:52-59 | the prefix group and the inner group split the matching items with no overlap and no loss: their multisets add up to the multiset of all matches |
| Sorting.SortByScore | App.tsx:60 | the descending sort on the `match` score yields non-increasing scores, a permutation of its input, and equal scores in input order (stability of `Array.prototype.sort`) |
| Sorting.SortByScoreUnique | App.tsx:60 | any score-sorted list that keeps each score's items in input order equals `SortByScore` of the input, so the stable sort is fully determined |
| Sorting.SortedIsFixpoint | App.tsx:60 | sorting a list that is already in non-increasing score order returns it unchanged |
| Ranking.RankCounts | App.tsx:50-61 | the ranked list holds exactly the items whose lower-cased name contains the search word, each as often as the input does, and never more than the input |
| Ranking.RankMembers | App.tsx:51-59 | an item is shown iff it is in the input and its lower-cased name contains the trimmed, lower-cased query; items matching neither group are dropped |
| Ranking.RankWordPrefixFirst | App.tsx:61 | in the result, every prefix match comes before every inner match |
| Ranking.RankWordKeepsPrefixOrder | App.tsx:52-54 | the prefix matches of the result are the prefix matches of the input, in the same order (no re-sorting) |
| Ranking.RankWordOrdersInnerMatches | App.tsx:55-60 | the inner matches of the result have non-increasing scores, and those with equal scores keep their input order |
| Ranking.BlockSplit | App.tsx:61 | a list of matches whose prefix matches come first is its prefix matches followed by its inner matches |
| Ranking.RankWordIsRanked | App.tsx:50-61 | the ranking satisfies all of the above together (`RankedFor`) |
| Ranking.RankWordUnique | App.tsx:50-61 | any list satisfying `RankedFor` equals the ranking, so those properties determine the order |
| Ranking.RankCharacterized | App.tsx:50-61 | a list is `Rank(q, items)` iff it satisfies `RankedFor` for the normalised query (both directions) |
| Ranking.RankIdempotent | App.tsx:50-61 | ranking a ranked list again with the same query returns it unchanged |
| Ranking.RankDistinct | App.tsx:52-61 | if no interest occurs twice in the input, none occurs twice in the ranked list |
| Ranking.RankBlankQuery | App.tsx:51-54 | a query that trims to nothing returns the input list unchanged, because every name starts with the empty word |
| Gate.HasMatchingInterest | App.tsx:67-69 | `some` holds iff some cached interest's lower-cased name starts with the lower-cased, untrimmed search |
| Gate.ReuseShowsWitnesses | App.tsx:67-75 | every cached interest that makes the gate choose reuse appears in the re-ranked list |
| Gate.ReuseIsNeverEmpty | App.tsx:72-76 | when the gate chooses reuse, the displayed list is not empty |
| Gate.GateDoesNotTrim | App.tsx:68 | with "cat" cached, the search "ca " fails the gate and is fetched, although ranking the cache for it would show "cat" |
| Search.StartFetch | App.tsx:25-30 | a request is issued iff the query does not trim to nothing; the request carries the query as typed and leaves the state alone; otherwise the list is cleared and nothing is sent |
| Search.FetchSettled | App.tsx:41-47 | a failure leaves the state unchanged; a success replaces the cache with `autocomplete` (or `[]` when it is missing) and shows a list that is correctly ranked for the query over the new cache (`RankedFor`, which by `RankCharacterized` pins it to exactly the ranking, in order and multiplicity); its items are the cached items matching the query, none more often than cached |
| Search.Commit | App.tsx:64-83 | the cache is never changed; an empty search clears the list without a request; a request goes out iff the search is non-empty, fails the gate and does not trim to nothing, and then the state is left alone; a search that passes the gate shows the ranked cache, which is non-empty; in every other case (empty, or failing the gate and blank) the list is cleared |
| Search.CoherentShowsCached | App.tsx:42-44 | in a coherent state the displayed list is a sub-multiset of the cache (of the model's state; see Left out for the stale-closure timing) |
| Search.StepCoherent | App.tsx:25-83 | every event keeps the displayed list empty or a ranking of the cache |
| Search.RunCoherent | App.tsx:25-83 | in the model, any sequence of events keeps the state coherent, and no request issued is for a blank query (see Left out for the stale-closure timing) |
| Search.DisplayAlwaysCached | App.tsx:21-83 | in the model, from mount on, the displayed list only ever shows cached interests, each no more often than cached (see Left out for the stale-closure timing) |
| Search.FailuresChangeNothing | App.tsx:45-47 | any number of failed fetches leaves the state exactly as it was |
| Search.LastSettledWins | App.tsx:41-44 | when the user commits `a` and then `b`, both fail the gate and both are sent (in that order), and `a`'s response arrives after `b`'s, the cache and the list end up as `a`'s result although `b` was the last search (there is no staleness check) |
| Search.BlankSearchNeverFetches | App.tsx:25-76 | a search made only of white space never issues a request; when the search is non-empty and some cached name starts with it, it shows the whole cache, and otherwise it shows nothing |
| Search.CachedCatScenario | App.tsx:64-76 | with "cat" (5), "car" (9) and "scan" (2) cached, committing "cat" reuses the cache and shows only "cat" |

## Left out

- Rendering: the JSX tree, `FlatList`, the avatar placeholder URL, the
  "Please search" text and the iOS `StatusBar` call (App.tsx:17-19, 85-162).
  These are presentation only.
- The network call: the URL, headers, `fetch` and `response.json()`
  (App.tsx:31-41). A request is an output of `Commit`, and its result comes
  back as a `FetchOutcome` event.
- Debounce timing (`setTimeout`, `clearTimeout`, App.tsx:65, 80, 82). A
  `Committed` event stands for the timer firing for the latest search.
  Keystrokes that are superseded within 200 ms produce no event.
- React scheduling: the two state updates in a success are applied together,
  and the model passes the current cache to the ranking explicitly.
- Stale closures. The timer callback is created when `search` changes
  (App.tsx:64-83). Its gate (App.tsx:67) and its reuse ranking (App.tsx:75,
  through the `useCallback` default argument at App.tsx:50, 62) read the
  `allInterests` of that render. A fetch that settles inside the 200 ms window
  therefore leaves the program gating and ranking against the previous cache.
  For example, with `[cat]` cached, commit "d" (it fetches), type "c", let the
  "d" request settle with `[dog]`, and then let the "c" timer fire: the
  program shows `[cat]` while `allInterests` is `[dog]`. The model always
  reads the current cache, so the following hold of the model and not of the
  program under that timing.
- Search.CoherentShowsCached: only about the model's state; under the stale
  closure above the program can show interests that are no longer cached.
- Search.RunCoherent: holds for the model's events, which always read the
  current cache; the program's stale closure can break coherence.
- Search.DisplayAlwaysCached: holds for the model only; the stale-closure
  timing above shows `[cat]` with `[dog]` cached.
- Malformed payloads. The model only has a list or a missing field. In the
  source, any falsy `autocomplete` counts as missing. A non-array value, or an
  item without a name, makes the ranking throw after `setAllInterests` has
  already run. The error is caught and logged (App.tsx:45-46), and that
  partial update is not modelled.
- `console.error` logging (App.tsx:46).
- Text.Lower: lower-cases ASCII letters only, not the full Unicode mapping of
  `toLowerCase`. Case folding beyond ASCII is outside this model.
- Sorting.SortByScore: `match` is an integer here. In the source it is a
  JavaScript number, and NaN or infinite scores are not modelled.
- Strings are sequences of Unicode scalar values, not UTF-16 code units. The
  prefix and substring tests agree on well-formed strings.
