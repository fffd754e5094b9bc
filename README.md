# GitHub Analyzer: a verified model of its decision logic

GitHub Analyzer is a small web UI. A user types a GitHub user name or an
`owner/repo` pair, and the page lists the matching repositories as cards.
Each card shows:

- compact star, fork and contributor counts;
- a pie chart of the repository's five largest languages;
- a "Suggest" button that asks a suggestion service for related
  repositories.

This project models the decision procedures inside those components and
proves what they promise:

- **the search form** (`GithubSearch`): how a query picks a REST URL, how the
  response status becomes a message or a list, and how the four state flags
  `repos`, `loading`, `error` and `searched` decide which single panel the
  page shows.
- **the repository card** (`RepoCard`, with `LastPageLink` for the regular
  expression it runs over the `Link` header):
  - `formatStat`;
  - how the contributor count is read from the `Link` header or the body, or
    becomes "N/A";
  - when the languages map is accepted;
  - the state machine behind the "Suggest" button.
- **the language chart** (`LanguageChart`):
  - the 32-bit string hash that picks one of ten colours, and the cache that
    remembers them;
  - the pipeline that sorts the language shares and keeps the top five.
- **the server action** (`Actions`): it sorts the suggestion service's
  answer into exactly one of three result shapes.

`Js` holds the pieces of JavaScript value semantics these need:

- truthiness of `string | null`;
- `toString` of a non-negative integer;
- `parseInt`;
- `ToInt32`;
- UTF-16 code units.

`Http` describes a fetch outcome as an input value: a rejection, or a status
with lower-case header names and a body that parses or does not. `Types`
holds the `Repo` record.

The components are modelled as follows:

- **Network calls and the suggestion service** are oracles: function
  parameters such as `fetch: string -> Fetched<B>` and
  `suggest: string -> Suggestion`. Contracts can therefore name the URL or
  the repository name that was passed.
- **Locale-dependent time formatting and `toFixed(1)`** are oracles too.
- **Stateful code** — `onSubmit`, `fetchExtraData`, `handleFetchRelated` and
  `getColor` with its dictionary — is written as classes whose methods update
  their fields.
- **Pure code** is written as functions, with lemmas about them.
- **Asynchronous handlers** are split at each `await`. A `Begin…` method sets
  the state that shows while the request is pending; a `Finish…`/`Complete…`
  method takes the answer. One more method composes the two. In
  `handleFetchRelated` nothing catches a rejected call to the server action,
  so the composed method takes a flag for that case. It then stops after the
  first setters, with fetching still on.

## Model

| member | source | states |
|---|---|---|
| GithubSearch.RequestUrl | src/components/github-search.tsx:42-45 | the URL starts with `https://api.github.com/repos/` exactly when the query contains "/", and it then ends with the query; any other query sits between `https://api.github.com/users/` and `/repos?sort=updated&per_page=10` |
| GithubSearch.RequestUrlInjective | src/components/github-search.tsx:42-45 | different queries are sent to different URLs |
| GithubSearch.ResetTimeOfSeconds | src/components/github-search.tsx:56-57 | a reset header carrying N seconds is shown as the local time of N*1000 milliseconds |
| GithubSearch.Resolve | src/components/github-search.tsx:47-70 | a list is loaded exactly for a 2xx response whose body parses: `[data]` for a repository query, `data` for a user query. 404 and 403 give their own messages, with the rate-limit reset time or "later". Every other non-2xx status gives the generic message. A rejection or a failed parse gives the thrown message, or "An unknown error occurred." |
| GithubSearch.StatusFailureIgnoresBody | src/components/github-search.tsx:49-65 | a non-2xx status is answered without reading the body, and it always fails |
| GithubSearch.InitialConsistent | src/components/github-search.tsx:22-25 | the initial state and the state after the first setters are consistent, and initially no panel shows |
| GithubSearch.SettleConsistent | src/components/github-search.tsx:49-73 | finishing a started search keeps the flags consistent, clears `loading` and keeps `searched`; an error comes with no repositories |
| GithubSearch.AtMostOnePanel | src/components/github-search.tsx:98-125 | in every consistent state at most one of skeleton, error alert, results grid and empty notice renders |
| GithubSearch.LoadingView | src/components/github-search.tsx:92-103 | while loading, only the skeleton shows and the submit button is disabled |
| GithubSearch.SettledPanels | src/components/github-search.tsx:92-125 | after a search: a non-empty error shows only the alert, and an empty one only the empty notice; a non-empty list shows only the grid, an empty list only the empty notice, and a single object no panel; submit is enabled again |
| GithubSearch.SearchOutcome | src/components/github-search.tsx:34-125 | a whole search ends consistent, not loading and searched; any non-2xx status leaves no repositories and shows the alert; a successful repository query shows exactly one card |
| GithubSearch.SearchForm.constructor | src/components/github-search.tsx:22-25 | the state hooks start empty, not loading, with no error and not searched |
| GithubSearch.SearchForm.BeginSubmit | src/components/github-search.tsx:35-45 | sets loading, clears error and repos, sets searched, and returns the URL for the query |
| GithubSearch.SearchForm.FinishSubmit | src/components/github-search.tsx:47-73 | the new state is the old one settled by `Resolve`, through every early return and the `finally` |
| GithubSearch.SearchForm.OnSubmit | src/components/github-search.tsx:34-74 | `fetch` is asked for `RequestUrl(query)`; the final state is the started state settled by its answer, consistent and not loading |
| GithubSearch.SearchForm.HandleSubmit | src/components/github-search.tsx:17-19 | the schema's only rule: an empty query is stopped with the message "Please enter a GitHub username or repository." and changes nothing; any other query runs `OnSubmit` |
| RepoCard.FormatStat | src/components/repo-card.tsx:16-20 | the text ends in "m" exactly for n >= 1,000,000 and in "k" exactly for 1000 <= n < 1,000,000, after `toFixed(1)` of the quotient; below 1000 it is at most three digits that denote n |
| RepoCard.FormatStatSmall | src/components/repo-card.tsx:19 | below 1000 the text is `n.toString()`, and `parseInt` reads it back as n |
| RepoCard.FormatStatSmallInjective | src/components/repo-card.tsx:19 | different counts below 1000 are shown differently |
| RepoCard.ContributorsRequestInjective | src/components/repo-card.tsx:34 | different contributors URLs give different request URLs, so the card asks about its own repository |
| RepoCard.ContributorCount | src/components/repo-card.tsx:33-54 | a rejection or a non-2xx status gives no count. A non-empty `Link` header whose `rel="last"` pattern matches gives the captured page number. Otherwise the body decides. |
| RepoCard.ContributorsText | src/components/repo-card.tsx:36-53 | the text is "N/A" exactly when there is no count, and otherwise `formatStat` of the count; it is never the pending "..." again |
| RepoCard.LinkOverridesBody | src/components/repo-card.tsx:39-42 | a matching `Link` header decides the count whatever the body holds |
| RepoCard.NoLinkUsesBody | src/components/repo-card.tsx:47-49 | without a `Link` header the body's array length, or nothing, is the count |
| RepoCard.LastLinkCount | src/components/repo-card.tsx:38-42 | the header `<url&page=N>; rel="last"`, for a URL without `&` or a line terminator, gives N contributors |
| RepoCard.NextAndLastLinkCount | src/components/repo-card.tsx:38-42 | the header `<url1&page=A>; rel="next", <url2&page=N>; rel="last"`, for URLs without `&` or a line terminator, gives N, not A |
| RepoCard.Page42 | src/components/repo-card.tsx:38-42 | a last link to `page=42` shows "42" |
| RepoCard.LanguagesAfter | src/components/repo-card.tsx:57-67 | `languages` changes only to the map of a 2xx response with at least one key, and always does then; failures leave it as it was |
| RepoCard.LanguagesFromNull | src/components/repo-card.tsx:24 | starting from null, the card has languages exactly after an accepted non-empty map |
| RepoCard.RelatedAfter | src/components/repo-card.tsx:78-91 | fetching ends. An error becomes the message and keeps the list. A message is set together with `data` or []. Otherwise only the list is set to `data` or []. |
| RepoCard.Badges | src/components/repo-card.tsx:153-161 | badges show exactly when not fetching and the list is non-empty, one per name in list order |
| RepoCard.FetchingView | src/components/repo-card.tsx:146-153 | while fetching (and so after a rejected call to the action), the button is disabled, the spinner line shows, and no message or badge does |
| RepoCard.RelatedOutcome | src/components/repo-card.tsx:73-91 | a thrown service call shows the failure message and no badges; no suggestions show their message and no badges; suggestions show one badge per name in order and no message |
| RepoCard.LinuxSuggestions | src/components/repo-card.tsx:153-161 | two suggested names give exactly those two badges |
| RepoCard.Card.constructor | src/components/repo-card.tsx:23-27 | contributors start as "...", languages as null, the list empty, not fetching, no message |
| RepoCard.Card.SetContributors | src/components/repo-card.tsx:33-54 | `contributors` becomes `ContributorsText` of the answer; nothing else changes |
| RepoCard.Card.SetLanguages | src/components/repo-card.tsx:57-67 | `languages` becomes `LanguagesAfter` of the old value and the answer; nothing else changes |
| RepoCard.Card.FetchExtraData | src/components/repo-card.tsx:31-69 | the contributors request goes to `contributors_url?per_page=1` and the languages request to `languages_url`; both fields end as the two functions say; the suggestion state is untouched |
| RepoCard.Card.BeginFetchRelated | src/components/repo-card.tsx:74-76 | sets fetching, clears message and list, and leaves the other fields alone |
| RepoCard.Card.CompleteFetchRelated | src/components/repo-card.tsx:78-91 | the suggestion state becomes `RelatedAfter` of the old state and the result |
| RepoCard.Card.HandleFetchRelated | src/components/repo-card.tsx:73-91 | the service is asked about the card's `full_name`; the suggestion state ends as `RelatedAfter` of the started state and that answer. If the call to the action itself rejects, nothing catches it (line 77), and the state stays the started one, still fetching |
| LastPageLink.TailOf | src/components/repo-card.tsx:40 | a match of `&page=(\d+)>; rel="last"` at the front captures a non-empty run of digits |
| LastPageLink.ScanFromSpec | src/components/repo-card.tsx:40 | the lazy `.*?` stops at the first offset where the tail matches, crossing no line terminator; when it fails, no reachable offset matches |
| LastPageLink.FindFromSpec | src/components/repo-card.tsx:40 | the search finds no match exactly when no placement of the pattern fits; a match it finds fits, is the leftmost, and has the shortest `.*?` for its `<` |
| LastPageLink.LastPageSpec | src/components/repo-card.tsx:40-41 | `match` gives null exactly when the pattern fits nowhere; otherwise it gives the capture of the leftmost, laziest fit |
| LastPageLink.LastPage | src/components/repo-card.tsx:40-42 | a captured page is a non-empty run of decimal digits |
| LastPageLink.TailOfLast | src/components/repo-card.tsx:40 | `&page=N>; rel="last"` captures the digits of N |
| LastPageLink.TailOfNext | src/components/repo-card.tsx:40 | `&page=N>; rel="next"` does not match the tail |
| LastPageLink.Lazy | src/components/repo-card.tsx:40 | the lazy scan read over the text after a `<` captures a non-empty run of digits |
| LastPageLink.ScanFromLazy | src/components/repo-card.tsx:40 | the offset scan and the string scan agree on success and on what they capture |
| LastPageLink.LeadingPlain | src/components/repo-card.tsx:40 | text without `&` or a line terminator in front of the tail does not change the capture |
| LastPageLink.SingleLink | src/components/repo-card.tsx:38-41 | a single `rel="last"` link to page N whose URL has no `&` yields N |
| LastPageLink.NextAndLastLinks | src/components/repo-card.tsx:38-41 | with a `rel="next"` link first, the lazy `.*?` stretches past it and the capture is the last link's N |
| LanguageChart.ColorIndex | src/components/language-chart.tsx:20 | `Math.abs(hash) % COLORS.length` is a valid palette index |
| LanguageChart.ColorOf | src/components/language-chart.tsx:5-8 | the colour is one of the ten entries of `COLORS`, the one at the hash's index |
| LanguageChart.HashBound | src/components/language-chart.tsx:16-19 | each turn of the loop moves the hash by at most 2^31 + 2^16 - 1 |
| LanguageChart.HashExact | src/components/language-chart.tsx:16-19 | for names of up to four million code units the hash stays below 2^53 in magnitude, so the double arithmetic is exact |
| LanguageChart.EmptyNameColor | src/components/language-chart.tsx:16-20 | the empty name never enters the loop, hashes to 0 and gets `COLORS[0]` |
| LanguageChart.SingleUnitColor | src/components/language-chart.tsx:16-20 | a one-unit name hashes to its code unit and gets the colour at that value mod 10 |
| LanguageChart.ExampleColors | src/components/language-chart.tsx:16-20 | "C" gets "#FF7119"; "Go" hashes to 2312 and gets "#FFBB28" |
| LanguageChart.GetColorAsWritten | src/components/language-chart.tsx:11-15 | a cached non-empty colour is returned unchanged; a name inherited from `Object.prototype` returns that member instead of a colour, and the cache is left alone |
| LanguageChart.AsWrittenToString | src/components/language-chart.tsx:11-15 | the language "toString" gets no palette colour |
| LanguageChart.AsWrittenOtherNames | src/components/language-chart.tsx:11-22 | for every other name, with a cache of hashed colours, the code returns the hashed colour and caches it |
| LanguageChart.ColorCache.constructor | src/components/language-chart.tsx:11 | the cache starts empty and valid |
| LanguageChart.ColorCache.ComputeHash | src/components/language-chart.tsx:16-19 | the loop computes the hash over the UTF-16 code units of the name |
| LanguageChart.ColorCache.GetColor | src/components/language-chart.tsx:12-23 | a lookup of own entries only; the code as written is GetColorAsWritten, which differs for names inherited from `Object.prototype`. The colour is the hashed one and lies in `COLORS`. The cache afterwards is the old one with that name set to the colour, so no other key changes. A cached name leaves the cache as it was. |
| LanguageChart.ColorCache.GetColorTwice | src/components/language-chart.tsx:13-15 | a repeat call returns the same colour as the first, which is what the hash computes, and changes nothing |
| LanguageChart.ColorCache.CellFills | src/components/language-chart.tsx:59-61 | one fill per slice in order, each the slice's hashed colour; the cache ends holding exactly its old keys and the chart's names |
| LanguageChart.Total | src/components/language-chart.tsx:39 | a zero total means every listed count is 0 |
| LanguageChart.ShareOrder | src/components/language-chart.tsx:41 | with a positive total, shares are ordered as the byte counts are |
| LanguageChart.Slices | src/components/language-chart.tsx:40-41 | one slice per entry, in entry order, each with its own share of the total |
| LanguageChart.Insert | src/components/language-chart.tsx:42 | one insertion step of the sort: the same elements plus the new one |
| LanguageChart.InsertSorted | src/components/language-chart.tsx:42 | inserting into a list sorted by share keeps it sorted |
| LanguageChart.SortByShare | src/components/language-chart.tsx:42 | the sort gives a permutation of its input, largest share first |
| LanguageChart.SortStable | src/components/language-chart.tsx:42 | the sort is stable: slices of equal share keep their relative order |
| LanguageChart.ChartData | src/components/language-chart.tsx:39-43 | `chartData` has min(5, number of entries) slices, sorted by share, each naming a key of `data` |
| LanguageChart.ChartSize | src/components/language-chart.tsx:40-43 | `chartData` has min(5, number of keys) entries |
| LanguageChart.ChartSlices | src/components/language-chart.tsx:40-41 | each kept slice carries its own language's share of the total |
| LanguageChart.ChartKeepsLargest | src/components/language-chart.tsx:42-43 | any language left out has a share no larger than any slice kept |
| LanguageChart.ChartByteOrder | src/components/language-chart.tsx:39-43 | with a positive total the chart lists languages by byte count, largest first |
| LanguageChart.ChartZeroTotal | src/components/language-chart.tsx:39-43 | when all counts are 0 every share ties, and the first five languages are kept in the order listed |
| Actions.Classify | src/app/actions.ts:8-14 | a thrown call gives the failure shape and nothing else does; a non-empty list gives the data shape with that list; a missing or empty list gives the empty shape and nothing else does |
| Actions.GetRelatedRepos | src/app/actions.ts:5-15 | the service is asked about `repoName` unchanged; the result is one of the three shapes; it is the failure shape exactly when the service threw; the data shape carries the service's list; an error never comes with data |
| Actions.ShapesDisjoint | src/app/actions.ts:5-15 | no result has two of the three shapes |
| Actions.ClassifyShape | src/app/actions.ts:7-14 | each shape is chosen exactly by its kind of answer |
| Js.DecimalString | src/components/repo-card.tsx:19 | `toString` writes a non-empty string of decimal digits with no leading zero |
| Js.DecimalStringValue | src/components/repo-card.tsx:19 | the digits read back as the number |
| Js.ParseIntDigits | src/components/repo-card.tsx:42 | `parseInt(d, 10)` of a digit string is the number it denotes |
| Js.ParseIntDecimalString | src/components/github-search.tsx:57 | `parseInt` reads back what `toString` writes |
| Js.ToInt32 | src/components/language-chart.tsx:18 | the 32-bit result lies in [-2^31, 2^31) and is congruent to the input modulo 2^32 |
| Js.CodeUnits | src/components/language-chart.tsx:17-18 | every code unit lies in [0, 2^16), and there is at least one per character |
| Js.CodeUnitsBmp | src/components/language-chart.tsx:17-18 | inside the Basic Multilingual Plane each character is its own code unit |

## Left out

- Network I/O: `fetch` and `res.json()` are oracles or input values. The model does not perform the requests.
- The suggestion service behind `getRelatedRepos` is an oracle that returns a list or throws. Its prompt and flow are not part of this model.
- Concurrency: `fetchExtraData` awaits the contributors request before it starts the languages request, and the model keeps that order. What is not modelled is other events arriving while a handler awaits: repeated clicks, a re-run of the effect, and stale responses. Each handler is modelled as if its awaits returned before the next event. The code has no cancellation to model.
- Locale formatting: `toLocaleTimeString` (the reset time) and `toLocaleDateString` (the card's date) are left abstract. The reset time is an oracle over the milliseconds value.
- RepoCard.FormatStat: the digits of `toFixed(1)` for thousands and millions are an oracle. Only the suffix choice and the argument are stated.
- LanguageChart.Share: the `value / total` shares are exact reals rather than doubles. With a zero total the code gets NaN for every share, which its comparator treats as a tie. The model uses 0.0, which ties too. The tooltip percentage is not modelled.
- Js.ParseInt: results are exact integers. The rounding of doubles beyond 2^53 is not modelled.
- LanguageChart.HashExact: the hash is exact only for names up to four million code units. Beyond that, the double rounding of the code is not modelled.
- `Object.entries` order is an input, `order`, constrained to list every key of the map once.
- The sort is stated as a stable insertion sort. It is not a model of the engine's sort algorithm, only of its result.
- Presentational code (JSX, recharts, the toast on a failed suggestion, the skeleton card, the page shell) is not modelled. The render guards are kept as predicates.
- The server side of the search is not modelled: "at most 10, sorted by updated" is only a URL parameter, and the code neither truncates nor sorts.
- Form validation beyond the minimum length of 1 is library behaviour and is not modelled.
- JSON bodies are reduced to the shapes the code tells apart: one repository or an array for the search, and an array length or anything else for contributors.
- RepoCard.LanguagesAfter: the languages body is modelled as a map from names to byte counts. The code passes any parsed value to `Object.keys`: an array or a string with at least one key would be stored too, and `null` throws inside the `try` and is swallowed. Neither case is modelled.
- RepoCard.LastLinkCount: stated only for a URL without `&` or a line terminator before `&page=`, as in GitHub's `...?per_page=1&page=N` links. For other headers LastPageLink.LastPageSpec gives the general meaning of the match.
- RepoCard.NextAndLastLinkCount: stated only for URLs without `&` or a line terminator, for the same reason.
- RepoCard.Page42: the literal header text is stated for any URL without `&` rather than for one fixed URL.
- LastPageLink.SingleLink: stated for a URL without `&` or line terminators, as in GitHub's `?per_page=1&page=N` links. For other headers the general LastPageSpec applies.
- LastPageLink.NextAndLastLinks: stated for URLs without `&` or line terminators, for the same reason.

## Findings

| source | as written | input that shows it | evidently intended | confidence | as-written member | corrected member |
|---|---|---|---|---|---|---|
| src/components/language-chart.tsx:11-15 | `ICONS` is a plain object literal, so `ICONS[lang]` also finds the members it inherits from `Object.prototype` and returns one of those instead of a colour | a language named "toString" (or "constructor", "valueOf", ...) returns the inherited function, not a palette colour | a lookup of own entries only, so every language gets its hashed palette colour | not executed | LanguageChart.AsWrittenToString | LanguageChart.ColorCache.GetColor |
