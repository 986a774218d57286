# GitHub repository explorer: a verified model of the search-and-filter pipeline

The explorer is a single-page app. The user types a GitHub account name. The
page fetches the first page of that account's repositories and shows them as
cards. The user can filter the cards by a name/description substring and by
primary language. This project models the logic behind that, one module per
source file:

- `Strings` (strings.dfy) holds ASCII models of the JavaScript string
  operations the app relies on: `trim`, `toLowerCase`, `includes`, the default
  `Array.prototype.sort` order, and number-to-text conversion.
- `GitHubTypes` (github_types.dfy) holds the repository, account and response
  records of `src/types/github.ts`. A field typed `T | null` becomes an `Option`.
- `Utils` (utils.dfy) models `src/lib/utils.ts`:
  - the compound filter `filterRepositories`;
  - `extractLanguages`, as a method with a loop proved against a specification
    function;
  - `formatNumber`;
  - the day bucketing of `formatDate`.
- `Store` (repo_store.dfy) models the shared filter store of
  `src/store/repo-store.ts`. It is a class with four fields, a setter for each
  and `resetFilters`.
- `Filters` (filters.dfy) models the filter bar of `src/components/filters.tsx`:
  the active-filter flag, the chips, the Clear button, the selector value and
  the selector options.
- `SearchBar` (search_bar.dfy) models `src/components/search-bar.tsx`: submit
  validation, the Enter key, and the disabled controls.
- `RepoList` (repo_list.dfy) models `src/components/repo-list.tsx`: which of
  its three views appears, and the effect that publishes the languages to the
  store.
- `App` (app.dfy) models the page component `GitHubSearch` of
  `src/components/app.tsx`. The transitions are pure functions over a
  seven-field `Session` value:
  - start a search;
  - complete it with an outcome;
  - retry;
  - reset;
  - the two result-processing effects.

  The class `GitHubSearch` has the same seven fields. Its methods update those
  fields in place, and each method is proved to produce exactly the state its
  function gives.

A query's completion is an input value (`QueryOutcome`). It is either a
resolved result carrying optional data and an optional error (the query runs
with the "all" error policy, so both can be present), or a thrown error. The
two effects run once, in declaration order, at the end of a completion. This
matches React's behaviour for this component:
- starting and resetting a search set `data` and `queryError` to null, so both
  effects are no-ops after them;
- after a completion, the error effect runs after the data effect and
  overwrites both fields the data effect writes.

The code has no guard against stale completions: a late result from an
earlier search is applied like any other. Nothing in the code drops a completion
whose account name no longer matches the current search. The model
follows the code, so `CompleteQuery` and `GitHubSearch.CompleteSearch` accept
any outcome at any time.

The "Filtered results" label of the repository list is modelled as written.
It appears when either filter is a non-empty string, so it also appears with
the store's initial language filter `'all'`, while the filter bar reports no
active filters (`RepoList.LabelWithoutActiveFilters`).

## Model

| member | source | states |
|---|---|---|
| Utils.FilterRepositories | src/lib/utils.ts:14-27 | the result is no longer than the input; every kept repository is from the input and passes both filters; every input repository that passes is kept |
| Utils.FilterIsSubsequence | src/lib/utils.ts:14-27 | the filtered list is a subsequence of the input, so the original order is kept |
| Utils.FilterConcat | src/lib/utils.ts:14-27 | filtering works element by element: filtering a concatenation is concatenating the filtered parts |
| Utils.FilterKeepsPassingList | src/lib/utils.ts:14-27 | a list whose every element passes comes back unchanged |
| Utils.FilterIdempotent | src/lib/utils.ts:14-27 | filtering the filtered list again with the same filters changes nothing |
| Utils.NoFilterKeepsEverything | src/lib/utils.ts:15-24 | with an empty name filter and an empty or 'all' language filter, every repository is returned in order |
| Utils.FilterEmptyIffNoneMatch | src/lib/utils.ts:14-27 | the result is empty exactly when no repository passes |
| Utils.NameFilterIgnoresCase | src/lib/utils.ts:15-19 | the name test gives the same answer for filters, and for names, that differ only in letter case |
| Utils.MissingDescriptionNeverMatches | src/lib/utils.ts:18-19 | with a null description, a non-empty filter passes only through the name |
| Utils.LanguageFilterIsExact | src/lib/utils.ts:21-24 | a language filter other than '' and 'all' passes exactly the repositories whose language name equals it; a repository without a language fails it |
| Utils.FilterExamplesNoName | src/lib/utils.test.ts:65-68 | on the three test repositories, no filter keeps all three, in order |
| Utils.FilterExamplesLanguage | src/lib/utils.test.ts:82-86 | on the three test repositories, the 'TypeScript' filter keeps only the first |
| Utils.DistinctLanguageNames | src/lib/utils.ts:31-37 | the names collected by the loop are duplicate-free and are exactly the truthy primary-language names of the input |
| Utils.LanguagesOfSpec | src/lib/utils.ts:30-40 | the extracted languages are strictly ascending, hence duplicate-free, and are exactly the truthy primary-language names |
| Utils.LanguagesOfEmpty | src/lib/utils.test.ts:171-174 | an empty list has no languages |
| Utils.LanguagesOfUnique | src/lib/utils.ts:39 | any strictly ascending list of exactly those names equals the extracted list |
| Utils.ExtractLanguages | src/lib/utils.ts:30-40 | the one-pass set-building loop followed by the sort returns the specified language list: strictly ascending, with exactly the input's language names |
| Utils.TenthsTextRoundTrip | src/lib/utils.ts:60 | the one-decimal text reads back as the same count of tenths |
| Utils.TenthsValueInverse | src/lib/utils.ts:60 | any text that reads back as a count of tenths (digits without a leading zero, a point, one digit) is exactly the text printed for that count |
| Utils.FormatNumber | src/lib/utils.ts:58-66 | the text is never empty; below 1000 it is plain decimal digits without a leading zero; it ends in "K" exactly from 1000 to below a million, and in "M" exactly from a million on |
| Utils.FormatNumberPlain | src/lib/utils.ts:65 | below 1000 the text is plain decimal digits without a leading zero (only "0" starts with '0'), and it reads back as the number |
| Utils.FormatNumberThousands | src/lib/utils.ts:62-64 | from 1000 to below a million the text is a one-decimal count of thousands plus "K": integer part without a leading zero, a point, one digit; that count is n/1000 rounded to the nearest tenth |
| Utils.FormatNumberMillions | src/lib/utils.ts:59-61 | from a million on the text is a one-decimal count of millions plus "M": integer part without a leading zero, a point, one digit; that count is n/1000000 rounded to the nearest tenth |
| Utils.FormatNumberExamplesPlain | src/lib/utils.test.ts:222-225 | 0 and 999 render as "0" and "999" |
| Utils.FormatNumberExamplesThousands | src/lib/utils.test.ts:227-229 | 1000 and 1500 render as "1.0K" and "1.5K" |
| Utils.FormatNumberExamplesRoundUp | src/lib/utils.test.ts:230 | 9999 renders as "10.0K" |
| Utils.FormatNumberExamplesLarge | src/lib/utils.test.ts:239-242 | 999999 and 100000 render as "1000.0K" and "100.0K" |
| Utils.FormatNumberExamplesMillions | src/lib/utils.test.ts:233-237 | 1000000, 1500000 and 9999999 render as "1.0M", "1.5M" and "10.0M" |
| Utils.FormatDate | src/lib/utils.ts:49-55 | the calendar date is shown exactly from 365 days on; every relative phrase is non-empty |
| Utils.FormatDateBuckets | src/lib/utils.ts:49-55 | 0 days is "Today" and 1 is "Yesterday"; 2 to 6 days give the day count; 7 to 29 give the whole weeks (1 to 4); 30 to 364 give the whole months (1 to 12); only 365 and more fall through to the calendar date |
| Utils.FormatDateExamples | src/lib/utils.test.ts:178-218 | 0, 1, 3, 14, 60 and 730 days give "Today", "Yesterday", "3 days ago", "2 weeks ago", "2 months ago" and the calendar date |
| Strings.Trim | src/components/search-bar.tsx:20 | the result is a slice of the input with only whitespace around it, does not start or end with whitespace, and is empty exactly when the input is all whitespace |
| Strings.TrimIdempotent | src/components/search-bar.tsx:20 | trimming twice is trimming once |
| Strings.TrimPadded | src/components/search-bar.tsx:20 | trimming whitespace-padded text gives back the text |
| Strings.Lower | src/lib/utils.ts:17 | lowering keeps the length and lowers each character on its own (A to Z only) |
| Strings.ContainsAt | src/lib/utils.ts:17 | `includes` holds exactly when the block occurs at some offset |
| Strings.SortStrings | src/lib/utils.ts:39 | the sorted list is a permutation of the input |
| Strings.SortAscending | src/lib/utils.ts:39 | sorting gives a strictly ascending list when the input has no duplicates |
| Strings.AscendingUnique | src/lib/utils.ts:39 | two strictly ascending lists with the same elements are equal |
| Strings.NatToString | src/lib/utils.ts:65 | the decimal text is non-empty, all digits, and has no leading zero unless it is "0" |
| Strings.ParseNatToString | src/lib/utils.ts:65 | the decimal text of a number reads back as the number |
| Strings.IntToString | src/lib/utils.ts:51 | the interpolated day count is canonical decimal digits that read back as the number, after a '-' when it is negative |
| Strings.NatToStringParseNat | src/lib/utils.ts:65 | decimal text without a leading zero is exactly the text printed for the number it denotes, so the printed text is unique |
| Store.ResetState | src/store/repo-store.ts:28 | reset puts the name filter back to '' and the language filter back to 'all', and keeps the username and the language list |
| Store.ResetIdempotent | src/store/repo-store.ts:28 | resetting twice is resetting once; a reset changes nothing exactly when the filters are already at their initial values |
| Store.ResetDeactivatesFilters | src/store/repo-store.ts:19-28 | after a reset, and in the initial state, the filter bar's active-filter flag is off |
| Store.RepoStore.constructor | src/store/repo-store.ts:19-22 | the store starts with username '', name filter '', language filter 'all' and no languages |
| Store.RepoStore.SetUsername | src/store/repo-store.ts:24 | only the username changes, to exactly the given value |
| Store.RepoStore.SetNameFilter | src/store/repo-store.ts:25 | only the name filter changes, to exactly the given raw text (the filter bar's text box passes it untrimmed) |
| Store.RepoStore.SetLanguageFilter | src/store/repo-store.ts:26 | only the language filter changes, to exactly the given value |
| Store.RepoStore.SetAvailableLanguages | src/store/repo-store.ts:27 | only the language list changes, to exactly the given list |
| Store.RepoStore.ResetFilters | src/store/repo-store.ts:28 | the new state is the reset of the old one, and the active-filter flag is off afterwards |
| Filters.HasActiveFilters | src/components/filters.tsx:28-29 | the flag holds exactly when the name chip or the language chip would be shown |
| Filters.ActiveIffSomethingHidden | src/components/filters.tsx:28-29 | with the flag off every repository passes the filters; with it on, some repository is rejected |
| Filters.RenderFilterBar | src/components/filters.tsx:43-88 | the text box shows the raw name filter; the selector shows the language filter, or 'all' when it is empty; the options are 'all' then the given languages in order; Clear and the active row appear exactly with the flag; the name chip appears iff the name filter is non-empty; the language chip appears iff the language filter is neither empty nor 'all' |
| Filters.ResetBarIsQuiet | src/components/filters.tsx:66-88 | with the reset filters there is no Clear button, no chip, and the selector shows 'all' |
| SearchBar.SubmittedUsername | src/components/search-bar.tsx:20-22 | nothing is submitted exactly when the input is all whitespace; otherwise the trimmed, non-empty input is submitted, with no whitespace at either end |
| SearchBar.SubmitStripsPadding | src/components/search-bar.tsx:20-24 | a name padded with whitespace is submitted as the bare name |
| SearchBar.SubmitExamplesAccepted | src/components/search-bar.test.tsx:83-97 | "testuser" and "  testuser  " are both submitted as "testuser" |
| SearchBar.SubmitExamplesRefused | src/components/search-bar.test.tsx:71-81 | empty and blank input submit nothing |
| SearchBar.RenderControls | src/components/search-bar.tsx:46-51 | the input is disabled exactly while loading; the button is disabled exactly while loading or when the trimmed input is empty; an enabled button always submits a name |
| SearchBar.HandleSubmit | src/components/search-bar.tsx:18-26 | with a non-empty trimmed input, stores exactly that as the username and returns it for the search; otherwise changes nothing and returns nothing |
| SearchBar.HandleKeyPress | src/components/search-bar.tsx:28-32 | Enter behaves exactly like submit; any other key changes nothing and searches for nothing |
| RepoList.RenderRepoList | src/components/repo-list.tsx:24-64 | nothing is rendered exactly for an empty list; the filter bar gets the extracted languages; "no matches" appears exactly when no repository passes; otherwise the filtered list is shown in its original order, it is non-empty, and X <= Y where Y is the unfiltered count; the label appears exactly when a filter is a non-empty string |
| RepoList.InitialFiltersShowAllWithLabel | src/components/repo-list.tsx:51-58 | with the store's initial filters every repository is shown, and so is the "Filtered results" label |
| RepoList.LabelWithoutActiveFilters | src/components/repo-list.tsx:54-58 | the label can appear while the filter bar reports no active filters |
| RepoList.PublishLanguages | src/components/repo-list.tsx:18-21 | the store's language list becomes the extracted languages and nothing else changes; the store's list then equals the list the list view hands to the filter bar (the bar's options come from that prop, not from the store) |
| App.ClassifyQueryError | src/components/app.tsx:150-162 | the rate-limit text appears exactly when the message contains "rate limit"; the token text appears exactly when it does not but contains "Bad credentials"; otherwise the text is "GitHub API error: " followed by the message, or by "Unknown error" when the message is missing or empty |
| App.ErrorDetail | src/components/app.tsx:161 | the detail is never empty; it is the message whenever the message is non-empty, and "Unknown error" otherwise |
| App.NotFoundIsNotAQueryError | src/components/app.tsx:144-161 | the not-found message can never coincide with a query error's message |
| App.StartSearch | src/components/app.tsx:51-57 | starting sets the searched name and the spinner, clears the error, the list, the query error and the data, and keeps the text box |
| App.SettleQuery | src/components/app.tsx:111-117 | a resolved query stores its data and its error; a thrown one stores the error and leaves the data; either way the spinner is off and nothing else changes |
| App.DataEffect | src/components/app.tsx:139-147 | a found account sets the list to its nodes (or none) and clears the error; a null user while a name is searched sets the not-found message naming it and empties the list; otherwise nothing changes; only the list and the error ever change |
| App.ErrorEffect | src/components/app.tsx:150-165 | a query error sets the error to its classified message and empties the list; without one nothing changes; only the list and the error ever change |
| App.CompleteQuery | src/components/app.tsx:111-165 | loading is off. Any query error sets its classified message and empties the list. Without an error, a found account's repositories are shown (or none when the nodes are absent) and the error is cleared. An explicit missing account, while a name is being searched, sets the not-found message naming it and empties the list. Otherwise only the stored result and the spinner change |
| App.Retry | src/components/app.tsx:121-125 | with a searched name, retrying starts the same search again; without one it changes nothing |
| App.Reset | src/components/app.tsx:128-136 | reset returns to the initial session: every field is cleared and the spinner is off |
| App.TransitionsKeepValid | src/components/app.tsx:51-165 | every transition keeps the invariant: while loading, nothing of a previous result remains; an error is shown only with an empty list and a non-empty text |
| App.InitialSessionValid | src/components/app.tsx:42-48 | the initial session satisfies the invariant, searches nothing and is not loading |
| App.SelectScreen | src/components/app.tsx:196-321 | "Ready to explore" appears exactly without a searched name; with one, the spinner appears while loading, the error panel appears when the error is truthy, "No repositories" appears when not loading, without an error and with an empty list, and the list appears under the same conditions with a non-empty list; the last two never appear together |
| App.ExactlyOnePanel | src/components/app.tsx:196-321 | in every session satisfying the invariant, exactly one panel is shown |
| App.ResetAndRetryScreens | src/components/app.tsx:121-136 | after a reset only "Ready to explore" is shown; after a retry with a name only the spinner is shown |
| App.FoundAccountShowsList | src/components/app.tsx:140-142 | a search for an account with repositories ends with only the list of exactly those repositories |
| App.MissingAccountShowsNotFound | src/components/app.tsx:143-146 | a search for a name with no account ends with only the error panel, naming the account |
| App.GitHubSearch.constructor | src/components/app.tsx:42-48 | the page starts in the initial session |
| App.GitHubSearch.SetInputValue | src/components/search-bar.tsx:43 | typing stores the raw, untrimmed text and changes nothing else |
| App.GitHubSearch.HandleSearch | src/components/app.tsx:51-57 | the fields become the started session |
| App.GitHubSearch.ProcessData | src/components/app.tsx:139-147 | the in-place updates give exactly the data effect |
| App.GitHubSearch.ProcessQueryError | src/components/app.tsx:150-165 | the in-place updates give exactly the error effect |
| App.GitHubSearch.CompleteSearch | src/components/app.tsx:111-117 | stores the result, stops the spinner and runs both effects, giving exactly the completed session |
| App.GitHubSearch.HandleRetry | src/components/app.tsx:121-125 | the fields become the retried session |
| App.GitHubSearch.HandleReset | src/components/app.tsx:128-136 | the fields become the initial session |
| App.GitHubSearch.SubmitSearch | src/components/app.tsx:188-193 | submitting a non-empty trimmed input commits it as the store's username and starts a search for it; otherwise neither the page nor the store changes |

## Left out

- Network and GraphQL are left out. That covers the dynamic loading of the client, the query text and the request itself. A query's result enters as a `QueryOutcome` value.
- Asynchrony is left out. A completion is one atomic step, and stale completions are not guarded against because the code has no guard.
- React's scheduling of renders and effects is left out. The effects run once, in declaration order, at the end of a completion. The description above explains why this matches the component.
- Utils.FormatDate: the clock, the parsing of the ISO timestamp and `toLocaleDateString` are left out. The whole-day difference is an integer input, and the text for 365 days or more is the abstract `CalendarDate`.
- Utils.FormatNumber: it computes in integer tenths, rounding halves upward. The source divides and calls `toFixed(1)` on a binary double, so an exact halfway case whose quotient is stored just below the half prints differently there: 1150 gives "1.1K" in the source (1.15 is stored as 1.1499999999999999) and "1.2K" here. The lemmas are exact for every other count below 2^53 (`Number.MAX_SAFE_INTEGER`). Above that bound, the rounding of the division itself can also move the result.
- Strings.Trim and Strings.Lower are ASCII only: six whitespace characters and the letters A to Z. JavaScript's `trim` and `toLowerCase` follow Unicode.
- Strings.SortStrings orders by character code. It does not model the UTF-16 code-unit order of `Array.prototype.sort` for characters outside the Basic Multilingual Plane.
- `cn` (class-name merging) is left out: it only wraps external libraries.
- Markup, styling, the repository cards, the list heading ("<name>'s Repositories", "Found N public repositories") and the theme toggle are left out: they are presentation only.
- Utils.FilterExamplesNoName: the case-insensitive and description cases of the filter tests are covered by the general lemmas, not restated on the test data.
