# Weather dashboard: verified model of search, tracking and session handlers

This project is a Dafny model of the logic inside a browser weather dashboard.
It covers four pieces:

- **City search.** The popular-city list is filtered by a case-insensitive
  substring test. The geocoding reply is merged in, skipping any entry that lies
  within 0.01° in both latitude and longitude of an entry already collected. The
  result is ranked and cut to fifteen. Names that start with the query come
  first and are ordered by the text after the query; the rest are ordered by
  their whole lower-cased name.
- **Tracked cities.** Adding refuses a near-duplicate. Otherwise it puts a new
  entry with a fresh id in front. Removing filters by id. Both save the session.
- **Theme.** A light/dark switch with its own stored value and "light" as the
  default.
- **Location and form handlers.** The device-position answer, the manual-entry
  modal, the add-city form and the search-input guards are modelled as pure
  transitions of a `Session` value.

The persisted store is the field `Session.persisted`: a `Snapshot` of the
current location and the tracked list, or `None` when nothing readable is
stored. Each save sets it to the session's own snapshot, so "saved after every
change" reads as `IsSaved(r)` in the contracts.

Work that happens after a transition comes back as an `Effect` beside the new
session. This covers loading forecasts, loading one city, asking the device for
its position, and issuing a search. The network reply of a search is an input
of type `GeocodingReply`: the fetch failed, the status was not ok, or a body
arrived whose `results` may be missing. `MIN_SEARCH_LENGTH` and the popular-city
list come from a configuration file that is not part of this model, so they are
parameters (`minLength`, `popular`).

Files, one module each: `model.dfy` (CityModel: entities and proximity),
`seqs.dfy` (Seqs: filter and subsequence), `text.dfy` (Text: lower-casing,
prefix/substring, trim, string comparison), `ranking.dfy` (Ranking),
`search.dfy` (Search), `theme.dfy` (Theme), `session.dfy` (Session),
`weather.dfy` (Weather), `geolocation.dfy` (Geolocation), `app.dfy` (App).

## Model

| member | source | states |
|---|---|---|
| Text.Lower | js/utils.js:74-75 | lower-casing keeps the length of the name, so `substring(query.length)` cuts exactly after the lower-cased query |
| Text.Substring | js/utils.js:84-85 | `substring(n)` gives what follows the first `n` characters, or "" when `n` is past the end |
| Text.Compare | js/utils.js:86-89 | the string comparison standing for `localeCompare` always answers -1, 0 or 1 |
| Text.CompareIsLexicographic | js/utils.js:86-89 | the comparison says "before" exactly when the first string is a proper prefix of the second or has the smaller character at the first difference |
| Text.CompareAntisymmetric | js/utils.js:86-89 | swapping the two strings flips the sign of the comparison |
| Text.CompareZeroIffEqual | js/utils.js:86-89 | the comparison reports a tie only for equal strings |
| Text.CompareTransitive | js/utils.js:86-89 | "no later than" between strings is transitive |
| Text.Trim | js/app.js:86 | `trim` returns a contiguous slice with no white space at either end, and everything it removes is white space |
| Ranking.CompareCities | js/utils.js:73-90 | the comparator answers -1, 0 or 1; a name starting with the query goes before one that does not, and the other way round |
| Ranking.PrefixMatchesByRemainder | js/utils.js:83-87 | two prefix matches consist of the lower-cased query plus a remainder; they are ordered lexicographically by those remainders and tie exactly when the remainders agree |
| Ranking.OthersByFullName | js/utils.js:89 | two names that do not start with the query are ordered lexicographically by their lower-cased names and tie only when those are equal |
| Ranking.CompareCitiesAntisymmetric | js/utils.js:73-90 | comparing b with a gives the opposite sign of comparing a with b |
| Ranking.CompareCitiesTransitive | js/utils.js:73-90 | the comparator is transitive, which makes it a consistent order for a sort |
| Ranking.SortAlphabetically | js/utils.js:69-91 | the sorted list is a permutation of the input (same multiset) in which every element goes no later than every element after it |
| Ranking.SortPutsPrefixMatchesFirst | js/utils.js:80-81 | in the sorted list every name starting with the query precedes every name that does not |
| Search.ToCity | js/api.js:48-53 | a geocoding entry keeps name and coordinates; a missing country becomes "" |
| Search.RemoteCandidates | js/api.js:44-53 | geocoding entries are used only when an ok body with a `results` array arrived, one candidate per entry, in order |
| Search.MatchesQueryIsSubstring | js/api.js:33-36 | the `startsWith` half of the filter adds nothing: a popular city matches exactly when its lower-cased name contains the lower-cased query |
| Search.LocalCandidates | js/api.js:33-36 | the local candidates are exactly the popular cities whose lower-cased name contains the lower-cased query, in list order, with every copy of a matching entry kept |
| Search.Merge | js/api.js:55-61 | the merge keeps every collected entry in place and only appends geocoding entries, at most one per entry |
| Search.MergeSkipsOnlyNearDuplicates | js/api.js:55-61 | a geocoding entry is missing from the merge only if the merged list holds a near-duplicate of it |
| Search.MergeAppendsOnlyFresh | js/api.js:56-60 | no appended entry is within 0.01° in both axes of any entry before it |
| Search.MergeAppend | js/api.js:55-61 | merging a reply in two parts equals merging it at once, because each entry is checked against everything collected before it |
| Search.MergeStep | js/api.js:55-60 | first wins: the reply entry at position k is appended exactly when nothing merged before it is a near-duplicate, and otherwise the merge is unchanged |
| Search.FirstOfTwoNearDuplicatesWins | js/api.js:55-60 | of two near-duplicate geocoding entries the one earlier in the reply is kept and the later dropped |
| Search.MergeOfPrefix | js/api.js:55-61 | merging part of the reply yields a prefix of merging all of it |
| Search.MergeKeepsFresh | js/api.js:55-60 | a reply entry with no near-duplicate merged before it ends up in the merge |
| Search.MergeKeepsReplyOrder | js/api.js:55-61 | the appended entries are a subsequence of the reply, in its order |
| Search.Take | js/api.js:71 | `slice(0, 15)` keeps a prefix of at most fifteen elements, the whole list when it is short enough |
| Search.SearchCities | js/api.js:28-72 | an empty or too-short query gives no suggestions and sends no request; otherwise the suggestions are the first fifteen of the comparator-sorted merge of local matches and geocoding entries, so at most fifteen, in comparator order, each a local match or a geocoding entry |
| Search.SearchIsTopOfRanking | js/api.js:69-71 | the suggestions number min(15, n) for n candidates, are drawn from the candidates without extra copies, and every candidate left out ranks no earlier than every suggestion |
| Search.TakeOfSortedIsTop | js/api.js:71 | cutting a sorted list keeps min(n, length) elements, all of them ranking no later than anything cut off |
| Search.FreshReplyEntryIsCandidate | js/api.js:55-61 | a geocoding entry with no near-duplicate among the entries merged before it is ranked |
| Search.FewCandidatesKeepEveryFreshReplyEntry | js/api.js:55-71 | when at most fifteen candidates exist, every geocoding entry that nothing before it collided with is suggested |
| Search.FailedReplyMeansLocalOnly | js/api.js:38-71 | after a network failure, a bad status or a body without `results`, the suggestions are exactly the ranked local matches cut to fifteen |
| Search.FewCandidatesKeepEveryLocal | js/api.js:55-71 | when local matches and geocoding entries number at most fifteen together, every local match is suggested |
| Search.CandidatesNearOnlyLocal | js/api.js:33-61 | the local matches open the merged list, and an entry after them is a near-duplicate of no other entry |
| Search.SearchDrawsFromCandidates | js/api.js:69-71 | every suggestion is one of the merged candidates |
| Search.OnlyLocalNearDuplicates | js/api.js:55-71 | two different suggestions within 0.01° in both axes are both popular-list matches; the geocoding reply never adds a near-duplicate |
| Search.MoscowExample | js/api.js:28-72 | "Mos" against a popular "Moscow" and a geocoding "Moscow Oblast" a few thousandths of a degree away yields only "Moscow" |
| Theme.LoadTheme | js/storage.js:40-42 | the loaded theme is the stored value, or "light" when it is missing or empty |
| Theme.Init | js/theme.js:13-16 | start-up adopts the loaded theme and writes nothing to the store |
| Theme.Toggle | js/theme.js:18-23 | toggling gives "dark" exactly from "light" and "light" from anything else, and stores the new value |
| Theme.Icon | js/theme.js:29-34 | the button shows the moon exactly in the light theme and the sun otherwise |
| Theme.ToggleTwice | js/theme.js:19 | toggling twice from "light" or "dark" returns the original theme |
| Theme.ToggleSurvivesReload | js/theme.js:19-20 | reloading from what toggle stored yields the toggled theme |
| Theme.ToggleSwitchesIcon | js/theme.js:18-34 | every toggle between the two themes switches the icon |
| Session.Save | js/storage.js:8-18 | after a save the store mirrors the session's location and tracked list, and nothing else in the session changes |
| Weather.Track | js/weather.js:79-85 | the new entry copies name, country and coordinates from the selected city and carries the fresh id |
| Weather.AddCity | js/weather.js:69-94 | a city within 0.01° of a tracked one is refused with the duplicate message and nothing changes; otherwise the new entry goes in front of the unchanged old list, the session is saved, and the new city's forecast is loaded |
| Weather.RemoveCity | js/weather.js:96-108 | removal keeps exactly the entries with a different id, every copy of each, in their original order, saves, and shows the placeholder when the list ends up empty |
| Weather.AddKeepsNoNearDuplicates | js/weather.js:70-87 | adding preserves the invariant that no two tracked cities are near-duplicates |
| Weather.RemoveKeepsNoNearDuplicates | js/weather.js:97 | removing preserves the no-near-duplicate invariant, since the result is a subsequence |
| Weather.AddKeepsIdsUnique | js/weather.js:79-87 | with an id not already in the list, ids stay unique |
| Weather.RemoveUnknownIdKeepsList | js/weather.js:97-98 | removing an id no entry has leaves the list as it was, and the session is still saved |
| Weather.RemoveUndoesAdd | js/weather.js:87-97 | removing the city just added under a fresh id restores the previous list |
| Weather.ChangesKeepConsistency | js/weather.js:69-108 | add and remove both keep the list free of near-duplicates and the placeholder shown only for an empty list |
| Geolocation.HandleError | js/geolocation.js:45-48 | a refused or failed position request opens the modal and changes nothing else |
| Geolocation.Request | js/geolocation.js:13-26 | without geolocation support the error path is taken at once; otherwise the device is asked |
| Geolocation.HandleSuccess | js/geolocation.js:30-43 | the device coordinates become the current location under the fixed name with the geolocation flag set; tracked cities are untouched; the session is saved before the forecasts load |
| Geolocation.PositionOutcomesKeepConsistency | js/geolocation.js:13-48 | neither outcome of a position request breaks the session invariants |
| App.Load | js/storage.js:20-30 | loading yields the stored snapshot, or no location and no tracked cities when nothing readable is stored |
| App.Restore | js/app.js:26-32 | start-up takes location and tracked cities from the store and the theme from its own key |
| App.Init | js/app.js:26-60 | with a restored location the forecasts load; without one the device position is requested |
| App.SavedSessionRestores | js/storage.js:8-30 | restoring from what a save left in the store gives back the same location and the same tracked list, in order |
| App.GuardCityInput | js/app.js:85-92 | the error line is cleared; a trimmed query shorter than the minimum hides the suggestions and starts no search; a longer one starts a search for the trimmed text |
| App.HandleModalCityInput | js/app.js:85-96 | the modal input's guard touches only the modal box |
| App.HandleAddCityInput | js/app.js:127-138 | the add input's guard touches only the add box |
| App.SearchOnlyForLongTrimmedQueries | js/app.js:86-94 | a search is issued only for a query at least the minimum long with no white space at either end |
| App.HandleModalSubmit | js/app.js:98-125 | no selection or an unreadable one changes only the error line; a selected city becomes the current location without the geolocation flag, is saved, the modal closes and forecasts load |
| App.HandleAddCity | js/app.js:140-162 | no selection or an unreadable one changes only the error line and adds nothing; a refused add shows its message and keeps the input; a successful add clears the box |
| App.SubmittedLocationSurvivesReload | js/app.js:109-117 | a location chosen in the modal is what a reload restores |
| App.InputGuardsKeepConsistency | js/app.js:85-138 | the two input guards keep the session invariants |
| App.ModalSubmitKeepsConsistency | js/app.js:98-125 | the modal submit keeps the session invariants |
| App.AddFormKeepsConsistency | js/app.js:140-162 | adding through the form never makes the tracked list hold two near-duplicates |
| Seqs.Filter | js/weather.js:97 | a filter keeps exactly the elements that pass, as many copies of each as the input holds, and none of the others |
| Seqs.FilterIsSubsequence | js/weather.js:97 | a filter keeps the relative order of what it keeps |
| Seqs.SubsequencePairs | js/weather.js:97 | a property of every ordered pair of a list holds for every ordered pair of a subsequence |

## Left out

- Rendering is not modelled: DOM construction, weather cards, the suggestion list's items, loading and error placeholders. The suggestion list and the empty-state placeholder are reduced to booleans.
- Forecast fetching is not modelled: `fetchWeather`, `loadCurrentLocation`, `loadAdditionalCities`, `loadCity`, `refreshAll` and their error placeholders. They appear only as the effects `LoadForecasts` and `LoadCity`.
- The geocoding request itself is not modelled: the URL, `count=10` and `language=ru`. Its outcome is the input `GeocodingReply`.
- JSON serialisation is taken to round-trip values exactly. A `localStorage` write that throws (and is caught) is not modelled, so every save succeeds.
- Debounce timers, parallel loads, and a late search or forecast result overwriting a newer one are not modelled. These are timing and concurrency.
- The id generator (clock plus random) is the parameter `freshId`. Freshness is a hypothesis of `AddKeepsIdsUnique` and `RemoveUndoesAdd` only.
- `localeCompare(…, 'ru')` is modelled as code-point lexicographic order. Russian collation tables are foreign code.
- `toLowerCase` is modelled for Latin A–Z, Cyrillic А–Я and Ё only. Full Unicode case mapping is foreign code, including mappings that change a string's length.
- Coordinates are exact reals. Floating-point rounding of the subtraction before the 0.01 comparison is not modelled.
- Search.SearchCities: lengths count code points, while JavaScript's `length` counts UTF-16 code units. A query made of one character outside the Basic Multilingual Plane (an emoji, say) has length 2 in the browser and passes the length-2 guards there, but has length 1 here and is refused. Strings are code-point sequences throughout the model.
- App.GuardCityInput: the length of the trimmed query is likewise counted in code points, not UTF-16 code units, so the same astral-plane difference applies to `MIN_SEARCH_LENGTH`.
- Text.Substring: `substring(n)` counts UTF-16 code units in the browser and code points here, so after a character outside the Basic Multilingual Plane it cuts at a different place.
- Ranking.SortAlphabetically: the sort is an insertion sort that keeps tied elements in input order, like the stable built-in sort, but stability is not stated or proved.
- Selecting a suggestion (the click handler in the UI code) is not modelled. The selection is the input `Selection`, and an unreadable one stands for JSON that fails to parse.
- `Theme.apply` and the `data-theme` attribute are not modelled. This is DOM state.
- The geolocation options are not modelled: high accuracy and the 10 s timeout belong to a browser API.
- The popular list's own near-duplicates are kept. The code checks only geocoding entries against what was collected, and `OnlyLocalNearDuplicates` states exactly that.
