# LeaguesList: a verified model

The LeaguesList component of the bookmaker app shows the leagues of a public
sports catalogue in a table. Above the table are a search box and a
sport-type selector. Clicking a row opens a modal with the badge of that
league's first listed season. The league list is cached in the browser's
`localStorage` for one minute.

This project models the logic of that component in Dafny:

- `text.dfy` (`Text`): `toLowerCase`, modelled as ASCII case folding, and `includes`, a substring test.
- `league_filter.dfy` (`LeagueFilter`): the league record and the `filteredLeagues` filter.
- `league_cache.dfy` (`LeagueCache`): the cache read, the freshness rule and the store of `fetchLeaguesData`, as the pure function `LoadLeagues`.
- `season_badge.dfy` (`SeasonBadge`): the seasons request URL and the first-season badge choice of `fetchSeasonBadgeData`.
- `list_view.dfy` (`ListView`): the five state hooks as a `View` value; every handler, and the arrival of a seasons response, as an event with a `Step` function; `Run` for event sequences.
- `leagues_list.dfy` (`Component`): the component as a class. The hooks and `localStorage` (a `map`) are fields, and each handler is a method. Every method is proved to change the fields exactly as the `ListView`/`LeagueCache` function says.
- `wrappers.dfy` (`Wrappers`): `Option`, used for JavaScript's `undefined`/`null`.

The clock (`Date.now()`) and the network (`fetch`, `response.ok`, `response.json()`) are parameters. `fetchLeaguesData` reads the clock twice: once before the request, for the freshness test, and once after the response arrives, for the stored timestamp. So the model takes two times, `now` and `fetchedAt`. A fetch outcome is either the body's `leagues` field (absent when the body has none) or a failure. Failures cover network errors, statuses that are not ok, and bodies that are not JSON.

The model follows the code as written; in particular:

- A failed first load stores `undefined` in `leagues` (`setLeagues(result)`); it does not keep the previous list. The filter then yields `undefined` too.
- A row click opens the modal at once. The badge is set later, when the response arrives, even if the modal has been dismissed in between. There is no separate "badge fetching" state before the modal opens.
- A non-empty stored cache text that `JSON.parse` rejects makes `fetchLeaguesData` resolve to `undefined` without any request (`Stored.Unparsable`). An empty stored text is falsy, so it counts as a missing key and a request is made (`Stored.Blank`).
- `handleCloseModal` alone only hides the modal. The modal's `onClose` callback also clears the badge.

## Model

| member | source | states |
|---|---|---|
| Text.ToLower | src/components/LeaguesList/LeaguesList.js:71-73 | folding keeps the length and folds every character by the ASCII rule |
| Text.ToLowerHasNoUpper | src/components/LeaguesList/LeaguesList.js:72-73 | a folded string holds no upper-case ASCII letter |
| Text.ToLowerIdempotent | src/components/LeaguesList/LeaguesList.js:72-73 | folding twice equals folding once |
| Text.Includes | src/components/LeaguesList/LeaguesList.js:73 | `includes` is true exactly when the text occurs at some position of the string |
| Text.IncludesEmpty | src/components/LeaguesList/LeaguesList.js:73 | the empty search text is included in every name |
| LeagueFilter.NameMatch | src/components/LeaguesList/LeaguesList.js:71-73 | the name test: the lowered league name includes the lowered search text |
| LeagueFilter.SportMatch | src/components/LeaguesList/LeaguesList.js:75-76 | the sport test: the selection is "All" or equals the league's sport |
| LeagueFilter.Keep | src/components/LeaguesList/LeaguesList.js:71-78 | the filter callback: both tests hold |
| LeagueFilter.Filter | src/components/LeaguesList/LeaguesList.js:70-79 | the filtered list is never longer than the input |
| LeagueFilter.FilterLeagues | src/components/LeaguesList/LeaguesList.js:70 | the result is absent exactly when the league list is absent |
| LeagueFilter.FilterIsSubsequence | src/components/LeaguesList/LeaguesList.js:69-80 | the result is the input at strictly increasing positions, so order is kept and nothing is duplicated |
| LeagueFilter.FilterCounts | src/components/LeaguesList/LeaguesList.js:70-79 | each league appears in the result as often as in the input when it passes both tests, and otherwise not at all |
| LeagueFilter.FilterSound | src/components/LeaguesList/LeaguesList.js:71-78 | every shown league comes from the input, its lowered name includes the lowered search text, and its sport is the selected one or the selection is "All" |
| LeagueFilter.FilterSoundAll | src/components/LeaguesList/LeaguesList.js:70-79 | every league of the result comes from the input and passes both tests |
| LeagueFilter.FilterComplete | src/components/LeaguesList/LeaguesList.js:70-79 | every input league that passes both tests is shown |
| LeagueFilter.FilterNoCriteria | src/components/LeaguesList/LeaguesList.js:71-78 | an empty search with "All" returns the input unchanged |
| LeagueFilter.FilterIdempotent | src/components/LeaguesList/LeaguesList.js:71-78 | filtering twice with the same criteria equals filtering once |
| LeagueFilter.FilterIgnoresQueryCase | src/components/LeaguesList/LeaguesList.js:73 | lower-casing the search text first changes nothing |
| LeagueFilter.PremierExample | src/components/LeaguesList/LeaguesList.js:69-80 | searching "premier" over all sports keeps the English Premier League and drops NASCAR |
| LeagueCache.IsFresh | src/components/LeaguesList/LeaguesList.js:24 | a copy is fresh while its age is below 60000 ms |
| LeagueCache.FreshnessMonotone | src/components/LeaguesList/LeaguesList.js:24 | a copy fresh at a later time was fresh at every earlier time, so as the clock moves forward it can only become stale |
| LeagueCache.ReadCache | src/components/LeaguesList/LeaguesList.js:19-25 | a hit exactly when a parsed copy is stored under the key and is fresh, with that copy's data; corrupt exactly when a non-empty unparsable text is stored; otherwise a miss |
| LeagueCache.LoadLeagues | src/components/LeaguesList/LeaguesList.js:16-41 | only the key of the leagues URL can change, and it changes only to the returned leagues stamped with the arrival time |
| LeagueCache.FreshCopyServed | src/components/LeaguesList/LeaguesList.js:19-25 | a stored copy younger than 60000 ms is returned as is, storage untouched, whatever the network would answer |
| LeagueCache.MissedCopyRefetched | src/components/LeaguesList/LeaguesList.js:22-40 | with no copy, an empty stored text, or a copy at least 60000 ms old, success stores `{data: leagues, timestamp}` and returns the leagues; failure returns absent and leaves storage unchanged |
| LeagueCache.ExpiryBoundary | src/components/LeaguesList/LeaguesList.js:24 | a copy exactly 60000 ms old is a miss |
| LeagueCache.UnparsableCopyFails | src/components/LeaguesList/LeaguesList.js:22-40 | a non-empty stored text that does not parse gives absent, with no request and no store |
| LeagueCache.SecondLoadWithinWindow | src/components/LeaguesList/LeaguesList.js:19-37 | a second load within the window of the copy the first left, with a clock that did not go back, returns the same leagues and storage whatever the network says |
| SeasonBadge.BadgeUrl | src/components/LeaguesList/LeaguesList.js:46 | the request URL is the seasons endpoint followed by the league id |
| SeasonBadge.BadgeUrlInjective | src/components/LeaguesList/LeaguesList.js:46 | different league ids give different request URLs |
| SeasonBadge.FirstBadge | src/components/LeaguesList/LeaguesList.js:52-56 | a present, non-empty list gives its first season's badge; otherwise null |
| SeasonBadge.BadgeAfter | src/components/LeaguesList/LeaguesList.js:47-59 | seasons present and non-empty: the badge is the first season's; seasons null or empty: the badge is null; failure: the badge is unchanged |
| SeasonBadge.OnlyFirstSeasonMatters | src/components/LeaguesList/LeaguesList.js:52-53 | the seasons after the first never affect the badge |
| ListView.Step | src/components/LeaguesList/LeaguesList.js:63-101 | each handler changes only its own fields: only a load sets the list, only search and sport change set the criteria, only a response or a dismissal writes the badge, only click, open, close and dismissal touch the modal flag; click and open show the modal, close and dismissal hide it |
| ListView.Run | src/components/LeaguesList/LeaguesList.js:63-167 | a run of events applies them in order: the empty run leaves the state as it was, and the state after a non-empty run is the last event's step from the state before it |
| ListView.Visible | src/components/LeaguesList/LeaguesList.js:69-80 | the shown rows are absent exactly when the list is, and every shown row is a league of the list passing both tests |
| ListView.RowClickOpensModal | src/components/LeaguesList/LeaguesList.js:63-67 | a click opens the modal at once and leaves every other field, the badge included, unchanged |
| ListView.DismissClearsBadge | src/components/LeaguesList/LeaguesList.js:94-167 | dismissal hides the modal and clears the badge; `handleCloseModal` alone only hides it |
| ListView.CriteriaEventsTouchOnlyCriteria | src/components/LeaguesList/LeaguesList.js:82-88 | search and sport change each set only their own field, and the table then filters by the new value |
| ListView.SeasonsArrivalSetsBadge | src/components/LeaguesList/LeaguesList.js:52-59 | a response changes only the badge: first season's badge, null when there are none, no change on failure |
| ListView.BadgeUnchangedBy | src/components/LeaguesList/LeaguesList.js:52-56 | any run of events with no successful response and no dismissal (failed responses allowed) leaves the badge unchanged |
| ListView.LastArrivalWins | src/components/LeaguesList/LeaguesList.js:44-67 | the last successful response to arrive fixes the badge, whichever click it answers and whatever failed responses follow, until a dismissal |
| ListView.LateArrivalAfterDismiss | src/components/LeaguesList/LeaguesList.js:164-167 | click one row, dismiss, the late response arrives, click another row: the modal is open and shows the late badge |
| ListView.ReopenShowsNoBadge | src/components/LeaguesList/LeaguesList.js:164-167 | after a dismissal, the next row click opens the modal with no badge until its own response arrives |
| ListView.EmptySeasonsStillOpen | src/components/LeaguesList/LeaguesList.js:52-66 | a click answered with no seasons leaves the modal open with no badge |
| ListView.LoadedListShownInFull | src/components/LeaguesList/LeaguesList.js:98-104 | the table starts empty; after a successful load with no criteria it shows the whole list |
| ListView.FailedLoadShowsNothing | src/components/LeaguesList/LeaguesList.js:100-101 | after a failed load the table has no rows, whatever the criteria |
| Component.LeaguesList.constructor | src/components/LeaguesList/LeaguesList.js:7-11 | initial state: empty list, empty search, "All", modal closed, no badge; storage as the browser has it |
| Component.LeaguesList.FetchLeaguesData | src/components/LeaguesList/LeaguesList.js:16-41 | result and new storage are exactly those of `LoadLeagues` on the old storage |
| Component.LeaguesList.LoadData | src/components/LeaguesList/LeaguesList.js:98-104 | the list becomes the load's result, `undefined` included; storage is the load's |
| Component.LeaguesList.FilteredLeagues | src/components/LeaguesList/LeaguesList.js:69-80 | the memo equals the filter of the current state, and is absent exactly when the list is |
| Component.LeaguesList.OnSearch | src/components/LeaguesList/LeaguesList.js:82-84 | the new state is `Step(old, Search(value))` |
| Component.LeaguesList.HandleChange | src/components/LeaguesList/LeaguesList.js:86-88 | the new state is `Step(old, SportChange(value))` |
| Component.LeaguesList.HandleOpenModal | src/components/LeaguesList/LeaguesList.js:90-92 | the new state is `Step(old, OpenModal)` |
| Component.LeaguesList.HandleCloseModal | src/components/LeaguesList/LeaguesList.js:94-96 | the new state is `Step(old, CloseModal)` |
| Component.LeaguesList.OnClose | src/components/LeaguesList/LeaguesList.js:164-167 | the new state is `Step(old, ModalDismissed)` |
| Component.LeaguesList.HandleLeagueClick | src/components/LeaguesList/LeaguesList.js:63-67 | returns the seasons URL for the id; the new state is `Step(old, RowClick(id))` |
| Component.LeaguesList.ReceiveSeasons | src/components/LeaguesList/LeaguesList.js:50-59 | the new state is `Step(old, SeasonsArrived(outcome))` |

## Left out

- Network I/O, `response.ok`, `response.json()` and JSON encoding and decoding: a fetch is an outcome given as a parameter, and storage holds decoded entries, not JSON text.
- The clock: `Date.now()` is given as two integers, one for each time it is read.
- Interleaving of the event loop: a seasons response is a separate event that can come at any point. Nothing matches it to the click that started it, as in the source, so overlapping requests can arrive in any order (`ListView.LastArrivalWins`).
- Stored texts that parse but were not written by this code: the model assumes they do not occur. In the source, `"null"` makes the destructuring at line 23 throw, so the call resolves to `undefined` with no request. `"{}"` or `"42"` give an undefined `timestamp`, so the freshness test compares `NaN` and fails, and the code refetches and overwrites.
- A `localStorage.getItem` that throws (line 19, inside the `try`, so the call would resolve to `undefined` with no request) and a `localStorage.setItem` that throws (storage quota): the model assumes every storage access succeeds.
- A `strLeague` that is not a string (on which `toLowerCase` would throw): league names are always strings here.
- Text.ToLower: ASCII case folding only, not full Unicode `toLowerCase`.
- The `useMemo` and `useEffect` machinery: the memo is the pure filter (`Component.LeaguesList.FilteredLeagues`), and the effect is the single `LoadData` call after construction.
- Rendering with antd (`Table`, `Search`, `Select`, `Modal`, `Image`), the `'N/A'` fallback for missing alternate names, and the fixed list of sport options the selector offers: all presentation. `handleChange` accepts any string.
- src/components/SeasonBadgeModal/SeasonBadgeModal.js: it only passes its props on to antd and has no logic.
- `console.log` and `console.error`.
