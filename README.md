# Cathay award search, modelled in Dafny

A model of the core of the Cathay Pacific award-search userscript. The script runs on the
airline's booking pages. It searches award availability for many routes and dates in a row:
a *batch* over comma-separated origin and destination lists, one day after another. It can
also search every *saved query* in date order. Each response becomes a list of flights with
seat counts per cabin. The user can save queries and flights. Both saved lists are pruned
of past dates and kept sorted by date. When a search has to leave the page, a *checkpoint*
(`cont`) records what to resume on the results page, for at most five minutes.

Modules, one per concern of the script:

- `Text` (`text.dfy`): the JavaScript string operations used, such as `substring`,
  `split`/`join`, `padStart`, `+s` on digit strings and `toString`.
- `Dict` (`dict.dfy`): a JavaScript object as an insertion-ordered association list.
- `Calendar` (`calendar.dfy`): a day-count Gregorian calendar in place of `Date`.
- `DateStrings` (`date_strings.dfy`): the `YYYYMMDD` helpers of `src/utils.ts` and
  `src/main.ts`, and the query keys.
- `Cabins` (`cabins.dfy`): the cabin counts and flight keys of `insertResults`, and the
  `FlightResult` component.
- `Sorting` (`sorting.dfy`): the numeric-comparator sort.
- `SavedStore` (`saved_store.dfy`):
  - class `Saved`, the saved queries (a Set) and saved flights (an object), with its
    toggles, removal, pruning and refresh;
  - the `SavedFlights` component.
- `Results` (`results.dfy`): `insertResults` over one response.
- `Checkpoint` (`checkpoint.dfy`): the `cont` record, its storage and the resume decision.
- `Requests` (`requests.dfy`):
  - the request payloads and the form body;
  - the `requestParams` rewrite;
  - the day quota and the route product;
  - the tab-key error message.
- `Orchestrator` (`orchestrator.dfy`): class `Batch`, the batch search as a state machine.
  - Each step updates the state and returns the `Effect` it leaves for the environment: a
    request to post, a callback to run, a new tab key to fetch, a navigation, or an
    uncaught exception (`Throw`) that ends the chain.
  - The environment feeds each outcome back through `OnResponse`, `OnMint` or `Callback`.
  - `SearchRequest` defines the request `searchAvailability` makes; every step that starts
    or continues a chain states its effect through it.
- `AirportCheck` (`airport_check.dfy`): `checkAirportCodes` and the legacy `checkCities`.
- `Filters` (`filters.dfy`): `filterToClassName`.
- `Legacy` (`legacy.dfy`): where `cx.user.js`, the older build of the same script, differs
  from `src/main.ts`.

Clock, storage, HTTP and JSON/regex parsing are parameters:
- `now` is a time in milliseconds (`DayMs` gives local midnight of a date); `today` is a date.
- A response is a status plus an optional parsed page.
- Storage is a field of `Saved` or `CheckpointStore`.

## Model

| member | source | states |
|---|---|---|
| Text.Substring | src/utils.ts:110-114 | `substring` is the slice for in-range ends and never longer than the string |
| Text.NatToStringValue | src/utils.ts:108 | a count written in decimal reads back as the count |
| Text.NatToStringCanonical | src/utils.ts:106-108 | a digit string without a leading zero is how its own value is written |
| Text.PadStart2 | src/utils.ts:108 | `padStart(2, '0')` leaves two or more characters alone and left-pads shorter ones with zeros to length 2 |
| Text.Split | src/components/SavedFlights.tsx:16-18 | `split` never returns an empty list and no piece holds the separator |
| Text.SplitJoin | src/main.ts:2495-2503 | splitting joined pieces gives the pieces back when none holds the separator |
| Text.JoinSplit | src/main.ts:2495-2503 | joining the split pieces gives the string back |
| Text.ReplaceFirstAt | src/components/FlightResult.tsx:56 | `replace` with a string pattern changes only the first occurrence |
| Dict.GetPut | src/main.ts:2811-2814 | after an assignment the key reads the new value and every other key is unchanged |
| Dict.KeysPut | src/main.ts:1921-1926 | assigning a new key appends it; assigning an existing key keeps the key order |
| Dict.GetRemove | src/main.ts:2817-2820 | after `delete` the key is absent and every other key is unchanged |
| Dict.DistinctRemove | src/main.ts:1917 | deleting keeps every key unique |
| Calendar.MonthLength | src/utils.ts:70-71 | month lengths are 28..31, and February has 29 days exactly in a Gregorian leap year |
| Calendar.AddDaysNumber | src/utils.ts:79-83 | `setDate(getDate() + n)` gives a real date exactly `n` days later |
| Calendar.AddDaysCompose | src/utils.ts:81 | moving `a` days then `b` days is moving `a + b` days |
| Calendar.DayNumberInjective | src/utils.ts:106 | different real dates have different day numbers |
| Calendar.DayNumberOrder | src/main.ts:2383-2385 | a later date has a larger day number, so comparing dates is comparing days |
| Calendar.WeekdayAddDays | src/utils.ts:89-92 | `n` days on, the weekday index moves by `n` modulo 7 |
| DateStrings.MakeDate | src/utils.ts:106 | `new Date(y, m, d)` always yields a real date (out-of-range fields roll over) |
| DateStrings.MakeDateFields | src/utils.ts:106 | the fields of a real date with a year of at least 100 are taken as given |
| DateStrings.MakeDateOverflow | src/utils.ts:106 | overflowing fields count on from the first of the normalised month |
| DateStrings.DateStringParses | src/utils.ts:106 | parsing fails exactly when one of the three fields is not a digit string |
| DateStrings.DateStringRoundTrip | src/utils.ts:106-108 | a real date string parses to its fields and writes back to itself |
| DateStrings.DateToDateStringRoundTrip | src/utils.ts:106-108 | writing a date with a four-digit year gives a real date string that parses back to that date |
| DateStrings.IsValidDateSound | src/main.ts:108-122 | an accepted string names a real date with a year up to 3000 inside the 366-day window |
| DateStrings.IsValidDateComplete | src/main.ts:108-122 | every real date with a year 1000..3000 inside the window is accepted |
| DateStrings.IsValidDateLeapDay | src/main.ts:113-115 | February 29th is accepted only in a leap year |
| DateStrings.UtilsIsValidDateAcceptsFeb29 | src/utils.ts:63-76 | as written the utils check accepts "20230229", which the main.ts check rejects |
| DateStrings.UtilsIsValidDateOnRealDates | src/utils.ts:63-76 | both checks agree on every string that names a real date |
| DateStrings.DateAddZero | src/utils.ts:79-83 | `dateAdd(0, s) == s` for a real date string |
| DateStrings.DateAddMoves | src/utils.ts:79-83 | `dateAdd(n, s)` is a real date string exactly `n` days after `s` |
| DateStrings.DateAddStep | src/main.ts:2774 | advancing one day at a time reaches `dateAdd(n + 1, s)` after `dateAdd(n, s)` |
| DateStrings.DashedDateStringSplits | src/utils.ts:86 | `YYYY-MM-DD` is the year, month and day slices with dashes, and splits back into them |
| DateStrings.DateToWeekday | src/utils.ts:89-92 | the weekday name is one of the seven names |
| DateStrings.WeekdayAnchor | src/main.ts:140-153 | 1 January 2024 is named Monday |
| DateStrings.WeekdayNext | src/main.ts:140-153 | each next day takes the next name in the week |
| DateStrings.WeekdayWeek | src/utils.ts:89-92 | a week later the name is the same |
| DateStrings.FlightDurationUnderMonth | src/utils.ts:100-104 | under 31 days the hours are the whole hours, the minutes the minutes within the hour, and the hour part is left out when zero |
| DateStrings.QueryKeyRoundTrip | src/utils.ts:110-114 | a 14-character key is rebuilt from its date, origin and destination, and back |
| DateStrings.QueryKeySegment | src/utils.ts:116-120 | a key's segment departs on its date from its origin to its destination |
| Cabins.CabinStatus | src/utils.ts:122-126 | a missing or non-numeric status counts 0 |
| Cabins.CabinStatusOfCount | src/utils.ts:122-126 | a count written as a status reads back as the count |
| Cabins.MinOf | src/components/FlightResult.tsx:15-18 | `Math.min` of a non-empty list is an element of it and no larger than any |
| Cabins.CabinColumn | src/components/FlightResult.tsx:15-18 | one count per segment; economy is E plus R |
| Cabins.ComponentAvail | src/components/FlightResult.tsx:15-18 | each cabin's count is a count of some leg and at most every leg's count |
| Cabins.InsertAvailIsMinOfLegs | src/main.ts:2896-2982 | the counts `insertResults` computes equal the component's minimum over the first one or two legs |
| Cabins.MinOfOneOrTwo | src/main.ts:2967-2982 | for two legs the minimum is `min(a, b)` when both are at least 1, and 0 otherwise |
| Cabins.Badges | src/components/FlightResult.tsx:21-24 | a badge exactly for each cabin with a seat, in F, J, PY, Y order; none exactly when no cabin has a seat |
| Cabins.AvailStringRoundTrip | src/main.ts:1914-1926 | the `data-flight-avail` text of a flight reads back, in the save handler, as its counts |
| Cabins.TransitCapture | src/components/FlightResult.tsx:56 | the captured group is 3 to 7 characters long |
| Cabins.TransitCodeOneStop | src/components/FlightResult.tsx:56 | `AAA:BBB:CCC_...` has transit code `BBB` |
| Cabins.TransitCodeTwoStops | src/components/FlightResult.tsx:56 | `AAA:BBB:CCC:DDD_...` has transit code `BBB / CCC` |
| Cabins.RenderFlightSpec | src/components/FlightResult.tsx:14-67 | a flight renders exactly when some cabin has a seat on every leg; its avail text reads back as its counts; `direct` exactly for one segment; badges exactly for cabins with seats |
| Sorting.InsertByKey | src/main.ts:2395 | inserting keeps the list sorted and adds exactly one entry |
| Sorting.SortByKey | src/main.ts:2395 | the result is ascending by key and a permutation of the input |
| SavedStore.SetDelete | src/main.ts:1878 | `delete` removes exactly that element and keeps the rest without duplicates |
| SavedStore.SetAdd | src/main.ts:1882 | `add` adds exactly that element and keeps the set without duplicates |
| SavedStore.Dedup | src/main.ts:187 | `new Set(list)` has no duplicates and exactly the list's elements |
| SavedStore.SetDeleteAt | src/main.ts:2386 | deleting an element stored once removes exactly it |
| SavedStore.KeepQueriesSpec | src/main.ts:2382-2389 | pruning keeps exactly the queries dated after now, each once |
| SavedStore.KeepFlightsSpec | src/main.ts:2423-2429 | pruning keeps exactly the flights dated after now, with their counts, each key once |
| SavedStore.KeepFlightsSubsequence | src/main.ts:2423-2429 | the kept entries are stored entries with unique keys |
| SavedStore.KeepFlightsKeys | src/main.ts:2423-2429 | a key survives pruning exactly when it is not past |
| SavedStore.KeepFlightsGet | src/main.ts:2423-2429 | a surviving key keeps its counts |
| SavedStore.KeepQueriesIdempotent | src/main.ts:2382-2388 | pruning twice with the same clock removes nothing more |
| SavedStore.KeepFlightsIdempotent | src/main.ts:2418-2444 | pruning the flights twice with the same clock removes nothing more |
| SavedStore.QueryRows | src/main.ts:2389-2393 | one row per saved query, in stored order |
| SavedStore.FlightRows | src/main.ts:2430-2442 | one row per saved flight, in stored order |
| SavedStore.FlightKeyDecomposition | src/components/SavedFlights.tsx:13-20 | a flight key's date, legs and stop read back from the key |
| SavedStore.Saved.constructor | src/main.ts:186-187 | loading deduplicates the stored query list |
| SavedStore.Saved.UpdateSavedCount | src/main.ts:2377-2416 | past queries are deleted in place; the list is the rest, sorted by date; the count is their number |
| SavedStore.Saved.UpdateSavedFlights | src/main.ts:2418-2489 | past flights are deleted in place; the list is the rest, split and sorted by date; the count is their number |
| SavedStore.Saved.ToggleQuery | src/main.ts:1874-1886 | the heart deletes the key when shown saved and adds it otherwise, then the list is pruned and relisted ascending by date |
| SavedStore.Saved.ToggleFlight | src/main.ts:1911-1931 | the heart deletes the flight when shown saved and stores its counts otherwise, then the list is pruned and relisted ascending by date |
| SavedStore.Saved.RemoveSaved | src/main.ts:1944-1951 | the remove link drops the key from both lists, and both are pruned and relisted ascending by date |
| SavedStore.Saved.RefreshFlight | src/main.ts:2951-2959 | a saved flight's counts are overwritten and the list pruned; an unsaved flight stays unsaved |
| SavedStore.RefreshKeepsKeys | src/main.ts:3019-3027 | a refresh never adds a key, and a refreshed future flight reads the new counts |
| SavedStore.PrunedAreFuture | src/main.ts:2382-2429 | after pruning everything saved is in the future and nothing in the future was lost |
| SavedStore.ListedRows | src/main.ts:2430-2444 | the listed rows show the saved entries, each once with its own key and counts, in ascending date order |
| SavedStore.RemoveKeys | src/components/SavedFlights.tsx:47 | each entry's remove link carries that entry's key |
| SavedStore.SavedFlightsViewSpec | src/components/SavedFlights.tsx:13-47 | one entry per saved flight, sorted by date, each removable by its full key, with the badges of its counts |
| SavedStore.ComponentSavedBadgesMissPremium | src/components/SavedFlights.tsx:39 | as written the component shows no badge for a saved flight with only premium seats, where the corrected view shows `PY` |
| SavedStore.ComponentSavedBadgesDiffer | src/components/SavedFlights.tsx:37-40 | the badges as written differ from a result row's exactly when there are premium seats |
| Results.InsertFlight | src/main.ts:2893-2989 | a flight is listed exactly when it has a seat, with the counts `insertResults` computes |
| Results.InsertFlightKey | src/main.ts:2927-2989 | the key reads back as the search date, first leg, and for a connection the transit code and second leg |
| Results.FirstLegs | src/main.ts:2896-2965 | `insertResults` reads the first one or two legs |
| Results.InsertFlightListed | src/main.ts:2928-2990 | a row is listed exactly when the component would render its first two legs, with the same counts |
| Results.RefreshAllNeverAdds | src/main.ts:2951-3027 | results never add a saved flight |
| Results.Listed | src/main.ts:2893-3029 | the listed flights are no more than the response's and each has a seat |
| Results.ListedPrefix | src/main.ts:2893-3029 | rows come in response order: the rows of the first flights are the first rows |
| Results.ListedComplete | src/main.ts:2893-3029 | every flight with a seat is listed, right after the rows of the flights before it |
| Results.ListedFromFlights | src/main.ts:2893-3029 | every row is the outcome of one of the response's flights |
| Results.ListedAmongPrefix | src/main.ts:2893-3029 | filtering the outcomes of a prefix of the response gives a prefix of the rows |
| Results.InsertResults | src/main.ts:2865-3035 | an error page touches nothing saved; otherwise each flight with a seat is listed and each saved one refreshed, in response order |
| Results.InsertFlights | src/main.ts:2893-3029 | the loop over a response's flights leaves the saved flights refreshed and the listed rows collected, flight by flight in response order |
| Results.InsertFlightAt | src/main.ts:2893-3029 | one flight adds its row when it has a seat and refreshes its saved entry, moving both results on by one flight |
| Checkpoint.OrElse | src/main.ts:200 | a stored field wins over the default |
| Checkpoint.Load | src/main.ts:199-200 | each field is the stored one, or the default when missing |
| Checkpoint.LoadStored | src/main.ts:199-200 | a stored full record loads back as itself; an empty store loads the defaults |
| Checkpoint.DecideResumes | src/main.ts:3069-3083 | a search resumes exactly when the record is ours and at most five minutes old, saved queries when `saved`, a single date when not `batch` |
| Checkpoint.SaveThenResume | src/main.ts:2700 | a record written by a search and read back within five minutes resumes that search |
| Checkpoint.CheckpointStore.Save | src/main.ts:2700 | the flags are stored with the time, and for five minutes resume that search |
| Checkpoint.CheckpointStore.Consume | src/main.ts:3069-3071 | our record is cleared before its age is checked, so it resumes at most once |
| Checkpoint.CheckpointStore.LegacySave | cx.user.js:2218-2221 | only set flags are written, so stored flags stay set; the time is always written |
| Checkpoint.CheckpointStore.LegacyConsume | cx.user.js:2617-2633 | as `Consume`, with the age check skipped in debug mode |
| Checkpoint.LegacySaveAfterReset | cx.user.js:237-242 | after a reset the legacy write stores exactly what the current script stores |
| Requests.QueryPayload | src/main.ts:2528-2557 | a one-way payload with the route's one segment and the passengers and cabin |
| Requests.MultiPayload | src/main.ts:2559-2589 | a multi-city payload with one segment per route, in order |
| Requests.SearchPayloadSpec | src/main.ts:2674-2681 | a request exactly when there is a route; segments in input order; one-way exactly for a single route |
| Requests.SplitFieldAt | src/main.ts:2822 | a `key=value` field splits back at its first `=` when the key has none |
| Requests.BodyRoundTrip | src/main.ts:2822 | the body, with no URL encoding, parses back to the parameters when no key or value holds `&` and no key holds `=` |
| Requests.PrepareParamsGet | src/main.ts:2811-2820 | the date, origin and destination keys are set, the four dropped keys are absent, every other key is unchanged |
| Requests.PrepareParamsDistinct | src/main.ts:2811-2820 | the rewrite keeps keys unique |
| Requests.CeilDivSpec | src/main.ts:2755 | `Math.ceil(a / b)` is the least count of `b`s covering `a` |
| Requests.ClampDays | src/main.ts:2755-2757 | days over `ceil(25 / n)` become `ceil(25 / n) - 1`; the result never exceeds the days or the ceiling, and stays non-negative |
| Requests.ClampCoversQuota | src/main.ts:2755-2757 | a clamped batch covers 25 requests with one more day and stays under them without it |
| Requests.Row | src/main.ts:2759-2763 | one route per destination, from one origin |
| Requests.ProductLength | src/main.ts:2752 | there are `from count * to count` routes |
| Requests.ProductAt | src/main.ts:2759-2763 | route `i * |tos| + j` is origin `i` to destination `j` (origin-major) |
| Requests.ProductMembers | src/main.ts:2759-2763 | a route is in the list exactly when its origin and destination are listed |
| Requests.Cartesian | src/main.ts:2759-2763 | the nested loops build the route product |
| Requests.TabErrorMessage | src/main.ts:2626-2637 | the page's message for an error step that has one, else `tab_retrieve_fail` |
| Orchestrator.QueryCount | src/main.ts:2752 | at least one query per day |
| Orchestrator.DateAddNonEmpty | src/main.ts:2747-2774 | the next date is never empty, so `bulkDate ||= ...` keeps it |
| Orchestrator.RegularSearch | src/main.ts:2666-2718 | a payload exactly when there is a route; the checkpoint is stored with the time only then |
| Orchestrator.Batch.constructor | src/main.ts:2274-2276 | a fresh page: not searching, no stop, 20 days, no date, no chain |
| Orchestrator.Batch.ResetSearch | src/main.ts:2278-2284 | clears `searching` and restores 20 days, nothing else |
| Orchestrator.Batch.StopBatch | src/main.ts:2286-2293 | requests a stop, resets the search and clears the banner |
| Orchestrator.Batch.RouteEdited | src/main.ts:1807-1820 | the checked text of the origin or destination becomes the form's field and the route is marked changed; the alert lists the reported pieces, and the new field has nothing left to report |
| Orchestrator.Batch.DateEdited | src/main.ts:1837-1845 | a valid date marks the route changed; any other text changes nothing and the field shows the form's date again |
| Orchestrator.SearchRequestPosts | src/main.ts:2787-2822 | a search posts exactly when no stop is pending, the destination is an airport code and the parameters are an object, and the body carries the searched date, origin and destination without the dropped keys; with `false` for parameters it throws |
| Orchestrator.RecoveringNeverThrows | src/main.ts:2787-2822 | the corrected search never throws: with parameters it is `searchAvailability`'s request; without, it fetches a key and retries, and the retry posts the searched date, origin and destination |
| Orchestrator.MintFailureStallsSearch | src/main.ts:2626-2637 | a failed key mint leaves `false`, and the next search of an airport code throws with `searching` set |
| Orchestrator.Batch.SearchAvailability | src/main.ts:2787-2822 | its effect is `SearchRequest` of the pending stop and the parameters before it: no request after a stop, the error page for an invalid destination, otherwise the rewritten parameters posted, or a throw with the search marked running when the parameters are `false`; the stop is cleared and nothing else of the batch changes |
| Orchestrator.Batch.OnResponse | src/main.ts:2838-2858 | 200 with JSON runs the callback, 200 without JSON stops with a message, 200 whose `pageBom` does not parse throws with the banner cleared, 404 and other statuses from 300 fetch a new key and retry, 201..299 does nothing |
| Orchestrator.Batch.OnMint | src/main.ts:2626-2660 | parameters that parse to a non-empty object replace the shared ones and the search is retried, with the request `SearchRequest` gives; otherwise the search is reset with the message, the parameters become the parse result on a 200 (`false` when it fails) and stay otherwise, and the callback never runs |
| Orchestrator.Batch.BulkSearch | src/main.ts:2727-2781 | spends a day (stops when none is left), clamps to the quota, leaves for the search page when needed, and otherwise sends the request for the first route of the product on `bulkDate`, with the rest to follow |
| Orchestrator.Batch.SearchDate | src/main.ts:2748-2780 | the date defaults to the form's, the days are clamped, and the first route's request is sent with the other routes queued in product order |
| Orchestrator.Batch.BulkClick | src/main.ts:2295-2325 | stops a running batch; otherwise reads the form, restarts from its date after an edit or when no date is set, and sends the first route's request (or leaves for the search page) |
| Orchestrator.Batch.SavedSearch | src/main.ts:2327-2375 | sends the request for the earliest saved query with the rest queued in ascending date order, or first leaves for the search page with the earliest; with no saved query it throws on the missing query |
| Orchestrator.Batch.StartQueries | src/main.ts:2338-2374 | the first query's request is sent with the rest queued and the route marked changed |
| Orchestrator.Batch.Callback | src/main.ts:2767-2778 | the callback of the chain in progress: the results are inserted and listed, then the next route's or query's request is sent; after the last route the date moves on one day and the next date's first request is sent (no request after a single date); the saved-query chain ends stopped with the stop cleared |
| Orchestrator.Batch.NextRoute | src/main.ts:2767-2778 | `populateNextRoute`: inserts the results, sends the next route's request on the same date, or after the last route moves the date on by one day and sends the request `bulkSearch` makes |
| Orchestrator.Batch.NextQuery | src/main.ts:2357-2367 | `populateNextQuery`: inserts the results, sends the next query's request, or after the last one stops with the stop cleared |
| Orchestrator.Batch.Resume | src/main.ts:3077-3081 | the saved-queries search or a batch (single date when not `batch`), with the first request each sends |
| Orchestrator.Batch.InitSearchBox | src/main.ts:3063-3083 | prunes both lists, clears our checkpoint, and resumes only a fresh one, sending the first request of the resumed search |
| AirportCheck.FilterCodes | src/main.ts:2496-2501 | kept codes pass, reported pieces fail and are non-empty, all from the field |
| AirportCheck.FilterCodesComplete | src/main.ts:2496-2501 | every piece is kept, reported, or empty |
| AirportCheck.FilterCodesAllPass | src/main.ts:2496-2501 | codes that all pass are kept as they are, nothing reported |
| AirportCheck.CheckFieldIdempotent | src/main.ts:2495-2506 | after the check nothing is left to report, so a second check changes nothing |
| AirportCheck.Alert | src/main.ts:2503-2506 | an alert exactly when something was reported |
| AirportCheck.ListedIsStricter | cx.user.js:1998-2017 | with an airport list of three-letter codes the current check keeps no code the legacy one drops |
| Filters.FilterToClassName | src/main.ts:2023-2035 | a class exactly for the five known filters, an error otherwise |
| Filters.FilterClassRoundTrip | src/main.ts:2023-2035 | the filter reads back from its class |
| Filters.FilterClassInjective | src/main.ts:2023-2035 | two filters never toggle the same class |
| Legacy.CxToggleQuery | cx.user.js:1358-1369 | shown saved deletes the key; otherwise it is stored as 1 |
| Legacy.CxToggleQueryKeys | cx.user.js:1358-1369 | the legacy object's keys follow the current Set's `delete` and `add` |
| Legacy.KeysRemoveIsSetDelete | cx.user.js:1362 | deleting an object key removes it from the key list as `delete` does on a Set |
| Legacy.CxStoredAvailReadsBack | cx.user.js:1370-1387 | the four stored strings read back as the counts the current script stores as numbers |
| Legacy.CxDateAddDiffers | cx.user.js:165-175 | agrees with the current `dateAdd` on non-empty strings; an empty string moves from today, where the current one moves from 30 November 1899 |
| Legacy.CxTabErrorMessage | cx.user.js:2147-2168 | the page's message only when non-empty, else `tab_retrieve_fail` |
| Legacy.TabMessagesDiffer | cx.user.js:2152-2167 | the two messages differ exactly for an error page with an empty message |
| Legacy.MintFailureDiffers | cx.user.js:2149 | the legacy script gives up only when nothing parsed, the current one also on an empty object |
| Legacy.CxRoutes | cx.user.js:2297-2310 | at least one route |
| Legacy.CxRoutesFirst | cx.user.js:2297-2310 | unlocked, the routes are the product; locked, only its first route |

## Left out

- DOM and presentation are not modelled: HTML templates, CSS, buttons and their labels, autocomplete, the sticky footer, the table rows of `insertResults`, and multi-city segment numbering.
- HTTP, `GM` storage, `JSON.parse` and the regex extraction of `requestParams` and `errorBom` are not modelled. Their results are parameters: a status plus an optional parsed value.
- `setTimeout`, `await` interleavings and concurrent clicks are not modelled. Each handler runs to completion, and the environment answers each `Effect` in turn.
- `getFlightTime` is left out, because it is `Date` library formatting of an epoch time.
- Time zones and daylight saving are not modelled: `now` counts local midnights as whole days.
- Text.ToNumber: `+s` and `parseInt` are modelled only for digit strings. Blanks, signs, fractions and exponents are read as NaN.
- SavedStore.DateKey: a NaN date sorts as 0, because the comparator result of NaN is not modelled.
- Sorting.SortByKey: states ascending order and a permutation, not the stability of `Array.prototype.sort`.
- Results.InsertFlight: requires a flight with a segment and, for a connection, a transit code. The source throws on any other flight, and that throw is not modelled; a response's flights are typed `ReadableFlight` for the same reason.
- Results.InsertResults: reads only the first two legs, as the source does; a flight with three or more legs is shown with its first two only.
- Orchestrator.Batch.RouteEdited: the keyup handler and the button label are not modelled; the airport list is a parameter.
- Orchestrator.Batch.BulkSearch: passengers are carried into the navigation payload only; the source never writes them into `requestParams`.
- The normalisation of the origin and destination fields before the airport check (upper-casing, splitting on blanks) is not modelled.
- Legacy: `cx.user.js` differences left as prose:
  - `bulk_search` re-reads the form and handles `route_changed` itself;
  - `saved_search` sorts with `a.date - b.date`, which gives the same order for digit strings;
  - `saved_search` ends with `route_changed` set;
  - the legacy `resetSearch` does not restore the days, which `stop_batch` does instead.

## Findings

| source | as written | input that shows it | evidently intended | confidence | as-written member | corrected member |
|---|---|---|---|---|---|---|
| src/utils.ts:63-76 | month and day are checked after `new Date` has normalised them | "20230229", checked on 1 March 2023, is accepted as 1 March | reject dates that do not exist, as src/main.ts:108-122 does | not executed | DateStrings.UtilsIsValidDateAcceptsFeb29 | DateStrings.IsValidDateSound |
| src/components/SavedFlights.tsx:39 | the premium badge reads `avail.PY`, but saved counts have `P` (src/types.ts:127-132) | a saved flight with counts F 0, J 0, P 2, Y 0 shows no badge | show `PY` from the `P` count | not executed | SavedStore.ComponentSavedBadgesMissPremium | SavedStore.SavedFlightsViewSpec |
| src/main.ts:2630-2633 | a key mint whose parameters do not parse stores `false` in `requestParams`, and the next search writes `B_DATE_1` into it (src/main.ts:2808-2811), which throws in strict mode | a 200 without parameters, then a search of an airport code: nothing is posted and `searching` stays set | fetch a new key before searching, as the 404 and other error statuses do | not executed | Orchestrator.MintFailureStallsSearch | Orchestrator.RecoveringNeverThrows |

The batch keeps the written behaviour of the key mint; `SearchRequestRecovering` is the corrected request, and `RecoveringNeverThrows` proves it never throws.

Where the prose description of the script and its code disagree, the model follows the code:
- The request body is not URL-encoded.
- The result of a search that was in flight when the user stopped is still inserted; the stop takes effect at the next search.
- `searchAvailability` does not write the passengers into the request parameters.
