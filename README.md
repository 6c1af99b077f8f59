# SitAware engine — a Dafny model

SitAware is a situational-awareness dashboard. It pulls four public feeds:

- FEMA disaster declarations;
- NWS weather alerts;
- NIFC wildfire incidents;
- USGS earthquakes.

The engine in `js/data.js` keeps each feed's raw records and a filtered view. It narrows those views to the "active" records and to the US states the user has selected. From the four filtered views it builds two outputs:

- a needs-action list, at most three items in fixed priority order;
- an overall status level (danger, warning or success).

It also restores the last-known picture from session storage at start-up, and it has a few small classifiers and formatters (chip kinds, incident icons, feed age and staleness, relative times).

This project models that engine:

| module | file | models |
|---|---|---|
| `Wrappers` | `wrappers.dfy` | `Option`, standing for a JavaScript `null` or a missing property |
| `Seqs` | `seqs.dfy` | `Array.prototype.filter` as `Filter`, with its order-preserving-subsequence and membership laws |
| `Text` | `text.dfy` | ASCII upper-casing, `includes` and `endsWith` on strings |
| `Feeds` | `feeds.dfy` | one record type per feed; the `CONFIG` thresholds; the `US_STATES` table; each feed's "active" predicate |
| `Dedup` | `dedup.dfy` | the FEMA de-duplication by disaster number: the loop with its `seen` set, and the function it is proved against |
| `Scope` | `scope.dfy` | `filterBySelectedStates`: the per-feed keep predicates and the four filtered views |
| `Status` | `status.dfy` | `computeStatus` as functions: the four checks, the list cut to three, the level |
| `Formatters` | `formatters.dfy` | `containmentKind`, `nwsSeverityKind`, `femaIcon`, `isFeedStale`, `feedAge`, `timeAgo`, `timeUntil` |
| `Engine` | `engine.dfy` | the mutable `state` object as class `Dashboard`; its steps: fetch start and completion, `loadCachedData`, `filterBySelectedStates`, `computeStatus`, `fetchAllData`, the per-feed refresh callbacks, a scope change |

The model has two layers:

- The decision logic is pure: datatypes, functions and lemmas.
- The engine's state is a class. Its methods update the fields the JavaScript updates. Each method's `ensures` ties the new state to the pure functions. Two examples:
  - after `ComputeStatus(now)` the list and level are `NeedsAction(...)` and `Level(...)` of the filtered views;
  - after `FilterBySelectedStates(now)` every view is `Scoped...(raw, selection, now)`.

The code's behaviour, followed by the model:

- A fetch that completes runs in this order:
  1. replaces `raw`;
  2. recomputes `filtered`;
  3. stamps `lastFetch`;
  4. sets `status` to ok;
  5. writes the cache.

  The final write of the timestamp to session storage is not guarded by `cacheSet`'s error handling. If it throws, the `catch` sets `status` to error after the data has already been replaced. `Outcome.Fetched.stampSaved` models this.
- The NWS fetch does not touch `filtered`. The FEMA, fire and quake fetches set `filtered` to the active records only, not yet narrowed to the selected states. The scope is applied only when the caller runs `filterBySelectedStates`. `fetchAllData` and every refresh callback run it right after the fetch. So the "filtered is always raw narrowed by activity and scope" invariant holds after those compositions (`ScopeApplied`), but not between a single fetch and the following filter.
- With no states selected, the filtered views still apply each feed's activity predicate. Only the NWS view equals its raw records (`Scope.EmptyScopeKeepsActive`). A description of the engine that says "filtered = raw when the scope is empty" holds for the NWS feed alone.
- The quake item's severity comes from the first action quake only. A PAGER-red quake listed after an unalerted M5+ quake leaves the level at warning (`Status.RedQuakeBehindUnalertedOne`).

Time is the parameter `now`, an integer count of milliseconds. Every timestamp is modelled as milliseconds, and date strings are taken as already parsed. For a positive divisor, JavaScript's `Math.floor(x / k)` equals Dafny's `x / k`.

## Model

| member | source | states |
|---|---|---|
| `Seqs.Filter` | js/data.js:121-126 | the kept records are exactly the input records that satisfy the predicate, each kept as many times as it occurs in the input, as an order-preserving subsequence of the input, no longer than it |
| `Seqs.FilterHeadIsFirst` | js/data.js:315-324 | the head of a filtered list is the first record of the input that satisfies the predicate (`extremeAlerts[0]` and the other three checks) |
| `Seqs.FilterAll` | js/data.js:269-270 | filtering with a predicate that every element satisfies returns the input unchanged |
| `Seqs.FilterCongruent` | js/data.js:261-266 | two predicates that agree on every element filter to the same sequence |
| `Text.Upper` | js/data.js:271 | `toUpperCase` keeps the length and upper-cases each ASCII letter in place |
| `Text.ContainsUpper` | js/data.js:271-274 | a substring stays a substring after both strings are upper-cased |
| `Text.EmptyMatchesNothing` | js/data.js:297-302 | the empty string neither contains nor ends with a non-empty string |
| `Feeds.UsStateName` | js/data.js:50-63 | the code-to-name table: every known code has two letters and a non-empty name; any other code has no name |
| `Feeds.DeclarationActive` | js/data.js:119-126 | a declaration without an incident end date is active; one whose end date is at or before `now` is not |
| `Feeds.FireActive` | js/data.js:190-194 | an active fire reports a daily acreage or a personnel count; a fire at 100% containment or more is never active |
| `Feeds.QuakeSignificant` | js/data.js:226-230 | every M5.0+ quake and every red or orange PAGER quake is significant; a quake under M4.0 with no PAGER alert or a green one is not |
| `Feeds.ReportedAcres` | js/data.js:369 | a non-zero daily acreage wins; when the daily acreage is missing or zero, a known calculated acreage is used; otherwise zero |
| `Dedup.DedupByDisasterNumber` | js/data.js:111-117 | the loop with its `seen` set returns exactly `FirstPerNumber(all)`; the result holds each disaster number once and loses none |
| `Dedup.Unseen` | js/data.js:112-116 | the walk keeps no more records than it reads, only records of the input, and none whose number was already seen |
| `Dedup.FirstPerNumber` | js/data.js:111-117 | the de-duplicated list is no longer than the feed, holds only feed records, and always keeps the feed's first record |
| `Dedup.FirstPerNumberCorrect` | js/data.js:111-117 | the de-duplicated list is an order-preserving subsequence, has distinct numbers and the same set of numbers, and keeps for each number the first record carrying it |
| `Dedup.UnseenProperties` | js/data.js:112-116 | started from any set of numbers already seen, the walk keeps exactly the records whose numbers are new, each the first of its number |
| `Dedup.EarlierDuplicateWins` | js/data.js:111-117 | of two records sharing a disaster number, the earlier one survives and a different later one is dropped |
| `Dedup.FirstWithAt` | js/data.js:113-116 | the record at the first position carrying a number is the one the first-match lookup finds |
| `Scope.KeepDeclaration` | js/data.js:261-266 | a kept declaration is active; with nothing selected exactly the active ones are kept; with a selection, one without a state is dropped |
| `Scope.KeepAlert` | js/data.js:269-276 | with nothing selected every alert is kept; with a selection an alert is kept only through a selected code that has a name in the table |
| `Scope.KeepFire` | js/data.js:279-289 | a kept fire is active; with nothing selected exactly the active fires are kept |
| `Scope.KeepQuake` | js/data.js:292-304 | a kept quake is significant; with nothing selected exactly the significant quakes are kept |
| `Scope.ScopedDeclarations` | js/data.js:261-266 | a declaration is kept iff it is active at `now` and the selection is empty or contains its state code; order is preserved |
| `Scope.ScopedAlerts` | js/data.js:269-276 | for a non-empty selection, an alert is kept iff its area description contains, ignoring case, the full name of some selected state; order is preserved |
| `Scope.ScopedFires` | js/data.js:279-289 | a fire is kept iff it is active and the selection is empty or its origin state contains a selected state's full name; order is preserved |
| `Scope.ScopedQuakes` | js/data.js:292-304 | a quake is kept iff it is significant and the selection is empty or its place ends in ", XX" or mentions a selected state's full name; order is preserved |
| `Scope.EmptyScopeKeepsActive` | js/data.js:256-304 | with nothing selected, alerts pass unchanged and the other feeds are narrowed by their activity predicate alone |
| `Scope.MissingLocationNeverMatches` | js/data.js:265 | with a non-empty selection, a record missing its state, area, origin state or place is never kept |
| `Scope.NameAsWrittenMatches` | js/data.js:272-275 | a state's full name written anywhere in the text, in any mix of ASCII letter case (any spelling that upper-cases to the same string as the table's), matches that state's code |
| `Scope.WiderScopeKeepsMore` | js/data.js:256-304 | selecting more states never drops a record that a smaller non-empty selection kept |
| `Scope.CaliforniaByName` | js/data.js:269-276 | with CA selected, an alert whose area spells out "California" is kept |
| `Scope.CaliforniaBySuffix` | js/data.js:297-300 | with CA selected, a significant quake whose place ends in ", CA" is kept |
| `Status.Actions` | js/data.js:312-385 | the four checks collect at most four items |
| `Status.IsNewDeclaration` | js/data.js:331-334 | a declaration is new exactly when its date is later than 48 hours before now; any declaration dated now or later is new |
| `Status.IsActionQuake` | js/data.js:349-352 | every action quake is significant; below magnitude 5.0 with no, yellow or green PAGER alert a quake is not an action quake |
| `Status.IsLargeFire` | js/data.js:397-399 | a large fire has a positive reported acreage; a daily acreage of 10,000 or more makes a fire large |
| `Status.IsUncontainedLargeFire` | js/data.js:368-371 | every uncontained large fire is large; a large fire with unknown containment is uncontained; 50% or more contained never is |
| `Status.QuakeItem` | js/data.js:355-364 | the quake item comes from that quake, ranks third, is danger exactly under a red PAGER alert and warning otherwise, with a danger chip exactly at magnitude 6.0 or above |
| `Status.FireItem` | js/data.js:375-384 | the fire item comes from that fire, ranks last, is always warning, with a danger chip exactly when containment is unknown or below 25% |
| `Status.NeedsAction` | js/data.js:387 | the published list is a prefix of the collected list of length exactly min(3, collected): all of it when at most three were collected, otherwise its first three |
| `Status.Level` | js/data.js:389-405 | the level is danger, warning or success; it is never success when any item was collected; it is danger only when some item was collected |
| `Status.FirstWithUnique` | js/data.js:318-324 | at most one record is the first to satisfy a check |
| `Status.FilterNonEmpty` | js/data.js:316 | a check's filtered list is non-empty iff some record qualifies |
| `Status.HeadItemFirst` | js/data.js:335-345 | a check yields at most one item, yields one iff some record qualifies, and builds it from the first qualifying record |
| `Status.BlocksFacts` | js/data.js:314-385 | for each of the four checks: at most one item, present iff some record qualifies, of the check's rank, built from the first qualifying record; the weather and declaration items are danger, the fire item warning |
| `Status.AlertBlockFacts` | js/data.js:314-328 | the weather check yields one danger item iff an Extreme alert exists, built from the first one |
| `Status.DeclarationBlockFacts` | js/data.js:330-346 | the declaration check yields one danger item iff a declaration is newer than 48 hours, built from the first one |
| `Status.QuakeBlockFacts` | js/data.js:348-365 | the quake check yields one item iff a quake is M5.0+ or PAGER red or orange, built from the first one |
| `Status.FireBlockFacts` | js/data.js:367-385 | the fire check yields one warning item iff a fire has at least 10,000 acres and is under 50% contained, built from the first one |
| `Status.ActionsShape` | js/data.js:312-387 | at most four items are collected and at most three kept; both lists follow the order weather, declarations, quakes, fires, with no source twice; the kept list is the head of the collected one |
| `Status.ActionsRanked` | js/data.js:314-385 | the collected items come in strictly increasing check rank |
| `Status.RankedPrefix` | js/data.js:387 | cutting a strictly ranked list keeps it strictly ranked |
| `Status.ActionsFromFirstQualifying` | js/data.js:314-385 | each feed contributes an item iff one of its records qualifies, and every item comes from its feed's first qualifying record |
| `Status.AnyDangerByBlocks` | js/data.js:390 | the collected list holds a danger item iff there is a weather item, a declaration item, or a quake item whose quake is PAGER red |
| `Status.LevelCharacterised` | js/data.js:389-405 | the level is danger, warning or success; it is danger iff an Extreme alert, a new declaration, or a red first action quake exists; it is success iff no alert is Extreme or Severe, no declaration is new, no quake calls for action and no fire is large |
| `Status.DangerShownInNeedsAction` | js/data.js:387-391 | cutting the list to three never hides a danger item: the level is danger iff the published list shows one |
| `Status.ExtremeWeatherFirst` | js/data.js:314-328 | an Extreme alert always takes the first slot, ahead of a simultaneous new declaration |
| `Status.QuietFeedsAreSuccess` | js/data.js:402-403 | with all filtered views empty, the list is empty and the level is success |
| `Status.FireThresholdBoundary` | js/data.js:367-371 | at least 10,000 acres and strictly below 50%: 10,000 acres at 50% raises no item, at 49% a warning item |
| `Status.RedQuakeBehindUnalertedOne` | js/data.js:353-360 | only the first action quake's PAGER level counts: a red quake behind an unalerted M5.2 leaves the level at warning |
| `Formatters.ContainmentKind` | js/data.js:475-479 | the chip is danger, warning or success; unknown containment is danger; 100% or more is success |
| `Formatters.NwsSeverityKind` | js/data.js:502-509 | never success; danger exactly for "Extreme"; neutral exactly for severities other than Extreme, Severe and Moderate |
| `Formatters.IsFeedStale` | js/data.js:469-472 | a feed never fetched is stale; a feed stamped at or after `now` is not |
| `Formatters.FeedAge` | js/data.js:460-467 | "never" exactly for a missing or zero stamp; a seconds count is below 60; a minutes count is at least 1 |
| `Formatters.TimeAgo` | js/data.js:416-426 | empty exactly when there is no time; minutes are 1 to 59, hours 1 to 23, days at least 1 |
| `Formatters.TimeUntil` | js/data.js:428-440 | empty exactly when there is no date; expired exactly when the date is strictly past; minutes are 0 to 59, hours 1 to 23, days at least 1 |
| `Formatters.ContainmentKindMonotone` | js/data.js:475-479 | the containment chip is one of three kinds; more containment never gives a more urgent chip; unknown is as urgent as any value |
| `Formatters.FireChipIsContainmentKind` | js/data.js:383 | on every fire that raises an item, the item's own chip test agrees with `containmentKind` |
| `Formatters.SeverityKindMatchesStatusRules` | js/data.js:502-509 | the severity chip is danger iff the alert is Extreme and warning iff it is Severe, matching the status rules |
| `Formatters.FemaIcon` | js/data.js:482-499 | the icon is never empty; it is the fallback icon iff the incident type is not one of the thirteen listed |
| `Formatters.FeedAgeBuckets` | js/data.js:460-467 | "never" iff the stamp is missing or zero; otherwise whole seconds under a minute, then whole minutes, each the elapsed time rounded down |
| `Formatters.StaleAgreesWithAge` | js/data.js:469-472 | a stale feed shows "never" or at least ten minutes; a fresh one shows seconds or at most ten minutes |
| `Formatters.TimeAgoBuckets` | js/data.js:416-426 | "just now" below a minute (and for future times); minutes below an hour, hours below a day, then days; each count is the elapsed time rounded down to its unit |
| `Formatters.TimeUntilBuckets` | js/data.js:428-440 | "expired" iff the time is strictly past; then minutes below an hour, hours below a day, days; each count is the remaining time rounded down |
| `Engine.CollectActions` | js/data.js:312-385 | the pushes of the four checks build exactly `Actions` of the filtered views |
| `Engine.DetermineLevel` | js/data.js:389-405 | given the collected items, the level chosen is exactly `Level` of the filtered views |
| `Engine.StampOrNull` | js/data.js:518 | a missing or zero stamp reads as never fetched; any other value is kept |
| `Engine.Hydrated` | js/data.js:515-519 | without a cache entry the feed is unchanged; with one, the raw records become the cached ones, the status ok, the filtered view is kept, and the stamp is known exactly when the cached stamp is present and non-zero |
| `Engine.Dashboard.constructor` | js/data.js:66-75 | start-up: nothing selected, every feed empty and idle, no items, level success |
| `Engine.Dashboard.BeginFemaFetch` | js/data.js:96 | the feed goes to loading, and nothing else changes |
| `Engine.Dashboard.EndFemaFetch` | js/data.js:105-135 | on failure only the status changes, to error; on a response, raw is the first record per disaster number, filtered the active ones, the stamp `now`, the status ok (error if storing the stamp failed); other feeds untouched |
| `Engine.Dashboard.BeginNwsFetch` | js/data.js:140 | the feed goes to loading, and nothing else changes |
| `Engine.Dashboard.EndNwsFetch` | js/data.js:143-162 | a response replaces raw and the stamp; filtered is left as it was; a failure sets only the status to error |
| `Engine.Dashboard.BeginFiresFetch` | js/data.js:167 | the feed goes to loading, and nothing else changes |
| `Engine.Dashboard.EndFiresFetch` | js/data.js:177-203 | on failure only the status changes; on a response, raw is replaced and filtered holds the active fires |
| `Engine.Dashboard.BeginQuakesFetch` | js/data.js:208 | the feed goes to loading, and nothing else changes |
| `Engine.Dashboard.EndQuakesFetch` | js/data.js:211-239 | on failure only the status changes; on a response, raw is replaced and filtered holds the significant quakes |
| `Engine.Dashboard.FilterBySelectedStates` | js/data.js:256-305 | every filtered view becomes the scoped view of its raw records; nothing else changes; afterwards every view is a subsequence of its raw records |
| `Engine.Dashboard.ComputeStatus` | js/data.js:309-406 | the list and level become `NeedsAction` and `Level` of the filtered views; nothing else changes; when they are already current the state is left as it was (idempotence) |
| `Engine.Dashboard.LoadCachedData` | js/data.js:513-538 | each feed with a cache entry gets its raw records, status ok and its stamp (missing or zero reads as never fetched); filtered views and other fields untouched |
| `Engine.Dashboard.FetchAllData` | js/data.js:551-563 | each feed is replaced or, on failure, keeps its raw records and stamp and reports an error; afterwards the views are scoped, every view lies within its raw records, and the list and level are current; a failed feed whose view was up to date is unchanged apart from its status |
| `Engine.Dashboard.RefreshFema` | js/data.js:568 | the FEMA feed is fetched and settled as its fetch step says (raw replaced, or kept on failure); the other three feeds keep their raw records, status and stamp (and, when the views were up to date for `now`, are unchanged); the selection is kept; afterwards the views are scoped and the status is current; a failure leaves an up-to-date FEMA feed unchanged apart from its status |
| `Engine.Dashboard.RefreshNws` | js/data.js:569 | the NWS feed is fetched and settled as its fetch step says (raw replaced, or kept on failure); the other three feeds keep their raw records, status and stamp (and, when the views were up to date for `now`, are unchanged); the selection is kept; afterwards the views are scoped and the status is current; a failure leaves an up-to-date NWS feed unchanged apart from its status |
| `Engine.Dashboard.RefreshFires` | js/data.js:570 | the fire feed is fetched and settled as its fetch step says (raw replaced, or kept on failure); the other three feeds keep their raw records, status and stamp (and, when the views were up to date for `now`, are unchanged); the selection is kept; afterwards the views are scoped and the status is current; a failure leaves an up-to-date fire feed unchanged apart from its status |
| `Engine.Dashboard.RefreshQuakes` | js/data.js:571 | the quake feed is fetched and settled as its fetch step says (raw replaced, or kept on failure); the other three feeds keep their raw records, status and stamp (and, when the views were up to date for `now`, are unchanged); the selection is kept; afterwards the views are scoped and the status is current; a failure leaves an up-to-date quake feed unchanged apart from its status |
| `Engine.Dashboard.ChangeScope` | js/brief.js:42-47 | a new selection is stored, and the scope filter and status are rerun (`onStateChange`, js/brief.js:407-411); each feed keeps its raw records, status and stamp, and only its view changes; views, list and level become coherent |

## Left out

- Network access, URL construction (the FEMA 30-day cutoff, the NIFC query fields) and JSON decoding. Each fetch's result is an `Outcome` parameter: a failure, or the feed's normalised records.
- Normalisation (spreading feature properties, coordinates, `id`). Records arrive already in the per-feed datatypes, and only the fields the engine reads are kept.
- Session and local storage I/O. `cacheSet` and `cacheGet` are not modelled, nor are the clearing of a full store, `loadSelectedStates` and `saveSelectedStates`. Cache contents are a `Cache` parameter, whose `None` entry covers a missing or corrupt entry. A failing timestamp write is the `stampSaved` flag.
- Timers: `startAutoRefresh` and `stopAutoRefresh`. One timer callback is modelled as a `Refresh...` method; the intervals and clearing the timers are not.
- Event dispatch to the display, and the theme functions.
- Overlapping refreshes of the same feed. Each method runs to completion, so a slow response overwriting a newer one is not represented.
- Each step reads one `now`. The code reads the clock again inside the FEMA scope filter, once per record.
- The item text: headline, detail (including the NWS area list), time, chip label. `formatAcres`, `formatNumber` and `formatDate` (floating point and locale formatting) are also left out.
- Date-string parsing. Dates are integers, so an unparsable date (`NaN` in JavaScript) is not represented.
- `Text.Upper`: upper-cases ASCII letters only, not the full Unicode `toUpperCase`.
- Absent versus `null` properties. Both are `None`. The fire filter's `=== null` test treats an absent `PercentContained` as fully contained; the model reads every missing percentage as `null`, which the upstream JSON sends for requested fields.
- Fractional containment percentages. `PercentContained` is a whole number here, while JavaScript compares a double with 25, 50, 75 and 100; a value such as 49.5 cannot be represented.
- `femaIcon` on an incident type that is an object-prototype key (for example `constructor`). JavaScript's `map[type]` then yields a function rather than the fallback icon; `Formatters.FemaIcon` returns the fallback for every unlisted type.
- A missing or non-numeric quake magnitude. `mag` is always a number here.
- Lookups of state codes that are JavaScript object-prototype keys (for example `constructor`). The model's table answers `None` for every code not listed.
- `getStateFiltered`. It is defined but never called by the engine.
