# Work-hours tracker — a verified model

This project models the logic of a one-button work-hours tracker. A user
clocks in and out during the day; the app totals work and break time
against an 8-hour (480-minute) goal; the browser keeps a mirror of the
user's session record and saves it to the server with a 2-second debounce;
the server keeps one session record per user, resets it when a new day
starts, and archives finished days as daily logs.

Modules (one file each):

- `Optional` — the option type.
- `Strings` — decimal rendering of integers, JavaScript `parseInt`, suffix test, string order.
- `Records` — clock entries, daily totals, the session record, the daily-log
  document and its schema check, the JSON value the browser holds, and the
  replies of the server routes.
- `Stats` — the pairwise work/break totals, rounding to minutes and the
  goal test (shared by the timer hook and the stand-alone page).
- `Display` — `formatSecondsToHMS`, `formatMinutesToHours` and `getRemainingTime`.
- `SessionManager` — the browser session mirror (`useSessionManager`): a
  class with the mirror, loading flag, error, abstract clock, debounce slot
  and the outboxes of saves, heartbeats and unload beacons. The debounce is
  specified by pure functions on an `Outbox` value.
- `RealtimeTimer` — the timer hook (`useRealtimeTimer`): live counters,
  the stats with live time, the stats-changed guard, clock in and out.
- `TrackerPage` — the older stand-alone page with its own entry list and
  break dialog.
- `SessionApi` — the sign-in filter and the GET/POST/DELETE handlers of the
  session route over a store keyed by user id.
- `HeartbeatApi` — the heartbeat route.
- `DailyLogsApi` — the daily-log route: save by (user, date) and the
  paginated listing.

Time is an integer count of milliseconds and totals are exact; `Math.round`
of a minute count is `floor(ms / 60000 + 1/2)`, and the goal is judged on
the unrounded total. The server's `today` and `now`, the browser clock, the
authenticated identity and every reply of `fetch` are parameters.

## Model

| member | source | states |
|---|---|---|
| Stats.PairTotals | src/hooks/useRealtimeTimer.js:62-84 | the two accumulating loops compute exactly the sum over even-offset IN→OUT pairs and over odd-offset OUT→IN pairs |
| Stats.PairSumAppend | src/hooks/useRealtimeTimer.js:62-84 | appending an entry adds exactly the pair it completes, when that pair starts at the right parity with the right types, and nothing otherwise |
| Stats.TrailingUnpairedIgnored | src/hooks/useRealtimeTimer.js:62-69 | an entry that starts a new pair contributes nothing to the total |
| Stats.WorkMs | src/hooks/useRealtimeTimer.js:62-74 | work time: the completed pairs plus the live seconds when working and positive; stated by `RealtimeTimer.HookStatsMeaning` and `RealtimeTimer.ClockOutContinuity` |
| Stats.BreakMs | src/hooks/useRealtimeTimer.js:77-89 | break time: the completed pairs plus the live seconds when on break, positive and with some entry; stated by `RealtimeTimer.HookStatsMeaning` and `RealtimeTimer.ClockInContinuity` |
| Stats.DailyStatsOf | src/hooks/useRealtimeTimer.js:48-98 | no entries gives zero totals, else `StatsFromMs` of the two totals; stated by `RealtimeTimer.HookStatsMeaning` and `TrackerPage.PageStatsWithoutLiveTime` |
| Stats.AlternatingSpan | src/hooks/useRealtimeTimer.js:62-84 | for a strictly alternating day starting with IN, work plus break time equals the span from the first to the last entry |
| Stats.RoundMinutes | src/hooks/useRealtimeTimer.js:95-96 | the stored minute count is the nearest whole minute, halves rounding up |
| Stats.StatsFromMs | src/hooks/useRealtimeTimer.js:91-97 | `isComplete` holds exactly when unrounded work reaches 480 minutes; the stored totals are the rounded ones |
| Stats.OnePairTotals | src/app/page.js:90-102 | one IN→OUT pair gives its duration as work and no break |
| Display.JsRem | src/hooks/useRealtimeTimer.js:186-187 | JavaScript `%`: for a non-negative dividend the Euclidean remainder, for a negative one the negated remainder of its magnitude, in (−b, 0] |
| Display.SplitSeconds | src/hooks/useRealtimeTimer.js:185-188 | a non-negative second count splits into hours, minutes below 60 and seconds below 60 that add back up to it |
| Display.FormatSecondsToHMS | src/hooks/useRealtimeTimer.js:184-190 | the clock text; stated by `Display.FormatSecondsReadsBack` |
| Display.FormatSecondsReadsBack | src/hooks/useRealtimeTimer.js:184-190 | for a non-negative count the text shows `floor(s/3600)` hours (left out when 0), minutes below 60 and seconds below 60, which add back up to the count |
| Display.SplitMinutes | src/app/page.js:184-188 | a non-negative minute count splits into hours and minutes below 60 |
| Display.FormatMinutesToHours | src/app/page.js:184-188 | "<hours>h <minutes>m" from `SplitMinutes`; stated by `Display.RemainingTimeFallbacks` and `Display.RemainingTimeReadsBack` |
| Display.RemainingTime | src/app/page.js:194-197 | the formatted minutes left to 480, or "0h 0m" when none are left; stated by `Display.RemainingTimeFallbacks` and `Display.RemainingTimeReadsBack` |
| Display.HookRemainingTime | src/hooks/useRealtimeTimer.js:204-208 | with no stored totals the text is "8h 0m", else the page's remaining time |
| Display.RemainingTimeFallbacks | src/app/page.js:194-197 | at or past the goal the text is "0h 0m", the formatter's text for zero; with no work it is "8h 0m" |
| Display.RemainingTimeReadsBack | src/app/page.js:194-197 | before the goal the text is the hours and minutes that make up the minutes left |
| RealtimeTimer.LastIndexOf | src/hooks/useRealtimeTimer.js:21-27 | the backwards scan finds the last entry of the type, or reports that there is none |
| RealtimeTimer.ElapsedSeconds | src/hooks/useRealtimeTimer.js:24-25 | whole seconds elapsed, floored, and 0 when the clock is behind the entry |
| RealtimeTimer.ComputeLiveTimers | src/hooks/useRealtimeTimer.js:9-45 | both counters are non-negative and at most one is non-zero; work counts only when IN and break only when OUT, from the last entry of that type; no mirror, no entries or an empty list gives zeros |
| RealtimeTimer.HookDailyStats | src/hooks/useRealtimeTimer.js:48-98 | the hook's totals for the mirror and the live counters; stated by `RealtimeTimer.HookStatsMeaning` |
| RealtimeTimer.StatsChanged | src/hooks/useRealtimeTimer.js:119 | the recomputed totals differ from the mirror's; its effect is stated by `RealtimeTimer.Timer.SyncStats` |
| RealtimeTimer.ClockUpdate | src/hooks/useRealtimeTimer.js:149-155 | the update a clock action hands to the mirror; stated by `RealtimeTimer.ClockTransition` |
| RealtimeTimer.HookStatsMeaning | src/hooks/useRealtimeTimer.js:48-98 | no data or no entries gives zero totals; otherwise the goal is judged on paired work plus live work (when IN and positive), the stored work total is its rounding, and the stored break total is the rounding of paired break time plus live break (when OUT and positive) |
| RealtimeTimer.ClockTransition | src/hooks/useRealtimeTimer.js:133-182 | clocking in or out appends exactly one entry of its type after the unchanged earlier entries, sets the status, sets or clears the start time, and keeps every other key |
| RealtimeTimer.ClockOutContinuity | src/hooks/useRealtimeTimer.js:159-182 | on an alternating day, clocking out moves the work total by less than a second and leaves the break total as it was |
| RealtimeTimer.ClockInContinuity | src/hooks/useRealtimeTimer.js:133-156 | on an alternating day, clocking in moves the break total by less than a second and leaves the work total as it was |
| RealtimeTimer.Timer.constructor | src/hooks/useRealtimeTimer.js:4-5 | both live counters start at 0 |
| RealtimeTimer.Timer.CalculateLiveTimers | src/hooks/useRealtimeTimer.js:9-45 | the counters are set to the live timers of the mirror at that instant |
| RealtimeTimer.Timer.CalculateDailyStats | src/hooks/useRealtimeTimer.js:48-98 | the loops return the hook's stats for the mirror and the live counters |
| RealtimeTimer.Timer.SyncStats | src/hooks/useRealtimeTimer.js:114-125 | the mirror is updated, with a debounced save, only when a recomputed total differs from the stored one; sign-in state, heartbeats and beacons are untouched |
| RealtimeTimer.Timer.ClockIn | src/hooks/useRealtimeTimer.js:133-156 | without a mirror nothing happens; otherwise the merged clock-in record becomes the mirror and is sent at once; sign-in state, heartbeats and beacons are untouched |
| RealtimeTimer.Timer.ClockOut | src/hooks/useRealtimeTimer.js:159-182 | the same for clocking out |
| TrackerPage.PageStatsWithoutLiveTime | src/app/page.js:81-111 | the page's totals are the hook's totals with no live time |
| TrackerPage.PageStats | src/app/page.js:81-111 | the page's totals; stated by `TrackerPage.PageStatsWithoutLiveTime` and `TrackerPage.GoalJudgedBeforeRounding` |
| TrackerPage.GoalJudgedBeforeRounding | src/app/page.js:104-110 | 479.6 minutes of work store 480 but are not complete; exactly 8 hours are complete |
| TrackerPage.Tracker.constructor | src/app/page.js:81-84 | the page starts with no entries, status OUT, the dialog closed and zero totals |
| TrackerPage.Tracker.CalculateDailyStats | src/app/page.js:81-111 | the loops set the totals to the page's stats of the entries and change nothing else |
| TrackerPage.Tracker.ClockIn | src/app/page.js:143-154 | one IN entry is appended after the unchanged entries and the status becomes IN |
| TrackerPage.Tracker.ClockOut | src/app/page.js:156-167 | one OUT entry is appended after the unchanged entries and the status becomes OUT |
| TrackerPage.Tracker.HandleThumbPress | src/app/page.js:135-141 | when IN only the break dialog opens; when OUT the user clocks in |
| TrackerPage.Tracker.HandleBreakResponse | src/app/page.js:169-176 | whichever answer is given, the user clocks out and the dialog closes |
| TrackerPage.Tracker.ResetDay | src/app/page.js:178-182 | no entries, status OUT, zero totals |
| SessionManager.Merge | src/hooks/useSessionManager.js:98-104 | the merged record has the keys of both; updates override and every other key keeps its value |
| SessionManager.Debounce | src/hooks/useSessionManager.js:65-73 | a debounced save replaces any pending one by the new payload, due 2000 ms later, and sends nothing |
| SessionManager.SendNow | src/hooks/useSessionManager.js:62-64 | an immediate save sends its payload and leaves the pending save in place |
| SessionManager.AdvanceTo | src/hooks/useSessionManager.js:65-73 | moving the clock sends the pending payload exactly when it falls due, and otherwise changes nothing |
| SessionManager.BurstLeavesLastPending | src/hooks/useSessionManager.js:65-73 | a burst of debounced saves each within 2000 ms of the last sends nothing and leaves only the last payload pending |
| SessionManager.BurstSendsOnlyLastPayload | src/hooks/useSessionManager.js:65-73 | such a burst sends exactly one payload, the last |
| SessionManager.ImmediateSaveKeepsPendingSave | src/hooks/useSessionManager.js:62-73 | a debounced save followed by an immediate one sends the newer payload and then, 2000 ms later, the older |
| SessionManager.Manager.constructor | src/hooks/useSessionManager.js:5-10 | no mirror, loading, no error, nothing pending or sent |
| SessionManager.Manager.Tick | src/hooks/useSessionManager.js:65-73 | the passage of time fires the pending save when it is due and changes nothing else |
| SessionManager.Manager.FetchSessionData | src/hooks/useSessionManager.js:13-31 | without a session nothing happens; success replaces the mirror and clears the error, failure sets the error, and loading ends either way |
| SessionManager.Manager.SaveSessionData | src/hooks/useSessionManager.js:34-74 | without a session or data nothing happens; otherwise the payload is sent at once or debounced |
| SessionManager.Manager.ApplySaveReply | src/hooks/useSessionManager.js:51-58 | a saved record replaces the mirror and clears the error; a failure sets the error and keeps the mirror |
| SessionManager.Manager.ResetSession | src/hooks/useSessionManager.js:77-95 | an acknowledged reset refetches and clears the error; a refused or failed one sets the error |
| SessionManager.Manager.UpdateSessionData | src/hooks/useSessionManager.js:98-104 | the mirror becomes the merge, and the whole merged record is the save payload |
| SessionManager.Manager.OnAuthStatus | src/hooks/useSessionManager.js:107-114 | an authenticated session fetches; an unauthenticated one drops the mirror and stops loading |
| SessionManager.Manager.HeartbeatTick | src/hooks/useSessionManager.js:117-143 | a heartbeat with the current time is sent only when there is a session and a mirror |
| SessionManager.Manager.OnVisibilityChange | src/hooks/useSessionManager.js:166-174 | hiding the page with a mirror saves it at once; showing it refetches |
| SessionManager.Manager.OnBeforeUnload | src/hooks/useSessionManager.js:159-164 | leaving the page beacons the mirror when there is one |
| SessionApi.SignInAdmits | src/app/api/session/route.js:27-32 | a Google account is admitted exactly when verified with an address ending in "@gmail.com"; other providers always are |
| SessionApi.SignIn | src/app/api/session/route.js:27-32 | the sign-in filter; stated by `SessionApi.SignInAdmits` |
| SessionApi.FreshDay | src/app/api/session/route.js:89-114 | the rolled-over record is an empty day (OUT, no entries, zero totals, no start) dated today, with the prior theme when it had one, else "minimal" |
| SessionApi.PostedRecord | src/app/api/session/route.js:141-174 | the posted record takes each client field (status, entries, totals, theme, start time) or its default when falsy, keeps a non-zero start time, drops a start time of 0, and stamps today and now |
| SessionApi.EchoKeepsDay | src/app/api/session/route.js:151-174 | posting back a stored record keeps its status, entries, totals, theme and start time |
| SessionApi.ZeroStartIsDropped | src/app/api/session/route.js:167 | a start time of 0 is stored as null |
| SessionApi.ClearedRecord | src/app/api/session/route.js:204-219 | a reset clears the day and keeps theme, address and name; with no record it inserts one with the default theme |
| SessionApi.HandlersTouchOnlyCaller | src/app/api/session/route.js:89-114 | GET, POST and DELETE change only the caller's record, leave it dated today, and keep one record per user id |
| SessionApi.AfterGet | src/app/api/session/route.js:86-114 | the store after GET; stated by `SessionApi.HandlersTouchOnlyCaller`, `SessionApi.GetIsIdempotent` and `SessionApi.RolloverKeepsTheme` |
| SessionApi.AfterPost | src/app/api/session/route.js:151-174 | the store after POST; stated by `SessionApi.HandlersTouchOnlyCaller` |
| SessionApi.AfterDelete | src/app/api/session/route.js:204-219 | the store after DELETE; stated by `SessionApi.HandlersTouchOnlyCaller` |
| SessionApi.GetIsIdempotent | src/app/api/session/route.js:86-119 | a second GET on the same day changes nothing |
| SessionApi.RolloverKeepsTheme | src/app/api/session/route.js:89-114 | a GET on a new day empties the day and keeps the theme |
| SessionApi.SessionStore.constructor | src/app/api/session/route.js:44-66 | the store starts empty |
| SessionApi.SessionStore.Get | src/app/api/session/route.js:74-128 | 401 without a session; otherwise the store after the rollover, and the caller's record; a record of today is returned unchanged |
| SessionApi.SessionStore.Post | src/app/api/session/route.js:131-189 | 401 without a session; otherwise the caller's record is replaced by the posted record, which is returned |
| SessionApi.SessionStore.Delete | src/app/api/session/route.js:192-233 | 401 without a session; otherwise the caller's day is cleared |
| HeartbeatApi.ActivityTime | src/app/api/heartbeat/route.js:94 | a truthy client timestamp is used, else the server clock |
| HeartbeatApi.Touch | src/app/api/heartbeat/route.js:88-97 | only the caller's record dated today changes, and only its activity time; no record is inserted |
| HeartbeatApi.HeartbeatKeepsDayState | src/app/api/heartbeat/route.js:88-97 | a heartbeat changes no status, entry, total, theme or start time and keeps one record per user |
| HeartbeatApi.StaleRecordIgnored | src/app/api/heartbeat/route.js:88-97 | a record of another day is not stamped until a GET rolls it over |
| HeartbeatApi.Post | src/app/api/heartbeat/route.js:74-112 | 401 without a session; otherwise the touch, and the server time in the reply |
| DailyLogsApi.FindLog | src/app/api/daily-logs/route.js:60-63 | the lookup finds the first log of the caller and date, or reports that there is none |
| DailyLogsApi.UniqueKeyCountsOnce | src/models/DailyLog.js:43-44 | under the unique index a stored key is held exactly once |
| Records.PassesSchema | src/models/DailyLog.js:3-34 | the schema's required strings are non-empty and every entry has its time text; enforced by `DailyLogsApi.SaveLog` |
| DailyLogsApi.SaveLog | src/app/api/daily-logs/route.js:53-94 | missing entries, totals or date give 400 with no write; a complete request is never a 400: it is saved exactly when its entries all carry a time and the identity strings of the log it writes (the stored log's for an update, the caller's for a create) are non-empty, and otherwise gives 500 with no write; a saved request is stored as an update exactly when a log of that key exists (the log replaced in place) and otherwise as a create (appended); a saved log holds the posted entries and totals, the theme or "minimal", and the caller's key |
| DailyLogsApi.SaveLogKeepsCollection | src/app/api/daily-logs/route.js:59-94 | a save keeps the collection valid and leaves exactly one log for the key; an update overwrites the existing log in place, a create appends one with the caller's identity; other logs are untouched |
| DailyLogsApi.RepeatedSaveKeepsOneLog | src/app/api/daily-logs/route.js:65-75 | after a successful save, saving the same day again with timed entries succeeds as an update, does not grow the collection, leaves one log for the key, and that log holds the second request's entries and totals |
| DailyLogsApi.PostLog | src/app/api/daily-logs/route.js:43-102 | 401 without a session and no write; otherwise the save |
| DailyLogsApi.LogStore.constructor | src/models/DailyLog.js:10-44 | the collection starts empty |
| DailyLogsApi.LogStore.Save | src/app/api/daily-logs/route.js:43-102 | the collection becomes the one the POST handler computes, and stays valid |
| DailyLogsApi.Matching | src/app/api/daily-logs/route.js:119-123 | the query keeps exactly the caller's logs, of the given date when one is given, each as many times as stored, so its length is the `countDocuments` total |
| DailyLogsApi.InsertByDate | src/app/api/daily-logs/route.js:128 | inserting into a newest-first list keeps it newest first and adds exactly that log |
| DailyLogsApi.SortByDateDesc | src/app/api/daily-logs/route.js:128 | the sort is newest first and a permutation of its input |
| DailyLogsApi.ParamOr | src/app/api/daily-logs/route.js:116-117 | a parameter that is absent, does not parse, or parses to 0 gives the default; otherwise its parsed value |
| DailyLogsApi.AbsentParamIsNull | src/app/api/daily-logs/route.js:115-117 | an absent parameter is `null`, `parseInt(null)` reads "null" as NaN, so the default applies |
| Strings.WordIsNaN | src/app/api/daily-logs/route.js:116-117 | a word such as "null" parses to NaN |
| DailyLogsApi.ParamDefaults | src/app/api/daily-logs/route.js:116-117 | "first" and "0" give the default, and a written non-zero number is taken as is |
| DailyLogsApi.CeilDiv | src/app/api/daily-logs/route.js:134 | for a positive limit the page count is the least number of pages that holds every log |
| DailyLogsApi.Window | src/app/api/daily-logs/route.js:129-130 | skip then take: the slice starting at the skip, at most the limit long |
| DailyLogsApi.WindowOfSorted | src/app/api/daily-logs/route.js:127-131 | a page of the sorted logs is newest first and holds only found logs |
| DailyLogsApi.PageOf | src/app/api/daily-logs/route.js:125-145 | a negative skip gives 500; otherwise the page of sorted logs after (page−1)·limit, the total, ⌈total/limit⌉ pages, next page exactly when page < pages, previous exactly when page > 1 |
| DailyLogsApi.ListLogs | src/app/api/daily-logs/route.js:104-153 | 401 without a session; otherwise the page of the caller's matching logs for the parsed page and limit |
| DailyLogsApi.ListingHoldsOnlyCallersLogs | src/app/api/daily-logs/route.js:119-131 | a listing holds only the caller's stored logs of the date asked for, newest first, never more than the limit |
| DailyLogsApi.DefaultListing | src/app/api/daily-logs/route.js:116-117 | with no parameters the caller gets page 1 of the 30 newest logs and no previous page |
| DailyLogsApi.PageCountBounds | src/app/api/daily-logs/route.js:134-142 | with ⌈total/limit⌉ pages, page < pages exactly when page·limit < total, and page ≤ pages exactly when (page−1)·limit < total |
| DailyLogsApi.PaginationMeaning | src/app/api/daily-logs/route.js:133-145 | for positive page and limit, a next page exists exactly when the logs up to this page are fewer than the total, and a page is non-empty exactly when it is within the page count |
| Strings.ParseIntOfIntToString | src/app/api/daily-logs/route.js:116-117 | `parseInt` reads back every decimal rendering of an integer |
| Strings.ParseInt | src/app/api/daily-logs/route.js:116-117 | `parseInt` with no radix: text that is empty after white space is NaN, and a non-zero result is negative exactly when the text after white space starts with '-'; read back by `Strings.ParseIntOfIntToString` |
| Strings.ParseIntWithoutDigits | src/app/api/daily-logs/route.js:116-117 | when, after leading white space and an optional sign, the text does not start with a decimal digit, `parseInt` gives NaN |
| Strings.StrLeqTotal | src/app/api/daily-logs/route.js:128 | any two dates are ordered one way or the other |
| Strings.StrLeqTransitive | src/app/api/daily-logs/route.js:128 | the date order is transitive |

## Left out

- Rendering: the JSX, the themes, the progress ring and `getProgressPercentage` (floating-point percentages), the sign-in and log-history pages, `ThemeProvider` and the Tailwind configuration.
- Floating point: minute totals are exact millisecond counts rounded once, where the source sums IEEE doubles; the two differ only below the doubles' precision.
- Real timers and concurrency: the 1-second tick, the 30-second heartbeat interval and the 2-second timeout are an abstract clock with an explicit `Tick`; async replies are parameters applied in order, so interleavings of in-flight saves and fetches, React re-renders and StrictMode double effects are not modelled.
- `SessionManager.Manager.HeartbeatTick`: the random 25% chance of a resync on each heartbeat is not modelled; `FetchSessionData` may be called at any time instead.
- `SessionManager.Manager.OnBeforeUnload`: the beacon is recorded as sent; its delivery is not modelled.
- `SessionManager.Manager.ResetSession`: the source clears the error after the refetch, so a failed refetch leaves no error; the model does the same.
- Dates and locale: `today` (the UTC date from `toISOString`), `now`, and each entry's `time` text are inputs; `new Date(...)` values are millisecond counts.
- Entry ids are the entry's own timestamp; the source reads the clock twice (`Date.now()` for the id, `new Date()` for the timestamp), which can differ by a millisecond.
- `HeartbeatApi.ActivityTime`: a timestamp that is not a number (a date string) is treated as absent; the source would parse it as a date.
- `SessionApi.PostedRecord`: a body field of the wrong JSON type is treated as absent; mongoose would try to cast it.
- The browser mirror is a map of JSON values; a `dailyStats` or `entries` value that is present but of another shape is treated as absent.
- Authentication: next-auth's session, JWT and callbacks other than `signIn` are the optional identity passed to each route; `email_verified` is a boolean.
- Database: MongoDB is a map (sessions) and a sequence (logs); `_id`, `__v`, `createdAt` and `updatedAt` are not modelled; `findOneAndUpdate` runs no validators; a DELETE upsert on a missing record inserts one without name or address (empty strings here) and with the default theme; a negative `skip` fails with 500; a negative `limit` returns at most its absolute value; the order of logs with equal dates is the insertion sort's, where the database gives none.
- Mongoose `required` on a string rejects the empty string, which `PassesSchema` follows; casting of mistyped entry fields is not modelled, as entries are typed.
- `parseInt` handles whitespace, sign, a `0x` prefix and a digit run; numbers too large for a double are exact here.
- The timer hook rounds the minutes in `formatMinutesToHours`; the totals it is given are whole minutes, so the rounding is left out.
- Error bodies of 500 replies other than the daily-log route's, and logging to the console.
