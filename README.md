# daily-audit: change detection, report retention and session store

This project models the core of daily-audit, a scraper that watches five
front-page slots of a news site, each a headline and a kicker. Every poll
cycle compares the slots with the ones seen on the previous poll. When any
slot differs, it puts a dated copy of all five at the front of a
newest-first report (report.json). Once a day, in a maintenance window from
3:30 to 3:45 local time, it empties its activity log (log.txt). It also cuts
the report down to the entries dated today or yesterday. Beside the scraper,
the API keeps its login sessions in a small store (db.json).

Modules, one per source file or shared concept:

- `Wrappers`: `Option`, used for JavaScript `null`.
- `Sequences`: order-preserving `Filter`, which stands for `Array.prototype.filter`, and its lemmas.
- `Clock`: a local `DateTime`. It holds a calendar-day number, so "yesterday" is `day - 1`, plus the hour, minute and second.
- `SharedUtils` (shared/sharedUtils.ts): the 12-hour clock helpers and zero-padded minutes.
- `Snapshot` (the types and pure helpers of script/src/index.ts):
  - `Story`, whose headline and kicker are `Option<string>`, so `null` and `""` stay distinct;
  - report `Entry`;
  - `GenerateDefaultStories`;
  - the slot-wise comparison.
- `ScriptUtils` (script/src/scriptUtils.ts):
  - the maintenance-window predicate and the retention filter;
  - class `ScriptFiles`, whose fields `report` and `log` stand for report.json and log.txt, and whose methods update them in place.
- `Scraper` (script/src/index.ts):
  - the headline colon rewrite and the live slot reading;
  - the poll cycle `Check`, an imperative method with the five-slot loop over an array;
  - `Check` is proved equal to the value-level `Cycle` function, and the properties of the engine are lemmas about `Cycle` and `Run`.
- `SessionStore` (api/src/db/apiUtils.ts): class `SessionDb` over the contents of db.json, with `Init`, `Read`, `Write` and `Del`.

A file is modelled as the value it holds, not as JSON text:

- report.json is `Missing`, `Blank` (the empty file) or `Json(entries)`;
- db.json is `NoDb`, `BlankDb`, `Garbled` (text that does not parse) or `Stored(sessions)`;
- log.txt is a string. A missing log reads as "" and every operation creates it first, so "" also stands for "no file".

Wall-clock time is an input:

- `now: DateTime` for a poll cycle;
- `now: int`, in milliseconds, for the session store.

The page sampler is an input too: the five slots `sampled` in one cycle. This is the path script/src/index.ts:131-134 takes when fixture slots are supplied. The live path is `LiveSlot`.

The helpers `formatHour` and `formatAmPm` in script/src/scriptUtils.ts:126-129 and 145-147 are the same code as in shared/sharedUtils.ts:19-26. They are modelled once, as `SharedUtils.FormatHour` and `SharedUtils.FormatAmPm`. Likewise `formatMinutes` (script/src/scriptUtils.ts:131-136) is `SharedUtils.FormatMinutes`.

Error handling and file creation follow the code exactly:

- `readReport` guards only the file read. Its `JSON.parse` (script/src/scriptUtils.ts:94) is not guarded, so malformed report text is not turned into `[]`. The model therefore has no malformed report state.
- `read` in the session store does catch parse failures (api/src/db/apiUtils.ts:61-64). That is the `Garbled` case, which reads as no sessions.
- The live sampler reads the headline and the kicker under separate guards (script/src/index.ts:136-155). A slot can therefore have one field "" and the other read.
- `del` goes through `read`, which creates a missing db.json as an empty file. So deleting an absent token on a store without a file still creates that file.

## Model

| member | source | states |
|---|---|---|
| `SharedUtils.ZeroPad2` | shared/sharedUtils.ts:12-17 | the result is all decimal digits, at least two of them, exactly two below 100, no redundant leading zero beyond two, and reads back as the input number |
| `SharedUtils.DecimalValue` | shared/sharedUtils.ts:12-17 | the ungrouped decimal numeral of n denotes n |
| `SharedUtils.FormatMinutes` | shared/sharedUtils.ts:12-17 | the minutes as exactly two digits whose value is the minute |
| `SharedUtils.FormatHour` | shared/sharedUtils.ts:19-22 | the result is in 1..12 and agrees with the 24-hour hour modulo 12 |
| `SharedUtils.FormatHourCases` | shared/sharedUtils.ts:19-22 | hour 0 reads 12, hours 1..12 read as themselves, hours 13..23 read h - 12 |
| `SharedUtils.FormatAmPm` | shared/sharedUtils.ts:24-26 | the result is "AM" or "PM", and "PM" exactly when the hour is 12 or later |
| `SharedUtils.TwelveHourClockRoundTrip` | shared/sharedUtils.ts:19-26 | the 12-hour reading and its AM/PM marker give back the 24-hour hour |
| `Snapshot.GenerateDefaultStories` | script/src/index.ts:28-37 | exactly five stories, each with headline and kicker equal to the given value |
| `Snapshot.ChangedIffUnequal` | script/src/index.ts:161-166 | some slot's headline or kicker differs strictly from the same slot before exactly when the two snapshots are unequal |
| `ScriptUtils.IsCleaningTime` | script/src/scriptUtils.ts:167-172 | true exactly at 3:30 through 3:45 AM as the 12-hour clock shows it |
| `ScriptUtils.Retained` | script/src/scriptUtils.ts:52-62 | an entry is kept exactly when it was in the report and is dated today or yesterday |
| `ScriptUtils.RetainedConcat` | script/src/scriptUtils.ts:57-62 | the filter works entry by entry, so kept entries keep their relative order |
| `ScriptUtils.RetainedAllRecent` | script/src/scriptUtils.ts:57-62 | a report of only today's and yesterday's entries is kept unchanged |
| `ScriptUtils.RetainedIdempotent` | script/src/scriptUtils.ts:52-67 | cleaning twice on the same day keeps what cleaning once kept |
| `ScriptUtils.RetainedDropsTwoDaysAgo` | script/src/scriptUtils.ts:52-67 | entries from today, yesterday and two days ago become today's and yesterday's, in that order |
| `ScriptUtils.FormatSeconds` | script/src/scriptUtils.ts:138-143 | the seconds as exactly two digits whose value is the second |
| `ScriptUtils.ScriptFiles.MaybeCreateReport` | script/src/scriptUtils.ts:17-21 | a missing report becomes an empty file, and an existing one is untouched |
| `ScriptUtils.ScriptFiles.AppendLog` | script/src/scriptUtils.ts:70-84 | the new log is the given text followed by the old log |
| `ScriptUtils.ScriptFiles.ReadReport` | script/src/scriptUtils.ts:86-98 | the stored entries, and none for a missing or empty report |
| `ScriptUtils.ScriptFiles.WriteReport` | script/src/scriptUtils.ts:100-108 | the report becomes exactly the given entries, whatever it held |
| `ScriptUtils.ScriptFiles.AppendReport` | script/src/scriptUtils.ts:110-124 | the new entry is at index 0 and the previous entries follow in their order |
| `ScriptUtils.ScriptFiles.Clean` | script/src/scriptUtils.ts:23-68 | the log becomes "" and the report holds exactly the earlier entries dated today or yesterday |
| `ScriptUtils.WriteThenRead` | script/src/scriptUtils.ts:86-108 | reading right after writing entries yields those entries, including none |
| `ScriptUtils.AppendLogTwice` | script/src/scriptUtils.test.ts:25-35 | appending "0" then "1" to an empty log gives "10" |
| `Scraper.SpaceColons` | script/src/index.ts:145 | every ':' in the result is followed by a space, and the first character is kept |
| `Scraper.SpaceColonsLength` | script/src/index.ts:145 | the result is longer by exactly the number of ':' not already followed by a space |
| `Scraper.SpaceColonsChar` | script/src/index.ts:145 | a lone ':' becomes ": " and any other single character is kept |
| `Scraper.SpaceColonsConcat` | script/src/index.ts:145 | text split anywhere except between a ':' and a space is rewritten half by half, so nothing moves across the split |
| `Scraper.SpaceColonsColonSpace` | script/src/index.ts:145 | a ':' already followed by a space is kept as a bare ':' and both sides are rewritten on their own. With `SpaceColonsChar` and `SpaceColonsConcat` this fixes the rewrite on every text: only a space after each unspaced ':' is inserted, and nothing else changes |
| `Scraper.SpaceColonsOnlyAddsSpaces` | script/src/index.ts:145 | deleting the spaces from input and output gives the same text, so the non-space characters are kept in order |
| `Scraper.SpaceColonsFixedIff` | script/src/index.ts:145 | text comes back unchanged exactly when every ':' in it is already followed by a space |
| `Scraper.SpaceColonsIdempotent` | script/src/index.ts:145 | rewriting twice is rewriting once |
| `Scraper.LiveSlot` | script/src/index.ts:136-158 | a live slot is never null and an unreadable field is "". The kicker is taken as read, and the headline is the text read after the colon rewrite |
| `Scraper.InitialState` | script/src/index.ts:39-42 | at start the previous slots are all "", the current ones all null, and nothing has been cleaned |
| `Scraper.Cycle` | script/src/index.ts:98-185 | afterwards the flag is set exactly when the cycle runs in the window. The log is emptied only by the first cycle of a window. The previous snapshot is kept in the window and becomes the sampled slots outside it. `CleaningCycle`, `IdleCycle` and `SamplingCycle` state the rest |
| `Scraper.Check` | script/src/index.ts:98-185 | the returned loop state and the report and log after the call are exactly what `Cycle` gives for the inputs and the old files |
| `Scraper.Run` | script/src/index.ts:90-94 | a chain of cycles keeps a five-slot previous snapshot |
| `Scraper.CleaningCycle` | script/src/index.ts:115-118 | in the window before cleaning: the log is emptied, the report is retained to today and yesterday, the flag becomes true and both snapshots come back unchanged |
| `Scraper.IdleCycle` | script/src/index.ts:119-120 | in the window after cleaning, a cycle changes neither the state nor either file |
| `Scraper.SamplingCycle` | script/src/index.ts:121-184 | outside the window, the flag becomes false and the sampled slots become the previous snapshot. The current snapshot is reset to null and the log is untouched. The report gains exactly one entry, in front and holding the sampled slots, if a slot changed, and none otherwise |
| `Scraper.RunIdleInWindow` | script/src/index.ts:115-120 | once cleaned, any number of cycles inside the window change nothing |
| `Scraper.CleanOncePerWindow` | script/src/index.ts:115-120 | any non-empty run of cycles inside the window has the effect of its first cycle alone |
| `Scraper.RunUnchangedSnapshot` | script/src/index.ts:125-178 | cycles that keep sampling the held snapshot leave both files and the snapshot as they were |
| `Scraper.RepeatedSnapshotReportedOnce` | script/src/index.ts:125-178 | a new snapshot sampled on several cycles in a row adds a single entry, dated at the first of them |
| `Scraper.ChangeCleanChange` | script/src/index.test.ts:311-385 | a change on day d, cleaning on day d + 1 and a change on day d + 1 leave both entries, newest first |
| `SessionStore.Find` | api/src/db/apiUtils.ts:70-72 | finds a session exactly when one holds the token. What it finds is the first session in the store with that token |
| `SessionStore.Live` | api/src/db/apiUtils.ts:31-33 | a session survives exactly when it was stored and expires strictly after now |
| `SessionStore.WithoutToken` | api/src/db/apiUtils.ts:77-79 | a session survives exactly when it was stored and holds another token |
| `SessionStore.LiveConcat` | api/src/db/apiUtils.ts:31-33 | expiry works session by session, so survivors keep their order |
| `SessionStore.LiveAll` | api/src/db/apiUtils.ts:31-35 | when no session has expired, all are kept |
| `SessionStore.LiveNone` | api/src/db/apiUtils.ts:31-35 | when every session has expired, none is kept |
| `SessionStore.WithoutAbsentToken` | api/src/db/apiUtils.ts:70-75 | removing a token that no session holds leaves the list unchanged |
| `SessionStore.WithoutTokenConcat` | api/src/db/apiUtils.ts:77-79 | deletion keeps the other sessions in their order |
| `SessionStore.SessionDb.Init` | api/src/db/apiUtils.ts:18-24 | the store holds an empty list |
| `SessionStore.SessionDb.Read` | api/src/db/apiUtils.ts:42-65 | the stored list, and none for an empty or unparsable file. A missing file is created empty |
| `SessionStore.SessionDb.Write` | api/src/db/apiUtils.ts:26-40 | the store becomes the unexpired old sessions in order followed by the new one. The new one is last whatever its expiry, and every other survivor expires after now |
| `SessionStore.SessionDb.Del` | api/src/db/apiUtils.ts:67-84 | every session with the token is removed and the rest keep their order. With no such session, nothing is rewritten |
| `SessionStore.InitThenWrite` | api/src/db/apiUtils.test.ts:24-30 | a write to an emptied store leaves exactly that session, even one already expired |
| `SessionStore.WriteThenDel` | api/src/db/apiUtils.ts:26-84 | writing a session and then deleting its token leaves the unexpired old sessions without that token |

## Left out

- The driver `loop` (script/src/index.ts:46-95) is left out: launching the browser, the status message written to the log each cycle, the sleep between cycles and the recursion. `Run` stands for the chain of cycles.
- The Puppeteer reading of the page (script/src/index.ts:136-156) is left out. `LiveSlot` models what it records for one slot, with `None` for an element that could not be read. The text the page shows is an input.
- The test counter `testingOptions.iteration` (script/src/index.ts:180-182) is left out. The caller passes each cycle's sampled slots directly.
- `Check` uses one `now` for the window test, the cleaning date and the entry date. The source calls `new Date()` separately for each. Over one cycle they are taken to fall in the same minute.
- Removing the browser-profile directories in `clean` (script/src/scriptUtils.ts:33-50) is left out. It only deletes files, and only in production.
- `generateBrowser`, `goToSite` and `sleep` (script/src/scriptUtils.ts:149-165) are left out: browser and timer I/O.
- JSON text and ISO-8601 date text are left out. Files hold values, and a date reads back as the same value: the round trip is taken up to revival of the date string.
- Failed file writes are left out. The source catches them and carries on, and the model treats every write as succeeding.
- Time zones and daylight saving are left out. A date is a calendar-day number plus a local time of day.
- The HTTP routes, cookie middleware, token generation and rate limiting of the API (api/src/routes/auth.ts, api/src/middleware/isLoggedIn.ts, api/src/index.ts) are not part of this model. Neither is the web client (client/).
- `toLocaleString` is modelled only for what it does with `minimumIntegerDigits: 2` and `useGrouping: false` on a non-negative integer: a zero-padded decimal numeral.
- Concurrent readers of the files are left out. The cycles run one at a time.
