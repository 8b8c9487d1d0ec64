# Leaderboard reconciliation engine, modelled in Dafny

This project models `updateLeaderboard.js`, the script behind the click-counter leaderboard. The script runs on a schedule, and each run does the following:

- Reads the previous leaderboard snapshot through a per-run read cache.
- Fetches the on-chain table: an address array and a click array. Zipping the two gives the rows, which are sorted by clicks, most first.
- On a new UTC day, opens an empty ledger for today.
- Reconciles check-ins (`updateCheckInStats`):
  - Compares each fetched counter with the previous snapshot.
  - Marks an address in today's ledger when its counter increased.
  - Also marks it in yesterday's ledger when the counter jumped by more than 5.
  - Replays every daily ledger to rebuild the streak file of each address listed today.
  - Recomputes the all-time total and the seven-day histogram into the summary file.
  - Writes a compatibility file.
- Writes the new snapshot.
- Re-writes the compatibility file with the final total.

Every write goes through the temp-file / validate / backup / unlink / rename protocol (`safeWriteJSONFile`). That protocol can fail at each step.

The Dafny modules follow the stages of the script:

| module | file | what it holds |
|---|---|---|
| `Types` | types.dfy | Ledgers and streak records. The summary, the compatibility file, the snapshot. The parsed JSON documents (`Doc`) and the store's paths (`Path`). The configuration constants. |
| `Calendar` | calendar.dfy | UTC day numbers of instants, and the "YYYY-MM" key of a day. |
| `FileStore` | file_store.dfy | The store as a class (`Store`) with these fields: the files, the read cache, the number of writes so far, and a `behaviour` oracle saying how the file system behaves on the n-th write. It also holds the cached reader, direct reads, the write protocol and batches of writes. |
| `Leaderboard` | leaderboard.dfy | Zipping the fetched arrays, and the descending in-place sort of the rows. |
| `Inference` | inference.dfy | The previous-clicks map and the comparison loop. |
| `Streak` | streak.dfy | The replay of the ledger history for one address, and the correction of a stored streak record. |
| `Aggregate` | aggregate.dfy | `calculateTotalCheckIns`, the seven-day window and the drift report. |
| `Engine` | engine.dfy | Reading the daily directory, `updateUserStreak`, and `updateCheckInStats` as four stages. `Reconciles` relates the store at the start of the stage to its report. |
| `Script` | script.dfy | `main`: the new-day block, the snapshot write, the compatibility re-write, and the exit code. |

How the model represents the run:

- Days are integers: days since 1970-01-01 in UTC. The date part of `toISOString()` is `Calendar.DayOf`, yesterday is `today - 1`, and the i-th day of the window is `today - i`.
- A ledger keeps its users as a sequence in insertion order, which is the order of `Object.keys`.
- The script's effects are stated as exact post-states of the store. Each batch of writes is a `seq<Write>` applied by `FileStore.ApplyWrites`, so every failing mix of write behaviours is covered, not only the successful one.

Where the code departs from the system's design description, the model follows the code:

- **Write protocol.** The design calls the write atomic. The code unlinks the target before the rename, so a failed rename loses the target (`FileStore.LosesTarget`, `FileStore.AfterWriteEffects`).
- **30-day ceiling.** The design says a user's maximum streak never exceeds 30. The code only resets a stored maximum above 30, and a replayed run of 31 days still yields 31 (`Streak.CeilingNotEnforced`, `Streak.ThirtyOneDaysExceedCeiling`).
- **Jump threshold.** The design puts the large-jump threshold for yesterday's ledger at 10. The code uses `clicksIncreased > 5` (`Types.YESTERDAY_JUMP`). The drift threshold is 10 in both.
- **Recomputed total.** The design sums the stored `count` of each ledger. The code credits each ledger with `max(count, |users|)` (`Types.Effective`).
- **Address case.** The design's scenarios list "0xA" in the ledgers. The code lower-cases addresses, so the ledgers hold "0xa" (`Inference.ScenarioSmallIncrease`, `Inference.ScenarioLargeIncrease`).
- **Run without a previous snapshot.** The statistics are then zero, so the compatibility re-write sets an existing file's total to 0 (`Script.SkippedRunZeroesCompat`).

## Model

| member | source | states |
|---|---|---|
| Types.Effective | updateLeaderboard.js:162-178 | A ledger is credited with the larger of its stored count and its number of users: at least each, and equal to one of them. |
| Types.Lower | updateLeaderboard.js:363 | `toLowerCase` of an address keeps its length, maps each character by itself, and leaves no upper-case ASCII letter. |
| Types.SameShard | updateLeaderboard.js:205-206 | `substring(2, 4)` puts two full-length addresses in the same shard directory exactly when their third and fourth characters agree. |
| Types.UserStreakPathInjective | updateLeaderboard.js:205-206 | Different addresses have different streak files, even within one shard, and a streak file is never the snapshot, the summary, the compatibility file, a ledger or a sibling. |
| Calendar.DayOf | updateLeaderboard.js:316 | The day of an instant is the UTC day whose 24-hour span contains it. |
| Calendar.CivilFromDays | updateLeaderboard.js:316 | The "YYYY-MM-DD" of a day has a month from 1 to 12 and a day of the month from 1 to 31. |
| Calendar.EpochDate | updateLeaderboard.js:316 | Day 0 is 1970-01-01. |
| Calendar.DayBeforeEpoch | updateLeaderboard.js:341-344 | Day -1, the day before the epoch, is 1969-12-31 (the year and month roll back). |
| Calendar.LeapDay2000 | updateLeaderboard.js:316 | Day 11016 is 2000-02-29, the leap day of a year divisible by 400. |
| Calendar.MonthChange | updateLeaderboard.js:226-228 | Days 30 and 31 have the month keys "1970-01" and "1970-02", so they count in different months. |
| FileStore.Store.constructor | updateLeaderboard.js:89 | A run starts with the files on disk, an empty read cache and no writes. |
| FileStore.Store.ReadJSON | updateLeaderboard.js:91-118 | A cached path returns the cached value. Otherwise a present file within 50 MB that parses returns its document and is cached. A missing, oversized or unparsable file returns the default and is not cached. |
| FileStore.CachedValueSticks | updateLeaderboard.js:92-108 | Once a path has been parsed, every later read of the run returns that first value, whatever the file holds by then. |
| FileStore.DefaultNotCached | updateLeaderboard.js:96-117 | A missing, oversized or unparsable file reads as the default and leaves the cache as it was. |
| FileStore.DirectReadMatchesReader | updateLeaderboard.js:91-118 | A direct read (`existsSync`, `readFileSync`, `JSON.parse`) and the cached reader agree on an uncached file within 50 MB. An oversized file reads as the default through the cached reader but parses through the direct read. For a cached path written successfully since, the direct read sees the new document and the cached reader the first value. |
| FileStore.Store.SafeWrite | updateLeaderboard.js:565-609 | One write counts as one step of the run. It reports success exactly when the temp file is written and validated, the unlink of an existing target succeeds and the rename succeeds. The files become the result of the protocol for that step's behaviour. |
| FileStore.Store.DropTmp | updateLeaderboard.js:600-606 | After a failure the temp file is removed when it exists and its unlink succeeds; otherwise the files stay as they are. |
| FileStore.AfterWriteEffects | updateLeaderboard.js:565-609 | On success the target holds the new text and no temp file is left. A failure before the unlink leaves the target unchanged. A failed rename after the unlink loses the target. The ".bak" sibling receives the previous target when the copy works. Without a failed cleanup, a failure leaves no temp file. Every other path is untouched. |
| FileStore.ApplyWritesFrame | updateLeaderboard.js:566-594 | A batch of writes leaves every path it does not name, nor a ".tmp" or ".bak" sibling of one, unchanged. |
| FileStore.ApplyWritesLastAt | updateLeaderboard.js:565-609 | A successful write whose path, and whose siblings, no later write of the batch names leaves its document in place at the end of the batch. |
| FileStore.ReadDistinct | updateLeaderboard.js:91-118 | When every ledger on disk and in the cache lists each address once, as the keys of a JSON object do, so does whatever either reader returns, and the cache stays so after a read. |
| FileStore.ApplyWritesDistinct | updateLeaderboard.js:565-609 | Writes of documents of that shape keep every file on disk so, whichever steps of the protocol fail. |
| Leaderboard.BuildEntries | updateLeaderboard.js:621-624 | Zipping succeeds exactly when there are at least as many click values as addresses. The i-th row then has the i-th address and the i-th clicks. |
| Leaderboard.InsertLast | updateLeaderboard.js:627 | One step of the in-place sort: the first i+1 rows become the sorted prefix with row i inserted after every row with at least as many clicks. The rest of the array is unchanged. |
| Leaderboard.SortByClicks | updateLeaderboard.js:627 | Sorting the array in place leaves it equal to the reference sort of its old contents. |
| Leaderboard.SortDescPermutes | updateLeaderboard.js:627 | The sorted table holds exactly the fetched rows, each as often as fetched. |
| Leaderboard.SortDescSorted | updateLeaderboard.js:627 | The sorted table is ordered by clicks, most first. |
| Leaderboard.SortDescStable | updateLeaderboard.js:627 | Rows with equal clicks keep their fetched order (the sort is stable). |
| Leaderboard.BuildLeaderboard | updateLeaderboard.js:621-627 | The rows exist exactly when the arrays can be zipped, and are then the zipped rows sorted by clicks. |
| Inference.BuildPrevMap | updateLeaderboard.js:335-338 | The forEach over the previous rows builds the previous-clicks map keyed by lower-cased address. |
| Inference.PrevMapKeys | updateLeaderboard.js:336-338 | An address is in the previous-clicks map exactly when some previous row has it once lower-cased. |
| Inference.PrevMapLastWins | updateLeaderboard.js:336-338 | For addresses that repeat, the map holds the clicks of the last row. |
| Inference.Infer | updateLeaderboard.js:334-416 | The forEach over the fetched rows yields the final today list, whose count is its length, the final yesterday ledger, and every version of yesterday written along the way, as the comparison defines them. |
| Inference.JumpImpliesListedToday | updateLeaderboard.js:398-403 | A jump of more than 5 is also an increase, so the "assign to today instead" arm can never run. |
| Inference.RunTodayGrows | updateLeaderboard.js:379-380 | No address is removed from today's or yesterday's list, and the written versions only accumulate. |
| Inference.RunTodayMembers | updateLeaderboard.js:371-381 | An address is listed for today after the loop exactly when it was listed before or some row shows a positive, increased counter for it. |
| Inference.RunYesterdayMembers | updateLeaderboard.js:398-411 | An address is listed for yesterday after the loop exactly when it was listed before or some row shows a jump of more than 5 for it. |
| Inference.RunDistinct | updateLeaderboard.js:379-410 | Lists without duplicates stay without duplicates, and every version of yesterday's ledger written has none. |
| Inference.RunYesterdayCount | updateLeaderboard.js:406-410 | If nothing was written, yesterday's ledger is unchanged. Otherwise its count is its number of users and the last version written is the final one. |
| Inference.RunWrittenCounts | updateLeaderboard.js:406-410 | Every version of yesterday's ledger the loop writes has its count equal to its number of users. |
| Inference.RunNoJumpNoWrite | updateLeaderboard.js:398-411 | When no row shows a jump of more than 5 for an address missing from yesterday's ledger, the loop writes nothing and leaves yesterday's ledger unchanged. |
| Inference.RunIdle | updateLeaderboard.js:371-377 | Rows with a non-positive or non-increased counter change nothing. |
| Inference.SecondRunIsIdle | updateLeaderboard.js:336-377 | Comparing a table with itself, its addresses distinct once lower-cased, infers no check-in, so a second run on an unchanged chain adds nothing. |
| Inference.ScenarioSmallIncrease | updateLeaderboard.js:362-411 | A counter going from 5 to 8 lists the user for today only. |
| Inference.ScenarioLargeIncrease | updateLeaderboard.js:362-411 | A counter going from 5 to 20 lists the user both for today and for yesterday, and writes yesterday's ledger once. |
| Streak.ReplayHistory | updateLeaderboard.js:224-258 | The loop over the ledgers computes the reference replay's total, monthly counts and current streak. |
| Streak.Corrected | updateLeaderboard.js:262-307 | The written record takes the replayed total, months and current streak, with today as its last check-in. A stored maximum above the total or above 30 is replaced by the current streak, otherwise it is raised to it. The maximum is at least the current streak and, with a valid replay, at most the total. |
| Streak.ReplayCountsHits | updateLeaderboard.js:231-253 | The replayed total is the number of ledgers listing the address, and the last check-in is the latest of them. |
| Streak.StreakIsTrailingRun | updateLeaderboard.js:239-253 | The current streak is the length of the run of consecutive calendar days that ends at the latest check-in. |
| Streak.StreakWithinTotal | updateLeaderboard.js:231-253 | The replayed streak never exceeds the replayed total. |
| Streak.TotalIsLedgerCount | updateLeaderboard.js:231-232 | The replayed total is the number of listed days whose ledger lists the address. |
| Streak.MonthsSumToTotal | updateLeaderboard.js:234-237 | The monthly counts add up to the total. |
| Streak.MonthsCountHits | updateLeaderboard.js:234-237 | A "YYYY-MM" key is in the monthly counts exactly when some listed check-in day falls in that month, and its count is the number of such days. |
| Streak.CorrectedWithinTotal | updateLeaderboard.js:262-307 | After correction, current streak ≤ maximum streak ≤ total check-ins. |
| Streak.CeilingNotEnforced | updateLeaderboard.js:262-307 | Whatever the stored record, a replayed streak above 30 becomes the written maximum: the 30-day ceiling only resets stored values. |
| Streak.ConsecutiveStreak | updateLeaderboard.js:239-253 | Ledgers listing the address on n consecutive days replay to a streak of n, with the last of those days as the last check-in. |
| Streak.ThirtyOneDaysExceedCeiling | updateLeaderboard.js:239-307 | A well-formed listing of 31 consecutive days listing the address leads to a written maximum streak of 31, above the ceiling. |
| Streak.StreakContinuity | updateLeaderboard.js:243-250 | Check-ins on consecutive days give a streak of 2. A gap of two days restarts it at 1. |
| Streak.RebuildFromCorruptRecord | updateLeaderboard.js:210-307 | An unreadable record (read as the fresh one) is rebuilt from the ledgers: total 3, current and maximum streak 2. |
| Aggregate.TotalCheckIns | updateLeaderboard.js:186-196 | The total is at least the sum of the credited counts and at least today's credited count, and equals one of them. |
| Aggregate.CalculateTotalCheckIns | updateLeaderboard.js:151-200 | The two loops, the correction and the raise return the reference total. |
| Aggregate.IndividualCountsAgree | updateLeaderboard.js:186-190 | The per-file counts add up to the running total, so the "error in total calculation" correction never changes anything. |
| Aggregate.TotalNotRaised | updateLeaderboard.js:192-196 | For a listing with today's ledger among its files, the raise to today's count never changes the total. |
| Aggregate.ConsistentTotal | updateLeaderboard.js:170-178 | The total is at least the number of (day, address) check-ins, and equal to it when no ledger's count exceeds its user list. |
| Aggregate.SevenDayWindow | updateLeaderboard.js:463-491 | The histogram gets today's count for today and the credited count or 0 for each of the six days before. Older keys stay as they were and no other key is added. |
| Aggregate.WindowUnique | updateLeaderboard.js:463-491 | The previous histogram, today's count and the listing determine the new histogram. |
| Engine.ReadAllDailyStats | updateLeaderboard.js:120-149 | Reading the daily directory yields every ledger file once, in chronological (file name) order, each with its ledger or the empty one if it does not parse. |
| Engine.ListingUnique | updateLeaderboard.js:125-142 | The directory determines its listing. |
| Engine.UpdateUserStreak | updateLeaderboard.js:202-312 | An address not listed today returns 0 and touches nothing. Otherwise the stored record is read through the cache (fresh when unreadable), corrected by the replay, and written in one step, and its maximum streak is returned. |
| Engine.StreakLogLeavesRecords | updateLeaderboard.js:205-309 | Each streak write that succeeded leaves its record in that address's sharded file at the end of the loop, since distinct addresses have distinct files. |
| Engine.WriteBatch | updateLeaderboard.js:410-417 | Performing writes one after another leaves the files of the batch and advances the write count by its length. |
| Engine.StreakLoop | updateLeaderboard.js:429-435 | Each address listed today has its record corrected from the replay of the patched listing and written, in list order. Each record read is the one the store held at the start of the loop. The cache only gains streak files. |
| Engine.DailyWritesLeaveLedgers | updateLeaderboard.js:406-417 | After the daily writes, today's file holds today's ledger and yesterday's file the last version of yesterday's ledger, each when its write succeeded. No file but the ledgers and their siblings changes. |
| Engine.LedgersReadDistinct | updateLeaderboard.js:333-355 | The two ledgers the stage starts from list each address once when the store's ledgers do. |
| Engine.CheckInWritesDistinct | updateLeaderboard.js:406-548 | Every ledger the stage writes lists each address once. |
| Engine.ReadAndInfer | updateLeaderboard.js:329-417 | The stage lists the directory. It reads today's ledger through the cache and yesterday's directly, compares the two tables from those ledgers, and leaves the files of the daily writes. |
| Engine.Patch | updateLeaderboard.js:421-424 | The listing keeps its days. Only today's entry, when listed, is replaced by today's ledger. Yesterday's entry is not refreshed. |
| Engine.PatchWellFormed | updateLeaderboard.js:421-424 | The patch keeps a listing well-formed. |
| Engine.RefreshSummary | updateLeaderboard.js:449-520 | The summary gets the fetched row count, today's count and the recomputed total, with its maximum streak pinned to 1 whatever the streaks were. The histogram is refreshed, and drift is reported exactly when the previous positive total differs by more than 10. |
| Engine.SummaryStage | updateLeaderboard.js:439-554 | The summary is read through the cache and the previous total directly. The summary and then the compatibility file (today's ledger only) are written, and the check-in statistics are returned. |
| Engine.CheckInWriteAt | updateLeaderboard.js:406-548 | The j-th write of a reconciled stage is, in order: a version of yesterday's ledger, today's ledger, the record of the k-th address listed today, the summary, the compatibility file. |
| Engine.CheckInWritesLeaveAt | updateLeaderboard.js:406-548 | A write of the stage from yesterday's last version on that succeeded is still in place at the end of the stage: no later write names its file or a sibling of it. |
| Engine.CheckInLeavesLedgers | updateLeaderboard.js:406-417 | At the end of the whole stage, yesterday's file holds the last version written and today's file today's ledger, each when its write succeeded. |
| Engine.CheckInLeavesRecord | updateLeaderboard.js:429-435 | At the end of the whole stage, each address listed today has in its streak file the corrected record written for it, when that write succeeded. |
| Engine.CheckInLeavesSummary | updateLeaderboard.js:449-524 | At the end of the whole stage, the summary file holds the refreshed summary when its write succeeded. |
| Engine.CheckInLeavesCompat | updateLeaderboard.js:538-548 | At the end of the whole stage, the compatibility file holds the document written last when its write succeeded. |
| Engine.UpdateCheckInStats | updateLeaderboard.js:315-555 | Without a previous table the stage returns zeros and writes nothing. Otherwise its report satisfies every stage's relation to the store at the start, and the files are those of its writes, whose ledgers still list each address once. The cache only gains today's ledger, the summary and streak files. |
| Engine.ReconciledStats | updateLeaderboard.js:505-553 | The returned count is the number of addresses listed today. The total is the sum of the credited counts of the patched listing. The maximum streak is 1. Summary, compatibility file and statistics agree on the total, and drift is reported exactly when the stored total is positive and off by more than 10. |
| Engine.ReconciledToday | updateLeaderboard.js:333-416 | An address is listed today exactly when it was in today's ledger read or increased its counter. Today's list keeps the ledger read and has no duplicates. |
| Engine.ReconciledYesterday | updateLeaderboard.js:347-411 | An address is listed for yesterday exactly when it was already there or jumped by more than 5. If nothing was written yesterday is unchanged. Otherwise the last yesterday write holds the final ledger, with count equal to its users. |
| Engine.ReconciledYesterdayWrites | updateLeaderboard.js:398-411 | Without a jump of more than 5 for an address missing from yesterday's ledger read, nothing is written to it and it is unchanged. Every version written has its count equal to its number of users. |
| Engine.ReconciledStreaks | updateLeaderboard.js:224-307 | Every written streak record has today as its last check-in. It satisfies current ≤ maximum ≤ total, and its total is the number of listed days whose ledger lists the address. |
| Engine.ReconcilesUnique | updateLeaderboard.js:315-555 | The files and the cache at the start determine the stage's statistics and every value it writes. |
| Script.OpenDayOnce | updateLeaderboard.js:630-653 | The new-day block runs once per day: after it wrote nothing or its write succeeded, running it again writes nothing, and today's file then holds an empty ledger. |
| Script.OpenDay | updateLeaderboard.js:630-654 | The new-day block leaves the files of those writes. |
| Script.CompatRewrite | updateLeaderboard.js:693-703 | The compatibility file is re-written exactly when its read yields a compatibility document, and only its total is changed, to the run's total. This is a simplification of the model: the source re-writes any document with a truthy `stats` (see Left out). |
| Script.NextRunReadsSnapshot | updateLeaderboard.js:615-689 | A snapshot written successfully within 50 MB is what the next run reads first with an empty cache: the table written and the check-in total, and a new day exactly when the next run falls on another day. |
| Script.Publish | updateLeaderboard.js:689-703 | The snapshot is written, the compatibility file is read through the cache from the resulting files, and the re-write follows. |
| Script.Reconcile | updateLeaderboard.js:630-703 | The new-day writes, the check-in stage from the files after them, the snapshot and the re-write, in this order. When the compatibility file was not read before, the re-write reads it from disk after the snapshot write. |
| Script.RunOnce | updateLeaderboard.js:611-715 | A run starts with an empty cache. It exits 0 exactly when the fetch succeeded and every address has a click value, and 1 otherwise, with nothing written. On 0 the rows are the zipped, sorted table, the check-in stage runs against the previous snapshot read, the compatibility file is read from disk after the snapshot write, and the files are those of all the run's writes in order. Ledgers on disk keep listing each address once. |
| Script.CompatReadFresh | updateLeaderboard.js:694 | The check-in stage never caches the compatibility file, so its read in main goes to disk. |
| Script.RewriteRestoresCompat | updateLeaderboard.js:694-702 | When the compatibility write succeeded within the size limit, the re-write after the snapshot writes back the same document. |
| Script.RunRewritesSameCompat | updateLeaderboard.js:527-548 | In a reconciled run whose compatibility write succeeded, the re-write in main puts back exactly the file the stage wrote. |
| Script.SkippedRunZeroesCompat | updateLeaderboard.js:320-327 | Without a previous table the re-write of an existing compatibility file sets its total to 0. |

## Left out

- `fetchLeaderboardWithRetry` (49-86): the RPC call, its timeout, the 20 retries and the backoff are not modelled. The fetch is a parameter of `Script.RunOnce`: an array pair, or `None` when every attempt failed.
- Clocks: the several `new Date()` calls of one run are one `now`. A run crossing midnight between two of them is not modelled.
- Yesterday and the window days use `setDate(getDate() - i)` in local time, then take the UTC date. The model uses `today - i`, which agrees when the host runs in UTC.
- Date string parsing: a previous `lastUpdate` that does not parse makes `toISOString` throw and the run exit 1. The model takes `lastUpdate` as an instant or absent.
- Number and string conversions of clicks (`Number(...)`, `toString()`, `NaN`) are not modelled. Clicks are integers.
- `toLowerCase` is modelled for ASCII only. Addresses are hexadecimal.
- JSON documents of an unexpected shape are modelled in two ways: a document of another kind reads as the stage's default, and a file that does not parse reads as missing. Partial objects that make the script throw (a ledger without `users`) are not modelled.
- Script.CompatRewrite: the final re-write (694-701) applies to any document read from the compatibility path that has a truthy `stats` field, a snapshot-shaped one included. The model re-writes only a compatibility document; for a document of another kind it writes nothing.
- Exceptions thrown inside `updateCheckInStats` are not modelled.
- The months-correction loop (280-292) is not modelled: line 294 overwrites its result. `hasChanges` is never read, and the log calls have no effect on state.
- The compatibility file's empty `streaks: {}` object is not modelled.
- Cache aliasing: the first read returns the cached object itself, later reads return a deep copy. Documents are immutable values here, and no path that the script mutates after reading is read again in the same run.
- Logging, `console` output and `ensureDirectoryExists` (directories are implicit in paths) are not modelled. `process.exit` becomes the returned exit code.
- File names sort in the same order as the days they name. This holds for four-digit years, which the model assumes.
- Write order for yesterday: the ledger writes for yesterday happen during the comparison loop. The model performs them in the same order right after it, and nothing else touches the store in between.
- A ledger's users are the keys of a JSON object, so no ledger lists an address twice. The model keeps them as a sequence and states this as `FileStore.FilesDistinct` and `FileStore.CacheDistinct`: required of the store a run starts from, and kept by every write of the run.
- Engine.UpdateCheckInStats: describes the cache only as growing by today's ledger, the summary and streak files, not entry by entry.
- Script.RunOnce: states only that an exit of 1 leaves the files unchanged. The cache may have gained the snapshot read.
- Script.RunRewritesSameCompat: assumes the stage's compatibility write succeeded within the size limit. After a failed write the re-write reads whatever the file held before.
