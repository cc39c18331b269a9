# SupaBack, modelled and verified

SupaBack backs up a Supabase project: a `pg_dump` of its database and every object of its storage buckets, written
under one directory per UTC day to a local disk, an SFTP server or an S3 bucket, on cron schedules, with a retention
policy. This project models the parts that carry state, recursion or concurrency and proves what they keep. Everything
verifies with `dafny verify dfyconfig.toml`.

| file | what it models |
|---|---|
| `Text.dfy`, `Decimal.dfy` | Go string order, `Split`/`Join`, `Itoa`/`Atoi` |
| `Calendar.dfy` | dates, the layout `2006-01-02`, instants in nanoseconds |
| `Retention.dfy`, `RetentionHistory.dfy` | one retention pass; passes, writes, failed deletes and a clock interleaved |
| `KeySpace.dfy` | the contract all destinations share, on one map from keys to bytes |
| `FileTree.dfy`, `Local.dfy`, `Sftp.dfy`, `S3.dfy` | a file tree, the local destination, the SFTP delete, the S3 destination |
| `Refinement.dfy` | the tree and the bucket side by side |
| `Destination.dfy` | a destination as its users see it, over the tree and the bucket |
| `StorageWalk.dfy`, `StorageRun.dfy` | the paged recursive listing of a bucket, and a whole storage run |
| `DumpPipeline.dfy` | pg_dump, gzip and the destination joined by pipes |
| `Dsn.dfy` | the connection string: the program's printer against libpq's reader |
| `Runner.dfy` | a whole job: validation, job row, producers, retention |
| `Scheduler.dfy`, `Schedules.dfy` | cron entries; the schedule table and the handlers that keep both in step |
| `Settings.dfy`, `SettingsRuns.dfy` | merging and showing settings; start-up, saves and restarts |

Objects that the program updates in place are classes whose methods are proved against functions of the old state
(`Called`, `Handled`, `Saved`, `Started`, `Filed`, `DropTree`, `Doomed`, and so on); the lemmas then speak about those
functions, over single steps and over whole runs. Every failure of the outside world (a store call, a request, a
delete, a broken stream) is a parameter, a constant of the object, or an arbitrary choice.

The layout `2006-01-02` is the full-date of section 5.6 of RFC 3339, with the day limits of section 5.7 and the leap
years of Appendix C. The reader in `Dsn.dfy` follows the section "Keyword/Value Connection Strings" of the libpq
chapter of the PostgreSQL manual (34.1.1.1 in the edition for version 16).

## What the code does that its documentation does not say

Each of these is proved, most with the exact condition.

- "Keeps backups newer than N days" (README.md:149, with "keep anything from the last 30 days" at line 143) is measured
  from midnight before the backup, not from the backup: with `keep_days: 1` a job that starts a minute before midnight
  deletes its own backup a minute after (`Retention.OneDayWindowMissesMidnight`; the exact condition is
  `Retention.FreshBackupSurvives`).
- "The Settings UI has the highest priority" (README.md:181) holds until the next start: the environment is laid over
  the stored rows again and written back (`SettingsRuns.RestartForgetsPage`; the exact condition is
  `SettingsRuns.RestartLaysEnv`).
- "Leave empty to back up all buckets" (apps/web/src/pages/Settings.tsx:103) does not undo an earlier choice, stored or
  from the config file, because an empty value is never stored (`SettingsRuns.EmptiedPhotosStay` at two concrete
  configs; the exact condition is `SettingsRuns.EmptiedBuckets`, over whole runs `SettingsRuns.BucketChoiceStays`).
- Saving the settings page unchanged splits a bucket name that holds a comma (`SettingsRuns.CommaSplits`,
  `SettingsRuns.SaveShown`).
- The page's example of a bucket list, "avatars, documents, assets" (the placeholder at
  apps/web/src/pages/Settings.tsx:105), selects only the first bucket, since the names are not trimmed
  (`StorageRun.SpacedSelects`).
- A storage run copies an object under a key made of the names the service gives. On a disk two objects such as "x" and
  "a/../x" become one file, and the run reports the bytes of both (`StorageRun.TwinOverwrites`; the exact condition is
  `StorageRun.KeysStandWhereSpelled`); and of an object "a" beside a folder "a" one is skipped, while the run succeeds
  (`StorageRun.WritesAllUnlessShared`).
- A connection URL without a user makes libpq take `sslmode=...` for the user name, and a value with a tab or a
  newline, or an SSL mode with a space, is not read back (`Dsn.EmptyUserTakesSslMode`, `Dsn.DsnRoundTrip`).
- S3 `Delete` answers success although the service refused to delete some keys, since the per-key errors of the
  response are not read (`S3.S3Dest.Delete`); S3 `List` reads one response only, so a name whose entry is beyond it,
  at the latest beyond the first 1000, is missing (`S3.S3Dest.List`).
- A write whose stream breaks leaves a partial file on a disk and nothing in a bucket; a disk cleans the spelling of a
  key and a bucket does not; deleting a name that is a file removes it on a disk and not in a bucket; reading a directory
  such as a date is no error on a disk (`Refinement.BreakBoth`, `Refinement.WriteAny`, `Refinement.DeleteAny`,
  `Refinement.SameBytes`).
- A delete of a schedule that fails in the store has already stopped it: the row says enabled and nothing runs, until
  the schedule is switched on again, deleted, or loaded by a restart (`Schedules.HandledKeepsComplete`,
  `Schedules.SchedulesAgree`, `Schedules.ToggleRevives`, `Schedules.LoadedAgrees`).
- A job whose parts are all switched off in the settings is filed as a successful storage job that backed up nothing,
  and is followed by a retention pass (`Runner.EmptyJobs`, `Runner.Runner.RunNothing`).
- A job whose last update of its row fails reads "running" for ever (`Runner.RowTellsOutcome`, `Runner.OverlappingJobs`).
- `Apply` tests for two zeros while its rules test for positive numbers: with a negative count and no window it would
  delete every date; only the caller's guard prevents that (`Retention.NothingKeptWithoutRule`).

## Model

| member | source | states |
|---|---|---|
| `Retention.BuildKeepSet` | internal/retention/retention.go:64-86 | the two loops compute the policy: a listed date is kept when fewer than KeepLast listed dates are newer or its midnight is inside the window |
| `Retention.KeepFirst` | internal/retention/retention.go:67-72 | rule 1's loop keeps exactly the first min(KeepLast, length) dates |
| `Retention.KeepRecent` | internal/retention/retention.go:74-83 | rule 2's loop adds exactly the dates not before now minus KeepDays days |
| `Retention.NewestDates` | internal/retention/retention.go:33-42 | the filter and the sort give exactly the accepted names, newest first |
| `Retention.DeleteOthers` | internal/retention/retention.go:46-57 | every date outside the keep set gets a delete attempt, a failed one stops nothing, nothing else is touched |
| `Retention.Apply` | internal/retention/retention.go:23-62 | a pass removes exactly the listed dates outside the policy but for those whose delete fails; what it removes is a listed date; a policy of two zeros or a failed listing removes nothing; only the failed listing is an error |
| `Retention.LatestDayStays` | internal/retention/retention.go:67-72 | under "keep the last one" the latest day stays and every other one goes |
| `Retention.SortDescSorts` | internal/retention/retention.go:41-42 | the reverse sort is a descending permutation of its input |
| `Retention.SortDescUnique` | internal/retention/retention.go:41-42 | a descending arrangement is unique, so any sort gives that answer |
| `Retention.RankIsPosition` | internal/retention/retention.go:67-72 | in a newest-first list the position of a date is the number of newer dates |
| `Text.PrefixIsLess` | internal/retention/retention.go:41-42 | the string order of the sort puts a proper prefix first |
| `Retention.WindowIsPrefix` | internal/retention/retention.go:74-83 | rule 2 keeps a prefix of the newest-first list |
| `Retention.KeepIsLongerPrefix` | internal/retention/retention.go:64-86 | the keep set is the longer of the two prefixes, with its exact size |
| `Retention.KeepSize` | internal/retention/retention.go:64-86 | at least min(KeepLast, number of dates) are kept; with no date in the future at most max(KeepLast, KeepDays), with KeepDays + 1 in place of KeepDays exactly at midnight UTC |
| `Retention.NothingKeptWithoutRule` | internal/retention/retention.go:24-26 | exactly when a pass keeps nothing at all |
| `Retention.FreshBackupSurvives` | internal/backup/runner.go:74-85 | a job's own pass keeps the directory the job wrote if and only if fewer than KeepLast dates are newer or midnight before its start is inside the window; the three sufficient conditions a user would expect follow |
| `Retention.OneDayWindowMissesMidnight` | internal/retention/retention.go:74-83 | on every day up to the year 9999, a backup two minutes old that a one-day window deletes |
| `RetentionHistory.NextKeepsInv` | internal/retention/retention.go:23-62 | every write, listing (full or partial), clock read, clock tick and single delete attempt keeps: what the policy keeps of all dates ever written is present, and every running pass only aims at dates outside its policy (that it aims at all of them is `RetentionHistory.TodoUntilTried`) |
| `RetentionHistory.EventEffects` | internal/retention/retention.go:28-57 | what each event does to the dates present, the dates written and the clock, and that it leaves the other passes alone |
| `RetentionHistory.TodoUntilTried` | internal/retention/retention.go:44-57 | after any events, what a pass has still to try is what it listed and the policy at its clock does not keep, but for what it has tried |
| `RetentionHistory.PassRuns` | internal/retention/retention.go:28-57 | from any reachable state the events of one pass (a listing, a clock read, one attempt for each listed date outside the policy in any order) are all enabled, and remove exactly those dates that do not stick |
| `RetentionHistory.ApplyIsPass` | internal/retention/retention.go:23-62 | the program's pass over a destination reaches the dates that those events reach, for the same listing, clock and sticky names |
| `RetentionHistory.KeptInPart` | internal/retention/retention.go:64-86 | a date kept among more dates at a later instant is kept among fewer at an earlier one |
| `RetentionHistory.DeletesAreSafe` | internal/retention/retention.go:28-57 | in every interleaving of overlapping or partial passes and writes, no delete is aimed at one of the KeepLast newest dates written so far, nor at a date inside the window when its pass read the clock; that deletes do happen is `RetentionHistory.PassRuns` |
| `RetentionHistory.KeepForgetsTheLost` | internal/retention/retention.go:64-86 | dates already removed do not change what the policy keeps |
| `RetentionHistory.HistoryCollapses` | internal/retention/retention.go:23-86 | after any history with any pattern of failed deletes, one complete pass leaves exactly the policy applied once, now, to every date ever written |
| `RetentionHistory.CompletePass` | internal/backup/runner.go:74-85 | the same for the program's own pass over the destination that the history left, other entries untouched |
| `Calendar.DateOfDay` | internal/retention/retention.go:76-79 | stepping through the calendar day by day and counting days are inverse |
| `Calendar.DayNumberOrders` | internal/retention/retention.go:79 | day numbers order dates as year, month and day do, and are distinct |
| `Calendar.StringOrderIsDayOrder` | internal/retention/retention.go:34-42 | on accepted names string order is calendar order, and equal days mean equal names |
| `Calendar.FormatParse` | internal/backup/database.go:36-39 | a printed date is accepted by the filter if and only if its year is at most 9999, and then parses back to itself |
| `Calendar.PrefixIsToday` | internal/backup/storage.go:46 | the prefix printed at an instant is accepted up to the year 9999 and stands for the UTC day of that instant |
| `Calendar.PrefixAllDay` | internal/backup/storage.go:46 | the prefix stays the same for the 24 hours of a UTC day |
| `Calendar.Cycle` | internal/retention/retention.go:36 | every date has its like 400 years later, 146097 days on |
| `Calendar.MonthLengths` | internal/retention/retention.go:36 | the lengths of the twelve months in a common year and in a leap year |
| `Calendar.KnownDates` | internal/retention/retention.go:36 | four names that the date filter takes, two of them leap days |
| `Calendar.KnownRefusals` | internal/retention/retention.go:36 | seven names that it does not take, among them 2023-02-29, 1900-02-29 and 2024-04-31 |
| `Calendar.Epoch` | internal/retention/retention.go:76-79 | day 719528 is 1970-01-01 and no other date |
| `KeySpace.KeyPrefixIsPathPrefix` | internal/destination/s3.go:159-164 | a key lies below another as a string with separator exactly when its path does, so a sibling that merely starts alike never matches |
| `KeySpace.CleanKeys` | internal/destination/local.go:84-86 | the spelling `filepath.Join` gives a key that stays below the base directory is ordinary or empty, leads to the same place, and is the key itself exactly for ordinary keys and the empty one |
| `KeySpace.Spellings` | internal/destination/local.go:84-86 | `./key`, `/key` and `s/../key` lead where `key` leads; `../key` climbs above the base directory |
| `FileTree.FileSystem.PutFile` | internal/destination/local.go:23-34 | directories above and then the file: it works exactly when nothing above is a file and the target is no directory, and otherwise changes nothing |
| `FileTree.FileSystem.Walk` | internal/destination/local.go:57-82 | the walk visits every file at or below the path once |
| `Local.LocalDest.Write` | internal/destination/local.go:23-34 | for any key that stays below the base: stores the bytes at the place the cleaned key names, or, when the stream breaks, what was read so far with an error; a place that is a directory or lies below a file changes nothing; empty directories above the file are empty no longer |
| `Local.LocalDest.List` | internal/destination/local.go:36-55 | on the cleaned prefix: answers exactly the directories there, which in a tree where every directory leads to a file are the directory names of the stored keys; a missing directory lists as empty; a file, or a path through a file, is an error, and nothing else is |
| `Local.LocalDest.ListTop` | internal/destination/local.go:36-55 | the base directory always lists: the names of the stored keys and the empty directories that failed writes left |
| `Local.LocalDest.ListFiles` | internal/destination/local.go:57-82 | on the cleaned prefix: every file below it once with its size, and the prefix itself when it is a file; an error exactly when a directory on the way is a file |
| `Local.LocalDest.Read` | internal/destination/local.go:84-86 | opens the file that the cleaned key names; a directory opens without error too; anything else is an error |
| `Local.LocalDest.Delete` | internal/destination/local.go:88-90 | for any key that stays below the base: everything at or below the place the cleaned key names is gone, everything else unchanged |
| `Local.LocalDest.BlockedIsConflict` | internal/destination/local.go:23-34 | a write is refused exactly when one key would be a directory of the other or the place is an empty directory |
| `Local.LocalDest.HeldIsPlain` | internal/destination/local.go:23-34 | stored keys are spelled clean and none is a directory of another |
| `Sftp.RemoveAllSFTP` | internal/destination/sftp.go:185-203 | terminates; on success nothing at or below the path remains; on success or failure everything outside is unchanged and what remains inside was there before |
| `Sftp.RemoveEntries` | internal/destination/sftp.go:190-201 | the loop removes the entries one by one, stopping at the first failure with nothing outside touched |
| `S3.S3Dest.KeysStayApart` | internal/destination/s3.go:56-61 | the configured prefix separates and hides nothing: different keys stay different, lie below one another exactly as they did, and are never objects of others |
| `S3.S3Dest.Write` | internal/destination/s3.go:63-78 | success stores the whole stream, a broken stream stores nothing, a failed request has stored the object or has not; objects outside the configured prefix are never touched |
| `S3.S3Dest.Read` | internal/destination/s3.go:148-157 | the stored bytes of the key |
| `S3.S3Dest.List` | internal/destination/s3.go:80-108 | with a response of any length up to 1000 entries, a name is answered if and only if it is a directory name of the stored keys and its entry is among those the response holds; all names when it holds all entries |
| `S3.S3Dest.ListTop` | internal/destination/s3.go:80-108 | the top-level names, all of them when the service fills its pages and the top level has at most 1000 entries |
| `S3.PageIsLowRanks` | internal/destination/s3.go:89-97 | a response of n entries holds exactly those with fewer than n before them |
| `S3.S3Dest.ListFiles` | internal/destination/s3.go:110-146 | every file below the prefix once with its size, over any number of full, short or empty pages |
| `S3.Advance` | internal/destination/s3.go:166-183 | following the continuation point past a page leaves exactly the unlisted keys, also when the page has just been deleted |
| `S3.S3Dest.Sweep` | internal/destination/s3.go:166-185 | the delete-while-listing loop terminates, with full, short or empty pages; on success no key below the prefix is left but refused ones, at any time no other key is touched, also when a failed request has deleted a part of its page |
| `S3.S3Dest.Delete` | internal/destination/s3.go:159-186 | on success exactly the keys below the name are gone, but for those the service refused, so the directory is empty if and only if no key below it was refused; nothing else ever changes |
| `Refinement.StartBoth` | internal/destination/local.go:16-21 | a new base directory and a bucket with nothing below the prefix agree, on the empty map |
| `Refinement.RunBoth` | internal/destination/destination.go:17-28 | after any run of non-conflicting writes and deletes of top-level names, the tree and the bucket under any prefix hold the same map, the one the run computes on maps, and the rest of the bucket is unchanged |
| `Refinement.SameNames` | internal/destination/destination.go:19-20 | both answer the same top-level names exactly when the bucket's one response reaches every name: whenever the service fills its pages and there are at most 1000 entries, never when there are more than 1000 names |
| `Refinement.SameFiles` | internal/destination/destination.go:21-22 | for any prefix that stays below the base, both list the same files exactly when no directory on the way is a file and the prefix is spelled clean and not itself a file, or nothing is stored there; for a date, exactly when it is not a file |
| `Refinement.SameBytes` | internal/destination/destination.go:23-24 | for any key that stays below the base, both read the same bytes or both fail exactly when the key is stored, or its clean spelling is neither stored nor a directory; for an ordinary key, exactly when it is no directory |
| `Refinement.DirectoryReads` | internal/destination/local.go:84-86 | any directory that holds a file opens on the disk and not in the bucket |
| `Refinement.DateReadsAsDirectory` | internal/destination/local.go:84-86 | a concrete date with one file, which the disk opens and the bucket does not |
| `Refinement.DeletesAgree` | internal/destination/destination.go:25-26 | for any key that stays below the base the two deletes agree exactly when the key is spelled clean and is not itself a file, or nothing is stored where the cleaned spelling leads |
| `Refinement.DeleteAny` | internal/destination/destination.go:25-26 | the same for the two stores themselves |
| `Refinement.WriteAny` | internal/destination/destination.go:18 | after writing any key that stays below the base the two stores hold the same exactly when the key is spelled clean and does not conflict with a stored one |
| `Refinement.BreakBoth` | internal/destination/destination.go:18 | after a broken stream the two agree exactly when the key already held what was read |
| `Destination.Target.Write` | internal/destination/destination.go:18 | disk and bucket alike: a write touches at most its own place, one that succeeds has stored the data there, one that is refused changes nothing, and without failures only a refused or broken one fails |
| `Destination.Target.List` | internal/destination/destination.go:19-20 | disk and bucket alike: names of stored keys and empty directories, all of them on a disk, and on a bucket as far as one response holds them |
| `Destination.Target.ListFiles` | internal/destination/destination.go:21-22 | disk and bucket alike: every file below a listed top-level name once with its size |
| `StorageWalk.ListObjects` | internal/backup/storage.go:114-168 | terminates for any depth and folder size, returns the paths in listing order, and sends the requests that pages of 100 cost (`StorageWalk.RequestsByHundreds`) |
| `StorageWalk.RequestsByHundreds` | internal/backup/storage.go:115-165 | a folder of files costs one request for every full hundred and one more, and the requests of a subfolder besides |
| `StorageWalk.PathsAreFiles` | internal/backup/storage.go:144-159 | the paths collected are distinct and are exactly the files of the tree |
| `StorageWalk.WalkIsExact` | internal/backup/storage.go:114-168 | as strings, every file of the bucket exactly once and nothing else |
| `StorageRun.Filter` | internal/backup/storage.go:194-206 | the loop gives the specified selection |
| `StorageRun.ChosenIsOrdinary` | internal/backup/storage.go:39-41 | the selection is exactly the buckets whose name is listed, and keeps names distinct |
| `StorageRun.SpacedSelects` | internal/config/settings.go:67-73 | of bucket names typed with a comma and a space between them, the first selects its bucket and every other one only a bucket whose name begins with that space |
| `StorageRun.ObjectKeyIsInjective` | internal/backup/storage.go:55 | with slash-free bucket names two objects share a key only if they are the same object |
| `StorageRun.KeyParts` | internal/backup/storage.go:55 | the key of an object is the path of the date, "storage", the bucket and the object, in this order |
| `StorageRun.RunKeysDistinct` | internal/backup/storage.go:48-62 | all destination keys of a run are distinct as strings |
| `StorageRun.KeysStandWhereSpelled` | internal/backup/storage.go:55 | on a disk every key of a run leads to the place it spells, so to distinct places below the date, if and only if no bucket, folder or object is named "." or ".." |
| `StorageRun.TwinsMeet` | internal/backup/storage.go:55 | a concrete bucket whose two objects have distinct keys and one place on a disk |
| `StorageRun.TwinOverwrites` | internal/destination/local.go:23-34 | written to a disk, the second of these replaces the first, while both writes report their bytes |
| `StorageRun.ClashIsShared` | internal/backup/storage.go:48-62 | no key of a run is a directory of another if and only if no bucket holds an object "a" beside a folder "a" with objects |
| `StorageRun.SharedIsAllowed` | internal/backup/storage.go:102-105 | a concrete well-formed bucket that holds such a pair |
| `StorageRun.Download` | internal/backup/storage.go:170-187 | on disk or bucket: success stores the object's bytes and answers their number; a failed fetch changes nothing, a failed write or broken stream at most the object's own place |
| `StorageRun.CopyBucket` | internal/backup/storage.go:54-62 | on disk or bucket, where every name stands for its own place: the total is the sum of the sizes stored under the keys whose write succeeded, with the source's bytes under each; a failed object is skipped and disturbs no other key |
| `StorageRun.Run` | internal/backup/storage.go:33-67 | the same for the whole run, and for the buckets before one that cannot be listed; a failed bucket list writes nothing |
| `StorageRun.WritesAllUnlessShared` | internal/backup/storage.go:48-66 | where nothing was at the date and nothing fails, every object is written, on a disk if and only if no bucket holds an object beside a folder of the same name |
| `StorageRun.ListBackups` | internal/api/handlers.go:298-325 | at most one entry per listed name, exactly one for every directory when nothing fails and the names fit one answer, with every file under it once and the sum of their sizes; a date whose files cannot be listed is skipped |
| `StorageRun.ShownTotal` | internal/api/handlers.go:307-323 | the total of a date is the total of the keys stored under it, in whatever order they were listed |
| `StorageRun.ShownRun` | internal/api/handlers.go:307-323 | what the entries say about a date written by one run, for any listing of the names |
| `StorageRun.BackupThenList` | internal/backup/storage.go:45-66 | on disk or bucket, where nothing was at the date, nothing fails and (on a disk) no name is "." or "..": the total a run returns is the total the browser then shows for the date; it shows the date only if there was an object to store or an empty directory was there, and always then while the top-level names fit one answer |
| `DumpPipeline.NextConserves` | internal/backup/database.go:52-91 | every step of every process keeps all bytes, in order, in both pipes |
| `DumpPipeline.NextOrdered` | internal/backup/database.go:66-91 | the stages end in order and the error travels with the end of the stream |
| `DumpPipeline.SuccessIsWholeDump` | internal/backup/database.go:52-103 | in every interleaving success means that pg_dump exited cleanly and the whole dump, or the whole compressed stream of it, is stored and its length reported; an error means pg_dump or the destination failed |
| `DumpPipeline.StoredIsPrefix` | internal/backup/database.go:52-96 | whatever an unfinished or failed run has stored is the beginning of what a whole run stores |
| `DumpPipeline.EveryStepCounts` | internal/backup/database.go:66-93 | every step lowers a lexicographic measure |
| `DumpPipeline.Schedule` | internal/backup/database.go:66-93 | no unfinished state is stuck while the destination keeps reading |
| `DumpPipeline.Run` | internal/backup/database.go:52-103 | under any scheduler the run ends, and succeeds exactly when pg_dump does if the destination does not fail |
| `Dsn.QuotedReads` | internal/backup/database.go:202-209 | libpq reads any quoted value back, whatever characters it holds and whatever follows |
| `Dsn.FittingReads` | internal/backup/database.go:202-209 | a value that is quoted or plain reads back as itself and leaves what follows |
| `Dsn.MisfitLoses` | internal/backup/database.go:202-209 | any other value does not read back |
| `Dsn.RoundTrip` | internal/backup/database.go:157-167 | a joined list of settings parses back to itself if and only if every value fits |
| `Dsn.DsnRoundTrip` | internal/backup/database.go:157-167 | parsing the program's string gives exactly host, port, dbname, user, sslmode and the optional hostaddr, if and only if host, database and user are quoted or plain and the SSL mode is plain |
| `Dsn.DsnSays` | internal/backup/database.go:129-167 | the string reads back as host, port, dbname, user, sslmode and the address, with dbname the path after its slash, and "postgres", "5432" and "require" for what the URL leaves empty |
| `Dsn.ConcreteDsn` | internal/backup/database.go:129-167 | one URL and its string, character by character |
| `Dsn.EmptyUserTakesSslMode` | internal/backup/database.go:157-167 | without a user libpq reads host, port and database as meant, the whole SSL setting as the user name, no SSL mode, and the address if there is one |
| `Dsn.HostAddr` | internal/backup/database.go:139-155 | the first IPv4 address of a successful lookup, unless the host is one itself |
| `Dsn.BuildConnDSN` | internal/backup/database.go:117-168 | the string built is read back as meant if and only if the URL's parts fit, and then says the five settings and the address spelled by the URL's own fields and the three defaults; a URL without host is passed on |
| `Runner.KindIsKept` | internal/config/config.go:19-30 | a full or database job is filed as such exactly when the settings include what it needs; a storage job always; an empty job always as storage |
| `Runner.RefusedByFields` | internal/config/config.go:198-218 | a job is refused exactly when one of the fields it needs is empty, with the first one named |
| `Runner.KindSetsFlags` | internal/config/config.go:19-30 | the requested kind decides the two include flags and nothing else |
| `Runner.EmptyJobs` | internal/config/config.go:19-30 | a job backs up nothing if and only if the settings switch off every part its kind would run |
| `Runner.JobStore.CreateJob` | internal/store/store.go:81-90 | a fresh id with a running row, or no change |
| `Runner.JobStore.CompleteJob` | internal/store/store.go:92-99 | changes the status and size of one row, or nothing |
| `Runner.Runner.Produces` | internal/backup/runner.go:37-58 | storage runs only if the database part did not fail; the total counts the parts that succeeded |
| `Runner.Runner.Run` | internal/backup/runner.go:24-88 | the row carries the kind, the destination, the status and the bytes of the producers that succeeded, unless its last update fails; a failed job deletes nothing; after a success the dates left are exactly what the policy of the config's two counts keeps, when one of them is positive, everything is listed and no delete fails, and with neither positive nothing is deleted |
| `Runner.SavedPolicy` | internal/backup/runner.go:76-82 | the two counts that a complete save sends are the policy of the next job |
| `Runner.Runner.RunNothing` | internal/backup/runner.go:37-85 | such a job, configured and recorded, succeeds with no bytes, is filed as a storage job, and under a positive rule still deletes old dates |
| `Runner.Runner.RunAndKeep` | internal/backup/runner.go:74-85 | end to end, the directory a job wrote is there after the job if and only if one of five listed conditions holds |
| `Runner.RowsStand` | internal/store/store.go:81-99 | of jobs that follow one another, none touches an earlier row |
| `Runner.RowTellsOutcome` | internal/backup/runner.go:60-72 | of jobs that follow one another, the row of the i-th says success exactly when it succeeded and its last update did |
| `Runner.OverlappingJobs` | internal/backup/runner.go:29-72 | in every interleaving of jobs that overlap, each recorded job has a row of its own that no other job touches, and it says success exactly when the job has finished, succeeded and could be updated |
| `Runner.AloneIsOverlapped` | internal/backup/runner.go:29-72 | a job that runs alone files what its interleaved steps file |
| `Scheduler.CronScheduler.Register` | internal/scheduler/scheduler.go:75-87 | the old entry goes, a valid expression gets a fresh entry, an invalid one leaves none |
| `Scheduler.CronScheduler.Remove` | internal/scheduler/scheduler.go:58-65 | the schedule's entry and its map key go together |
| `Scheduler.CronScheduler.SetEnabled` | internal/scheduler/scheduler.go:67-73 | registers or removes |
| `Scheduler.CalledKeepsInv` | internal/scheduler/scheduler.go:58-87 | every call keeps: ids are fresh, every live entry is the one its schedule maps to, the map is injective |
| `Scheduler.AtMostOneLiveJob` | internal/scheduler/scheduler.go:58-87 | in every interleaving a schedule has at most one live entry, and a live id is the image of one schedule only |
| `Scheduler.DeadStaysDead` | internal/scheduler/scheduler.go:75-87 | an entry id once removed, stale in the map or not, is never live again |
| `Scheduler.FailedRegistration` | internal/scheduler/scheduler.go:78-84 | a refused expression leaves its schedule without a live entry and every other entry as it was |
| `Schedules.Handler.CreateSchedule` | internal/api/handlers.go:208-236 | row, then cron entry, and the row removed again for a bad expression; with the status code of every case (what is stored and runs afterwards is `Schedules.CreateTakesEffect`) |
| `Schedules.Handler.DeleteSchedule` | internal/api/handlers.go:238-250 | cron entry first, then the row |
| `Schedules.Handler.ToggleSchedule` | internal/api/handlers.go:256-282 | row first, then the cron entry; a missing or unreadable row changes nothing; the status code of every case |
| `Schedules.Store.CreateSchedule` | internal/store/schedules.go:20-38 | an enabled row under a fresh id, or no change |
| `Schedules.Store.DeleteSchedule` | internal/store/schedules.go:86-89 | removes the row or changes nothing |
| `Schedules.Store.ToggleSchedule` | internal/store/schedules.go:91-98 | sets the flag of an existing row or changes nothing |
| `Schedules.CreateTakesEffect` | internal/api/handlers.go:208-236 | one more row, under a fresh id, with the name, expression, type ("full" when empty) asked for and enabled, and exactly one live entry for it with that expression and type; nothing else changes |
| `Schedules.CreateRefused` | internal/api/handlers.go:213-233 | a refused expression leaves no live entry, and no row unless the removal fails; an incomplete request or a failed insert changes nothing |
| `Schedules.DeleteTakesEffect` | internal/api/handlers.go:238-250 | a deleted schedule has no live entry and, unless the store fails, no row; nothing else changes |
| `Schedules.ToggleTakesEffect` | internal/api/handlers.go:256-282 | the row reads as switched and is otherwise unchanged; exactly one live entry with its expression and type when switched on and valid, none otherwise; nothing else changes |
| `Schedules.ToggleRefused` | internal/api/handlers.go:256-282 | a missing, unreadable or unwritable row: nothing changes |
| `Schedules.HandledKeepsSound` | internal/api/handlers.go:208-282 | with any store failures each live cron entry belongs to a stored, enabled row and carries its expression and type |
| `Schedules.HandledKeepsComplete` | internal/api/handlers.go:208-282 | full agreement is kept by a request if and only if it is not a failing delete of a schedule that ought to run |
| `Schedules.LoadAndStart` | internal/scheduler/scheduler.go:33-50 | the loop registers the enabled rows in order |
| `Schedules.LoadedAgrees` | internal/scheduler/scheduler.go:33-50 | start-up from any table gives full agreement |
| `Schedules.AfterAgrees` | internal/api/handlers.go:208-282 | over any requests with any failures, a schedule that ought to run is live exactly when it is not lost: stopped by a delete that failed in the store and not since deleted or toggled |
| `Schedules.SchedulesAgree` | internal/api/handlers.go:208-282 | from start-up through any requests with any failures: no foreign or doubled entry; each live entry carries the expression and type of its row; a row is live if and only if it is enabled, valid and not lost; and table and cron agree in full if and only if no schedule is lost |
| `Schedules.ToggleRevives` | internal/api/handlers.go:238-282 | a schedule stopped by a failed delete runs again once it is switched on, without a restart |
| `Schedules.LiveIsValid` | internal/scheduler/scheduler.go:81-84 | only accepted expressions are ever live |
| `Decimal.AtoiItoa` | internal/config/settings.go:107-131 | printing a machine integer and reading it back is the identity, signs included |
| `Decimal.OddNumbers` | internal/config/settings.go:107-131 | a malformed number reads as 0, one out of range as the nearest bound, a plus sign is read |
| `Settings.MergeTwice` | internal/config/settings.go:42-140 | merging twice is merging once with the later rows laid over the earlier ones |
| `Settings.MergeAbsorbs` | internal/config/settings.go:42-140 | rows that are all overridden later leave no trace |
| `Settings.RowsReachFields` | internal/config/settings.go:42-140 | every non-empty row is what its own field says after the merge, for each of the 24 keys |
| `Settings.UntoldStays` | internal/config/settings.go:42-140 | a setting without a row shows what it showed, and so with an empty row, but for the four fields that an empty row clears |
| `Settings.ShownReaches` | internal/config/settings.go:143-174 | merged over any other config, what a config shows brings every setting not shown empty along |
| `Settings.KnownFlags` | internal/config/settings.go:98-100 | the six words read as true and six that are not |
| `Settings.BucketsSurvive` | internal/config/settings.go:67-73 | joined bucket names split back to themselves if and only if none holds a comma |
| `Settings.ShownMergesBack` | internal/config/settings.go:143-174 | merging what a config shows over the config changes nothing if and only if no bucket name holds a comma, and never changes any other field |
| `SettingsRuns.SettingsStore.SetSettings` | internal/store/settings.go:36-60 | the upsert loop stores exactly the non-empty values, all or none |
| `SettingsRuns.EnvAlreadyApplied` | internal/config/config.go:132-195 | the file config with the environment applied already holds every override |
| `SettingsRuns.Start` | cmd/supaback/main.go:30-73 | the start-up order of loads, merges and the write-back, with either store call free to fail |
| `SettingsRuns.Server.UpdateSettings` | internal/api/handlers.go:89-139 | store, read back, merge, rebuild the destination, update the state; after success every value sent is what its own field says and the destination is the configured one if it opened; a failed store call leaves config and destination alone |
| `SettingsRuns.SaveReaches` | internal/api/handlers.go:109-132 | a complete save puts every value sent into the stored rows and into its own field of the config; a setting neither sent nor stored stays |
| `SettingsRuns.SavedCounts` | internal/config/settings.go:126-131 | retention counts sent as printed numbers are the ones in use |
| `SettingsRuns.EnvSets` | internal/config/config.go:153-195 | what each variable sets, port, static directory and store path included, and that unset ones set nothing |
| `SettingsRuns.StartReaches` | cmd/supaback/main.go:44-63 | after any start-up every variable that is set is what its field says, whatever is stored or fails, and so is every stored row read that no variable covers |
| `SettingsRuns.StartBehind` | cmd/supaback/main.go:44-63 | after any start-up the config is one merge of the base; after a clean one, of the base with the stored rows |
| `SettingsRuns.SeenRowsVanish` | internal/api/handlers.go:109-132 | merging all rows over the running config forgets what it was built from |
| `SettingsRuns.CompleteSaveSyncs` | internal/api/handlers.go:109-132 | one complete save brings the config in step with the rows whatever failed before it |
| `SettingsRuns.RunInSync` | internal/api/handlers.go:109-132 | from start-up through any run of saves with any pattern of store failures, the config is one merge of the base with the current rows and no row is empty, as long as the last write was read back |
| `SettingsRuns.ReadBackMeans` | internal/api/handlers.go:109-120 | "read back" means that the last save whose write reached the store read the rows, or, without one, that start-up did |
| `SettingsRuns.RunSteady` | internal/api/handlers.go:121-132 | no run touches the store path, the server section or loses a row |
| `SettingsRuns.DestinationInUse` | internal/api/handlers.go:112-124 | with destinations that open at one save and not at another: the one in use is the one configured when a destination was last opened, the fallback if none ever was, and the configured one if the last attempt succeeded |
| `SettingsRuns.OpenedMeans` | internal/api/handlers.go:112-124 | "the last attempt succeeded" means that the last complete save opened its destination, or, without one, that start-up did |
| `SettingsRuns.DestinationFromStart` | cmd/supaback/main.go:65-73 | the same from start-up, whatever its store calls met; the fallback is the local directory "./backups" |
| `SettingsRuns.RestartLaysEnv` | cmd/supaback/main.go:52-63 | a restart gives the running config with the environment laid over it, the same config if and only if no stored row differs from the variable covering it |
| `SettingsRuns.RestartForgetsPage` | cmd/supaback/main.go:52-63 | a concrete URL saved in the settings page that a restart replaces by the environment's |
| `SettingsRuns.SaveShown` | internal/api/handlers.go:58-132 | saving what the settings page shows leaves the running config as it was, if and only if no bucket name holds a comma |
| `SettingsRuns.CommaSplits` | internal/config/settings.go:67-73 | a concrete bucket name that saving the page unchanged splits in two |
| `SettingsRuns.EmptyValueIsIgnored` | internal/store/settings.go:51-54 | an emptied field has no effect at all |
| `SettingsRuns.EmptiedBuckets` | internal/api/handlers.go:109-126 | after a complete save of an emptied bucket list the list is empty if and only if it was empty before and no list is stored; in step with the rows, the save leaves the list as it was |
| `SettingsRuns.EmptiedPhotosStay` | internal/config/settings.go:67-73 | two concrete configs, one from a stored row and one from the config file, that still name their bucket after the list has been emptied |
| `SettingsRuns.BucketChoiceStays` | internal/config/settings.go:67-73 | a run of saves ends with the empty list if and only if it began with it and no complete save has merged a stored list |

## Left out

- The web frontend, HTTP routing, JSON decoding, CORS, zip and file downloads, Docker files: plumbing over libraries. A
  request is the sequence of store, scheduler and state calls it makes, on fields already trimmed and parsed.
- SSH, AWS, SQL and DNS: small state machines stand for them (a tree, a flat map with pages and a continuation point, tables
  with fresh ids, a list of looked-up addresses). SFTP reconnecting is not modelled.
- SFTP `Write`, `List` and `Read`: the same calls on a tree as the local ones. SFTP `ListFiles` passes over every error of
  its walk, so it answers a part, or nothing, where the local one fails; it is not modelled.
- The inside of gzip and pg_dump: gzip is any stream encoder whose closed stream decodes to what was fed, pg_dump a
  process that writes some bytes and exits well or badly. The lookup of the program and the IPv4 check before it are left out.
- Progress of the dump when the destination stops reading early: the read ends are never closed, so the code makes no such
  promise; safety is proved for that case too.
- Handlers running at the same time: `Handler` and `Server` hold no lock across their steps, so agreement and the
  running config are stated for one request at a time. The scheduler's own invariant holds in every interleaving.
- Firing times of cron expressions: an expression is valid or not, by a fixed predicate.
- `path.Clean`, the date pattern of the download routes, credentials and log output: not correctness cores.
- The database key of a job: it lies under `database/`, beside `storage/`, and is not among the keys of a storage run.
- Two clocks: the two reads of the clock in the database key are one instant here, and instants start in the year 0.
- `Retention.KeepRecent`: does not model `AddDate` overflowing for a KeepDays of many millions of years.
- `Retention.Dest.Delete`: a failed delete either removes the name or leaves it; a date that lost only some of its files counts as present.
- `Retention.Apply`: takes a listing without repeated names, which is what all three destinations answer.
- `Local.LocalDest.Write`: like `Delete`, `Read`, `List` and `ListFiles`, says nothing of a key that climbs above the base
  directory with `..`; a full or failing disk is not covered.
- `Local.LocalDest.Delete`: the base directory itself, which deleting the empty key removes as well, is taken to remain.
- `Local.LocalDest.ListFiles`: files that vanish during the walk are not covered.
- `StorageRun.Run`: on a disk, with a bucket, folder or object named `.` or `..`, promises nothing about what is held; such names
  come from the service unchecked.
- `Refinement.RunBoth`: assumes that the bucket answers every request and refuses no delete, since either breaks agreement by itself.
- `S3.S3Dest.Sweep`: takes the service to send finitely many empty pages in a row, without which no loop over pages ends.
- `StorageWalk.ListObjects`: the tree has non-empty names without slash, as the service stores them, and stands still during the walk.
- `Dsn.BuildConnDSN`: takes the parsed URL; a URL that cannot be parsed is passed on like one without host. The password travels
  apart from the string and is not part of it.
- `Settings.MergeTwice`: setting keys are an enumeration, since the strings of the program are pairwise distinct; the YAML file is the
  config it decodes to.
- `Schedules.LoadAndStart`: the order of the listing is any order without repetition; `TouchSchedule` and the creation times are left out.
- `SettingsRuns.Start`: the fallback destination is taken to open; the program goes on without one if it does not.
- `Runner.Runner.Run`: what the producers do is given as the names they add and their results; their insides are the subject of
  `DumpPipeline.dfy` and `StorageRun.dfy`. Times and messages of the job row are left out.
