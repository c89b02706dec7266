# GitHub-archive loader, modelled in Dafny

The system downloads the hourly archives of public GitHub events over a date range. It decompresses them and flattens each event into rows of per-table CSV files, one set of files per day. Its last stage is meant to bulk-load each day's files into PostgreSQL and remove them. As written, that stage loads nothing (see below). Three parts carry the logic:

- **the manager** (`manager.py`) plans the hour buckets (every hour of every day from the start date to the end date, newest first). It runs the stages over them: download, decompress, write CSVs, copy into the database.
  - The write stage opens a day's writers at hour 23.
  - It clears the converter's seen-sets when that day is the first of a month.
  - It closes the writers at hour 0 and hands the day on to the copy stage.
- **the converter** (`json_to_csv_converter.py`) walks the lines of one bucket from last to first:
  - it skips lines whose envelope fails schema validation, and events whose id it has seen;
  - it dispatches every other event on its type tag;
  - it writes issue, pull-request and push-group rows only on first sight, so the newest version of an entity is the one kept.
- **the database link** (`database_link.py`) lists the `.csv` files of the data directory as tables.
  - It copies each table once.
  - On an illegal character it rolls back, strips the file's null bytes and copies once more.
  - It commits each table whose copy went through. Any other failure aborts the remaining tables.

Modules:

- `Wrappers` and `Seqs`: option type and sequence helpers (reversal, map, tabulation).
- `Events`: decoded events.
- `Rows`: row tuples, the per-table writers and the tuple builders.
- `Normalizer`: the converter as a specification (`State`, `Step`, `Run`) and as a class whose methods are proved to follow it.
- `Dedup`: skip, dispatch, at-most-once and newest-wins properties.
- `Calendar`: Python's proleptic Gregorian `datetime.date`.
- `Names`: bucket names, `zfill`, Python slicing.
- `Planner`: `__dates_to_download` and `Manager.__init__`.
- `Storage`: the data directory as a set of file names.
- `Rotation`: the day rotation over any queue.
- `Pipeline`: the four stages.
- `Loader`: `get_csv_files`, the null-byte strip and the retry/commit policy.

The model follows the code as written on these points (the meaning assumed for the undefined `reset_added_sets` is under "## Left out"):

- The hour part of a bucket name is not padded (`2015-01-01-0`). So the write loop's tests are `hour == '23'` and `hour == '0'`.
- `run_copy_into_database` calls `insert_csvs_into_db(day)` (manager.py:70), but the method takes no argument (database_link.py:35). The call therefore raises `TypeError` on the first day handed on. `remove_inserted_csvs` is never reached, nothing is loaded, and the copy thread ends. `Pipeline.RunCopyAsWritten` states this. The stage as evidently intended is `Pipeline.RunCopyIntoDatabase`: whether a day's load goes through is its parameter `loads`. The load itself is modelled as the zero-argument method, which loads every `.csv` in the directory (see "## Findings").
- The seen-sets are cleared when day 01 of a month is opened, at its hour 23 (manager.py:50-51), before any of that day's buckets is written. Processing runs newest first, so day 01 is not deduplicated against days 02 to the end of its own month. Its ids stay seen through the days of the previous month, until that month's day 01. The deduplication window therefore runs from day 01 of one month back to day 02 of the month before, one day off a calendar month. The model follows the code: `Pipeline.OnlyFirstOfMonthResets` states that the sets are empty right after day 01 opens.

## Model

| member | source | states |
|---|---|---|
| `Calendar.NextDayOrdinal` | manager.py:81 | the day after a valid date is valid and has the next day number (leap years and month and year ends included) |
| `Calendar.OrdinalInjective` | manager.py:81 | two valid dates with the same day number are equal |
| `Calendar.OrdinalMonotone` | manager.py:79 | day numbers follow calendar order |
| `Calendar.AddDays` | manager.py:81 | `d + timedelta(days=n)` is a valid date exactly `n` day numbers later |
| `Calendar.AddDaysBetween` | manager.py:79-81 | adding `(end - start).days` to the start lands on the end |
| `Calendar.DaysBetweenSign` | manager.py:79 | the day difference is negative exactly when the end precedes the start, and zero exactly when they are equal |
| `Names.ParseDecimalString` | manager.py:83 | `str(n)` is a digit string that reads back as `n` |
| `Names.DecimalStringInjective` | manager.py:83 | distinct numbers render differently |
| `Names.ParseZFill2` | manager.py:83 | `str(n).zfill(2)` is a digit string that reads back as `n` |
| `Names.SliceTo` | manager.py:47 | `s[:n]` is a prefix of `s` of length `min(n, len(s))` |
| `Names.DropLast` | manager.py:24 | for `n >= 1`, `s[:-n]` is a prefix of `s`, `n` shorter (empty when `s` is shorter); `s[:-0]` is left out, since Python makes it empty |
| `Names.BucketNameSlices` | manager.py:47 | for a four-digit year, `date[:10]` of a bucket name is its day name and `date[11:]` is `str(hour)` |
| `Names.HourZeroDropLast` | manager.py:24 | `last_hour[:-2]` of the hour-0 name of a day is that day's name |
| `Names.HourTests` | manager.py:48-57 | `str(h) == '23'` holds only for hour 23, and `str(h) == '0'` only for hour 0 |
| `Names.FirstOfMonthTest` | manager.py:50 | `day[-2:] == '01'` holds exactly on the first day of a month |
| `Names.DayNameFields` | manager.py:83 | a day name holds the year, the padded month and the padded day at fixed positions |
| `Names.DayNameInjective` | manager.py:83 | distinct days of four-digit years have distinct names |
| `Names.BucketNameInjective` | manager.py:83 | distinct buckets of four-digit years have distinct names |
| `Planner.DatesToDownload` | manager.py:75-85 | the nested appending loops and the in-place reversal return exactly the planned names |
| `Planner.ReversedForwardIsPlanned` | manager.py:84 | reversing the appended list gives the planned buckets, newest first |
| `Planner.PlannedLength` | manager.py:79-83 | the list has 24 buckets per day, `24 * (delta.days + 1)`, and is empty exactly when the end precedes the start |
| `Planner.PlannedDescending` | manager.py:83-84 | the list is in strictly descending calendar-hour order |
| `Planner.PlannedEnds` | manager.py:83-84 | the first bucket is hour 23 of the end date and the last is hour 0 of the start date |
| `Planner.PlannedCoverage` | manager.py:80-83 | a bucket is planned if and only if its day lies in the range and its hour is in 0..23 |
| `Planner.PlannedDistinct` | manager.py:80-83 | no bucket is planned twice |
| `Planner.PlannedNamesDistinct` | manager.py:80-83 | with four-digit years, no name is planned twice |
| `Planner.PlannedYears` | manager.py:80-81 | every planned day lies between start and end, so it has a four-digit year when they do |
| `Planner.NewManager` | manager.py:14-24 | an invalid date is a `ValueError`; a reversed range is an `IndexError` at `[-1]`; otherwise the planned names, `last_hour` = hour 0 of the start date and `last_day` = the start day's name |
| `Storage.DownloadProvides` | manager.py:88-96 | after a download the bucket is there in one of its two forms; an existing `.json` means nothing changes |
| `Storage.DecompressResult` | manager.py:99-107 | decompressing succeeds exactly when `.json` or `.json.gz` is present, leaves `.json`, and removes the archive only when it had to decompress |
| `Storage.DownloadThenDecompress` | manager.py:88-107 | after a download, the existence checks of the decompress step never meet a missing archive, and `.json` is there afterwards |
| `Storage.WithoutDayCsvsKeepsOthers` | manager.py:115-116 | `rm *-<day>.csv` removes the day's own CSV files, and keeps another day's CSV files (equal-length day names) and every `.json`/`.json.gz` bucket file |
| `Storage.DataDir.DownloadJson` | manager.py:88-96 | the directory gains `<date>.json.gz` unless `<date>.json` exists |
| `Storage.DataDir.DecompressJson` | manager.py:99-107 | a no-op when `.json` exists; otherwise it fails without changes when the archive is missing, or creates `.json` and then removes `.json.gz`, so one of the two exists throughout |
| `Storage.DataDir.RemoveJson` | manager.py:110-112 | `<date>.json` is removed, and the call fails when it was missing |
| `Storage.DataDir.RemoveInsertedCsvs` | manager.py:115-116 | the directory loses exactly the day's CSV files |
| `Pipeline.NonEmptyPrefix` | manager.py:30 | `while date := next(it, None)` visits the items before the first empty one, in order |
| `Pipeline.RunDownload` | manager.py:29-32 | every bucket before the first empty name is downloaded and queued in order |
| `Pipeline.RunDecompress` | manager.py:34-39 | buckets are decompressed and queued up to `last_hour`; a bucket with neither file stops the stage and is not queued |
| `Pipeline.ThroughWhole` | manager.py:35-39 | a stop loop takes a whole list of non-empty names whose only `last` is its final item |
| `Pipeline.DownloadThenDecompressAll` | manager.py:29-37 | after the download stage, the existence checks of the decompress stage never meet a missing archive |
| `Pipeline.Open` | manager.py:48-51 | hour 23 opens new writers and, on a first of month, empties the four seen-sets; other hours change nothing |
| `Pipeline.OpenBucket` | manager.py:47-51 | the head of the write loop's body leaves the converter in the state `Open` gives |
| `Pipeline.WriteBucket` | manager.py:46-61 | one pass writes the bucket's events into the opened converter, and hands on the day with its rows exactly at hour 0 |
| `Pipeline.WriteLoopSummary` | manager.py:46-61 | the days handed on and the count of buckets written depend on the names alone |
| `Pipeline.RunWriteCsvs` | manager.py:41-61 | the loop's converter, handed-on days and count equal the write-loop specification |
| `Pipeline.RunSetsGrow` | json_to_csv_converter.py:22-33 | writing a bucket only adds to the seen-sets |
| `Pipeline.OnlyFirstOfMonthResets` | manager.py:48-51 | the seen-sets shrink only at hour 23 of a first of month, and are then emptied before the bucket is written |
| `Pipeline.PlannedPosition` | manager.py:47-60 | at each position of a planned list, the name's day, its opening, closing and resetting agree with its bucket, and only the last position is `last_hour` |
| `Pipeline.PlannedRotation` | manager.py:47-57 | over a planned list writers open exactly at hour 23, reset exactly at hour 23 of a first of month, and close exactly at hour 0 |
| `Pipeline.PlannedStartsOpen` | manager.py:45-49 | the first planned bucket opens a day, so the converter gets writers before its first write |
| `Pipeline.PlannedHandoffs` | manager.py:46-61 | over a planned list every day of the range is handed on exactly once, newest first, and every bucket is written |
| `Pipeline.PlannedHanded` | manager.py:46-61 | the days read off a planned list are the days of the range newest first, and every name is processed |
| `Pipeline.PlannedDecompressTakesAll` | manager.py:34-39 | the decompress stage takes the whole planned list up to and including `last_hour` |
| `Pipeline.DaysNewestFirstDistinct` | manager.py:72-73 | distinct days of the range have distinct names, so `last_day` is met only at the end |
| `Pipeline.RunCopyIntoDatabase` | manager.py:66-73 | handed-on days are loaded and their CSVs removed, up to `last_day`; a load that raises stops the stage before that day's files are removed |
| `Pipeline.PlannedCopyTakesAll` | manager.py:66-73 | the copy stage takes every day handed on from a planned list |
| `Pipeline.ThroughEmpty` | manager.py:67 | the stop loop takes nothing exactly when the first item is missing or falsy, and otherwise starts with it |
| `Pipeline.RunCopyAsWritten` | manager.py:66-73 | as written, the copy stage loads and removes nothing; it ends aborted exactly when a day was handed on, because the call at line 70 raises |
| `Rotation.HandoffsAll` | manager.py:46-61 | over a queue of 24-bucket days whose hour-0 items close them and whose last item is `last_hour`, the loop hands on every day in queue order and processes every item |
| `Events.KnownTagsAreDispatched` | json_to_csv_converter.py:27-64 | exactly the fifteen known tags reach a handler |
| `Rows.Cut` | json_to_csv_converter.py:202 | `s[:n]` is a prefix of `s` of at most `n` characters, the whole string when it is short enough |
| `Rows.CutIfTruthy` | json_to_csv_converter.py:164 | a missing or empty (falsy) value stays `None`; otherwise it is cut to a prefix of at most `n` characters (127 for `ref`) |
| `Rows.GenericEventTuple` | json_to_csv_converter.py:245-250 | the ten event-log fields come from the envelope and the payload id; org id and login are `None` exactly when `org` is absent |
| `Rows.ReactionsTuple` | json_to_csv_converter.py:238-243 | nine columns: total, +1, -1, laugh, hooray, confused, heart, rocket and eyes, each at its position, when reactions are present; nine `None`s otherwise |
| `Rows.IssueEventTuple` | json_to_csv_converter.py:139-151 | the issue row carries the action, issue id and user, and nine reaction columns that are all `None` exactly without reactions |
| `Rows.PullRequestTuple` | json_to_csv_converter.py:80-86 | the row carries the PR id and action, and the reviewer and team renderings are cut to prefixes of at most 255 characters |
| `Rows.CommitTuple` | json_to_csv_converter.py:224-226 | the commit row carries sha and push id, with author email and name cut to prefixes of at most 127 characters |
| `Rows.GollumTuple` | json_to_csv_converter.py:201-202 | the page row carries the event id, with page name and title cut to prefixes of at most 255 characters |
| `Normalizer.Reset` | json_to_csv_converter.py:9-12 | the four seen-sets are empty and the writers are unchanged |
| `Normalizer.JSONToCSVConverter.constructor` | json_to_csv_converter.py:7-12 | the converter starts with the given writers and four empty seen-sets |
| `Normalizer.JSONToCSVConverter.ResetAddedSets` | manager.py:51 | clears the four seen-sets and keeps the writers |
| `Normalizer.JSONToCSVConverter.SetWriters` | manager.py:49 | replaces the writers and keeps the seen-sets |
| `Normalizer.JSONToCSVConverter.WriteEvents` | json_to_csv_converter.py:14-64 | the loop over the reversed lines leaves the converter in the state `Run` specifies |
| `Normalizer.JSONToCSVConverter.WritePullRequestTuple` | json_to_csv_converter.py:66-86 | the PR row is written and its id recorded only for an unseen PR id |
| `Normalizer.JSONToCSVConverter.WritePullRequestReviewCommentEvent` | json_to_csv_converter.py:88-105 | event-log row with the comment id, review-comment row, then the PR row on first sight |
| `Normalizer.JSONToCSVConverter.WritePullRequestReviewEvent` | json_to_csv_converter.py:107-116 | event-log row with the review id, review row, then the PR row on first sight |
| `Normalizer.JSONToCSVConverter.WritePullRequestEvent` | json_to_csv_converter.py:118-122 | event-log row with the PR id, then the PR row on first sight |
| `Normalizer.JSONToCSVConverter.WriteIssueCommentEvent` | json_to_csv_converter.py:124-137 | event-log row with the comment id, the issue row on first sight, and always the issue-comment row |
| `Normalizer.JSONToCSVConverter.WriteIssuesEvent` | json_to_csv_converter.py:153-159 | event-log row with the issue id, and the issue row on first sight |
| `Normalizer.JSONToCSVConverter.WriteCreateEvent` | json_to_csv_converter.py:161-167 | event-log row without payload id, and the create row with `ref` cut when truthy and the master branch cut to 127 |
| `Normalizer.JSONToCSVConverter.WriteForkEvent` | json_to_csv_converter.py:169-187 | event-log row with the forkee id, and the fork row |
| `Normalizer.JSONToCSVConverter.WriteMemberEvent` | json_to_csv_converter.py:189-195 | event-log row without payload id, and the member row |
| `Normalizer.JSONToCSVConverter.WriteGollumEvent` | json_to_csv_converter.py:197-202 | event-log row without payload id, and one page row per page in order |
| `Normalizer.JSONToCSVConverter.WriteDeleteEvent` | json_to_csv_converter.py:204-208 | event-log row without payload id, and the delete row with `ref` cut to 255 |
| `Normalizer.JSONToCSVConverter.WriteReleaseEvent` | json_to_csv_converter.py:210-216 | event-log row with the release id, and the release row |
| `Normalizer.JSONToCSVConverter.WritePushEvent` | json_to_csv_converter.py:218-226 | event-log row with the push id, the push row, and one commit row per commit in order |
| `Normalizer.JSONToCSVConverter.WriteCommitCommentEvent` | json_to_csv_converter.py:228-233 | event-log row with the comment id, and the commit-comment row |
| `Normalizer.JSONToCSVConverter.WriteGenericEvent` | json_to_csv_converter.py:235-236 | the event-log row alone, without payload id |
| `Dedup.MalformedLineIsSkipped` | json_to_csv_converter.py:16-20 | a line whose envelope fails schema validation changes nothing, rows and seen-sets alike |
| `Dedup.DuplicateEventIsSkipped` | json_to_csv_converter.py:22-23 | an event whose id is recorded changes nothing |
| `Dedup.UnknownTypeOnlyRecordsId` | json_to_csv_converter.py:22-64 | a new event of an unknown type records its id and writes no row |
| `Dedup.DuplicatePushWritesNothing` | json_to_csv_converter.py:28-31 | a new push event of a seen push group records its event id and writes no row |
| `Dedup.NewPushRows` | json_to_csv_converter.py:28-34 | a new push group adds one event-log row, one push row and one commit row per commit, in order, and records the push id |
| `Dedup.OneLogRowPerEvent` | json_to_csv_converter.py:27-64 | each processed event of a known kind (except a repeated push group) adds exactly one event-log row; Watch, Public, Create, Delete, Member and Gollum rows carry no payload id |
| `Dedup.GollumRowPerPage` | json_to_csv_converter.py:197-202 | a Gollum event adds one page row per page, in page order |
| `Dedup.IssueStep` | json_to_csv_converter.py:124-159 | Issues and IssueComment events share one issue set: the issue row is added only for a new issue id, and the comment row always |
| `Dedup.PullRequestStep` | json_to_csv_converter.py:66-122 | the three PR kinds share one PR set: the PR row is added only for a new PR id, and review and review-comment rows always |
| `Dedup.PushStep` | json_to_csv_converter.py:28-34 | a push row is added, and its id recorded, only for a new push group |
| `Dedup.StepIds` | json_to_csv_converter.py:22-25 | every line whose envelope decodes has its id recorded, even for an unknown type |
| `Dedup.RunAppend` | json_to_csv_converter.py:15 | processing `a + b` processes the later lines `b` first, then `a` |
| `Dedup.RunIds` | json_to_csv_converter.py:15-25 | after a bucket the seen ids are the old ones plus every decodable id of the bucket |
| `Dedup.LogRowAtMostOnce` | json_to_csv_converter.py:22-25 | each event id yields at most one event-log row per bucket, and none once recorded |
| `Dedup.IssueRowAtMostOnce` | json_to_csv_converter.py:132-134 | each issue id yields at most one issue row between resets, and none once recorded |
| `Dedup.NewestIssueWins` | json_to_csv_converter.py:153-159 | with the reversed traversal, the issue row kept for an id comes from the line latest in the file that carries it |
| `Dedup.PullRequestRowAtMostOnce` | json_to_csv_converter.py:66-70 | each PR id yields at most one PR row between resets, and none once recorded |
| `Dedup.NewestPullRequestWins` | json_to_csv_converter.py:66-70 | the PR row kept for an id comes from the latest line that carries that PR, whatever its kind |
| `Dedup.PushRowAtMostOnce` | json_to_csv_converter.py:28-34 | each push group yields at most one push row between resets, and none once recorded |
| `Loader.CsvTablesExact` | database_link.py:31-33 | a table is listed if and only if `<table>.csv` is in the directory |
| `Loader.CsvTablesAppend` | database_link.py:31-33 | the listing order is kept: the tables of two listings in a row are the tables of each, in a row |
| `Loader.CsvEntry` | database_link.py:33 | an entry ends in `.csv` and strips to `t` exactly when it is `t + ".csv"` |
| `Loader.StripNulls` | database_link.py:44 | the strip leaves no 0x00 byte and never lengthens the file |
| `Loader.StripNullsCounts` | database_link.py:44 | every byte other than 0x00 is kept as often as it occurs |
| `Loader.StripNullsAppend` | database_link.py:44 | the strip distributes over concatenation, so the kept bytes stay in order |
| `Loader.StripNullsUnchanged` | database_link.py:44 | the strip leaves a file unchanged if and only if it has no null byte |
| `Loader.StripNullsIdempotent` | database_link.py:44 | stripping twice is stripping once |
| `Loader.Sanitized` | database_link.py:44 | the strip changes no file name |
| `Loader.LoadTableShape` | database_link.py:39-46 | one table's steps follow the protocol, start with its copy and, on failure, end with a copy of it that did not go through |
| `Loader.LoadTableCounts` | database_link.py:39-46 | one table is committed only when it loaded; it is copied twice only after an illegal character, and only then is its file stripped |
| `Loader.LoadCommitsInOrder` | database_link.py:36-46 | commits follow listing order and form a prefix of the tables; all are committed if and only if the load completes; after an abort, the next table in line is the one that failed |
| `Loader.LoadKeepsProtocol` | database_link.py:39-46 | every commit comes right after a copy of its table that went through; every rollback comes right after an illegal character and is followed by the strip of that table and one more copy of it |
| `Loader.LoadAbortsOnFailure` | database_link.py:39-46 | an aborted load ends with a copy of the failing table that did not go through |
| `Loader.LoadCopyCount` | database_link.py:36-45 | each table is copied at most twice per listing; a completed load copied every listed table at least once |
| `Loader.LoadStripsListed` | database_link.py:36-44 | only listed tables have their files stripped |
| `Loader.LoadStripsOnly` | database_link.py:41-44 | the load changes no file except by the strip: each file afterwards is stripped if its table hit an illegal character, and unchanged otherwise |
| `Loader.DatabaseLink.LoadOne` | database_link.py:37-46 | one pass of the loop body takes the steps, and leaves the files, that the one-table specification gives |
| `Loader.DatabaseLink.InsertCsvsIntoDb` | database_link.py:35-46 | the loop over `get_csv_files()` returns the outcome, appends the steps and leaves the files that the load specification gives |

## Left out

- Threads and the bounded queues (manager.py:25-27): the four stages run one after the other over the same list. A blocking `get` on a drained queue is modelled as the end of the list; queue capacity and interleaving are not modelled.
- Network, gzip and file contents of the download and decompress stages: the data directory is a set of file names. The contents of `<date>.json` are a function from bucket names to decoded lines.
- `Storage.DownloadThenDecompress` and `Pipeline.DownloadThenDecompressAll`: they assume every `.json.gz` that exists decompresses. The source can fail here:
  - manager.py:94-96 writes the response body without a status check, so an HTTP error page becomes the archive;
  - manager.py:105 opens `.json` for writing before `compressed.read()` raises on a bad archive, so an empty `.json` is left beside the archive;
  - on a re-run, the early returns at manager.py:90 and :101-102 then skip that hour, and it is silently empty.
  That failure path is not modelled.
- JSON decoding (msgspec, orjson) and the `json_objects` and `csv_writers` modules: events arrive decoded. A line without an envelope stands for a line that is JSON but fails schema validation (`msgspec.ValidationError`, the only exception caught at json_to_csv_converter.py:18). A line that is not JSON at all raises the base `msgspec.DecodeError`, which is not caught, so `write_events` crashes on it. Such lines are not in the model: every line is either envelope-valid or a validation failure. A failing per-type decode is also an unhandled crash, so it is excluded by a precondition (`WellTyped`), not modelled as recoverable.
- Seven row datatypes keep only some of their table's columns. Each keeps the ids, the deduplication keys, the fields the source cuts with `[:n]`, and a few descriptive fields; the columns the converter copies through unchanged are dropped:
  - `Rows.ForkRow` (json_to_csv_converter.py:175-187): forkee id, name, owner id and login, and the three license fields; the repository flags, counters, timestamps and the rest are dropped.
  - `Rows.PullRequestRow` (json_to_csv_converter.py:80-86): PR id, action, number, state, title, user login and id, the two cut renderings and `merged`; the remaining PR fields are dropped.
  - `Rows.IssueRow` (json_to_csv_converter.py:146-151): 10 of the 33 columns. Kept: action, issue id, number, title, user login and id, state, body, the nine reactions (one field) and app. Dropped: user type, site_admin, labels, locked, assignee(s), milestone, comments, the three timestamps, author_association, active_lock_reason, draft, pull_request and state_reason.
  - `Rows.IssueCommentRow` (json_to_csv_converter.py:136-137): `updated_at` and `author_association` are dropped.
  - `Rows.ReleaseRow` (json_to_csv_converter.py:214-216): `prerelease`, `created_at`, `published_at` and `body` are dropped.
  - `Rows.ReviewRow` (json_to_csv_converter.py:113-116): user type, site_admin, `commit_id`, `submitted_at` and `author_association` are dropped.
  - `Rows.ReviewCommentRow` (json_to_csv_converter.py:92-103): `diff_hunk`, the positions, the commit ids, the timestamps, user type, site_admin, `author_association`, and the start, line and side fields are dropped.
  The event-log, push, commit, commit-comment, create, delete, gollum and member rows carry every column of their tuples. Writers are sequences of rows per table; CSV formatting and `close()` are not modelled.
- `create_tables` and `add_primary_keys` (database_link.py:23-29, manager.py:42-43, 63-64): SQL files executed once; they do not affect the loop logic.
- psycopg2 connection handling and `__exit__` (database_link.py:10-21): connecting, and the commit-and-close on leaving the `with` block, are not modelled. The copy is an oracle that answers for a table and its file's current contents. The model does not capture the database's own state beyond the steps logged.
- Logging calls throughout.
- `Pipeline.RunWriteCsvs`: requires the first bucket to open a day. The converter starts with `writers=None`, and writing before any hour-23 bucket would raise. Every planned list meets this (`Pipeline.PlannedStartsOpen`).
- `Pipeline.RunWriteCsvs`: `remove_json` after each bucket (manager.py:56) is modelled separately as `Storage.DataDir.RemoveJson`, not wired into the write stage.
- `Pipeline.RunCopyIntoDatabase`: whether a day's load goes through is a parameter (`loads`), instead of a call into `Loader.DatabaseLink.InsertCsvsIntoDb`. As written, the call at manager.py:70 passes an argument the method does not accept, and `Pipeline.RunCopyAsWritten` is the instance where every load raises.
- `Loader.DatabaseLink.InsertCsvsIntoDb`: the copy oracle is a function of table name and file contents, so a copy repeated on unchanged contents gets the same answer. A database whose answer changes between calls is not modelled.
- `Names.DayName`: years below 1000 render without padding, so `date[:10]` cuts into the hour. The slicing, injectivity and rotation results require four-digit years.
- Calendar limits: dates outside years 1 to 9999 are rejected as `datetime.date` rejects them (`ValueError` from `Planner.NewManager`). Within a valid range `AddDays` never passes the last representable date, so `OverflowError` is not modelled.
- `Normalizer.JSONToCSVConverter.ResetAddedSets`: `reset_added_sets` is called at manager.py:51, but `JSONToCSVConverter` (json_to_csv_converter.py:6-12) has no base class and defines no such method. As written, the call raises `AttributeError` at hour 23 of the first day 01 the write loop opens. The write thread ends there, so that day and every older day is never written or handed on. The model assumes instead that the call clears the four sets that lines 9-12 create and keeps the writers (`Normalizer.Reset`). `Pipeline.RunWriteCsvs`, `Pipeline.OnlyFirstOfMonthResets`, `Pipeline.PlannedHandoffs` and `Pipeline.PlannedHanded` hold for this assumed reset. On a range that contains a first of month they do not describe the code as written.

## Findings

| source | as written | input that shows it | evidently intended | confidence | as-written member | corrected member |
|---|---|---|---|---|---|---|
| manager.py:70 | `db.insert_csvs_into_db(day)` passes `day` to a method that takes only `self` (database_link.py:35) | any run whose write stage hands on a day: the first `get` yields a non-empty day, and the call raises `TypeError` | each handed-on day is loaded, its CSV files removed, up to `last_day` (`db.insert_csvs_into_db()`) | not executed | `Pipeline.RunCopyAsWritten` | `Pipeline.RunCopyIntoDatabase` |
