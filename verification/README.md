# gdrive-backup-agent in Dafny

A model of `app.js`, the one-script Google Drive backup agent. The script:

- announces the run on Slack;
- copies Google Drive with rclone into a folder `backup-DD-MMM-YYYY` of an S3 bucket;
- uploads the transfer's log into that folder;
- after a successful transfer, posts a report parsed from rclone's output and deletes every backup folder that has fallen out of the keep-range of `numDaysKept` days, announcing each deletion.

The model has five modules, one per file, plus `Wrappers` (an `Option` type):

- `RcloneOutput` (`rclone_output.dfy`) covers `parseRcloneOutput`, `lastHit` and `lastMatch`.
  - The six regular expressions are built from single-character atoms, greedy `+` and capture groups.
  - `Match` gives that fragment ECMAScript's backtracking semantics.
  - `Exec` is `RegExp.prototype.exec` from a given `lastIndex`.
  - `MatchAll` is `String.prototype.match` with a global regex.
- `BackupNames` (`backup_names.dfy`) covers the folder name of line 35 and the strict `DD-MMM-YYYY` parse of line 101.
  - It also holds proleptic Gregorian day numbers and the inclusive keep-range of lines 106-110.
  - An instant is a date plus milliseconds since midnight.
- `ObjectStore` (`object_store.dfy`) is the bucket.
  - Its state is the keys in listing order, a tape of outcomes for the coming requests, and the log of requests received.
  - Each request consumes one outcome from the tape; `Some(e)` makes it fail.
  - The step functions give each request's effect. The class `Store` is the client object, and its methods are proved to perform exactly those steps.
- `BulkDelete` (`bulk_delete.dfy`) covers `deleteObjectsWithPrefix`.
  - `Deletion` specifies one call: every callback invocation in order, and the store afterwards.
  - `DeleteObjectsWithPrefix` is the recursive procedure, proved equal to `Deletion`.
- `BackupRun` (`backup_run.dfy`) covers the script's body.
  - `RunSpec` specifies the calls the script makes, as `Effect`s in the order they are issued, and the final store.
  - `Run`, `CleanUp`, `RemoveExpired`, `HandlePrefix` and `SendNotices` are the imperative script, each proved equal to its specification function.
  - The outcome of the rclone process and the two clock readings are parameters.

Some behaviours follow the code where a plain reading of the script suggests something else:

- **Average rate.** The rate pattern needs `\w+` directly after the two-letter unit (as in rclone's `GBytes`). A line such as `Transferred: 1.234 GB (2.0 MB/s)` therefore does not match, and the average rate is then exactly `"/s"`.
- **Boundary day.** moment-range's `contains` is inclusive, and the lower bound keeps the current time of day. A backup exactly `numDaysKept` days old is therefore kept only when the run happens at midnight exactly (`Kept`, `BoundaryExample`).
- **Empty page.** At lines 175-177 the callback is invoked for an empty page without a `return`. The call then sends an empty `deleteObjects` batch and invokes the callback a second time. The model keeps this, and announces such a deletion twice when the empty batch succeeds (`EmptyPrefixCallsBackTwice`, `FaultFreeExpiredAnnounced`).
- **Report text.** The report starts with the three characters that the UTF-8 bytes of a check mark become when read as Windows-1252, as they stand in the source file.

## Model

| member | source | states |
|---|---|---|
| RcloneOutput.Match | app.js:141-146 | a match of the pattern fragment at an index never runs past the end of the subject |
| RcloneOutput.Exec | app.js:155 | `exec` from `lastIndex` returns the leftmost index at which the pattern matches, with that match, or nothing when it matches nowhere from there |
| RcloneOutput.MatchAll | app.js:151 | the global `match` lists real matches in increasing, non-overlapping order, with no match before the first, none in the gap after each match and none after the last |
| RcloneOutput.LastHit | app.js:150-153 | `lastHit` is "" when the pattern matches nowhere; when a match exists, the result is the whole text of a match at some index q, of exactly that match's length, and no match starts at or after the point where `String.prototype.match` resumes after it |
| RcloneOutput.MatchShift | app.js:155 | matching is unaffected by dropping a prefix of the subject, up to the shift of indices |
| RcloneOutput.MatchTruncate | app.js:155 | cutting the subject short creates no new match and keeps every match that ends before the cut |
| RcloneOutput.ExecOnMatchedText | app.js:155 | running `exec` on the text of a match finds that same match at index 0 with the same captures |
| RcloneOutput.RematchedElement | app.js:156 | the last element of the `exec` array is the same read from the matched text as from the whole subject |
| RcloneOutput.LastHitRematched | app.js:150-157 | when the pattern occurs, `lastMatch` is the last element of the last match found by the global `match` |
| RcloneOutput.NoMatchGivesEmpty | app.js:154-157 | when the global `match` finds nothing, `lastMatch` is "" |
| RcloneOutput.LastMatchIsLastCapture | app.js:150-157 | `lastMatch` is total and equals the last capture of the last non-overlapping match, or "" when there is none |
| RcloneOutput.AbsentPatternGivesEmpty | app.js:150-157 | a pattern that matches at no index yields "" |
| RcloneOutput.LiteralMatch | app.js:141-146 | a literal in a pattern matches exactly where the subject spells it out, consuming its length and capturing nothing |
| RcloneOutput.ParseRcloneOutput | app.js:138-149 | the average rate always ends with "/s", even when the output holds no rate line |
| RcloneOutput.ParsedFieldsAreLastCaptures | app.js:138-149 | every field of the parsed statistics is the last capture of the last occurrence of its line, with "/s" appended to the average rate |
| RcloneOutput.MissingRateIsBareSuffix | app.js:142 | with no rate line in the output the average rate is exactly "/s" |
| BackupNames.Digits | app.js:35 | a zero-padded field has exactly the requested width, and every character is a decimal digit |
| BackupNames.ValueOfDigits | app.js:35 | reading back a zero-padded field gives the number written, when it fits the width |
| BackupNames.DigitsOfValue | app.js:101 | every string of digits is the zero-padded rendering of its value |
| BackupNames.MonthOf | app.js:101 | a three-letter month name is read to the month it abbreviates, and to nothing when it is not one of the twelve |
| BackupNames.MonthNamesDistinct | app.js:35 | the twelve abbreviations are pairwise different, so the month is recoverable from its name |
| BackupNames.FormatDate | app.js:35 | `DD-MMM-YYYY` is always eleven characters long |
| BackupNames.ParseDate | app.js:101 | a string is accepted only if it names a real calendar day and is exactly that day's `DD-MMM-YYYY` text |
| BackupNames.ParseBackupPrefix | app.js:101 | a prefix is read as a date only when it is the backup name of that date, with or without the trailing delimiter |
| BackupNames.ParseFormatRoundTrip | app.js:35 | parsing the formatted date gives back the date |
| BackupNames.BackupName | app.js:35 | the folder name is "backup-" followed by the eleven characters of the date |
| BackupNames.BackupNameRoundTrip | app.js:35 | a run's folder name, bare or as a listed common prefix, parses back to the run's date |
| BackupNames.YearStep | app.js:106-110 | consecutive years are one year length apart in day numbers, counting leap years by the Gregorian rule |
| BackupNames.YearsMonotone | app.js:106-110 | every day of an earlier year numbers below the first day of a later year |
| BackupNames.MonthsMonotone | app.js:106-110 | every day of an earlier month numbers below the first day of a later month of the same year |
| BackupNames.EndOfYear | app.js:106-110 | every day of a year numbers below the first day of the next year |
| BackupNames.DayNumberMonotone | app.js:106-110 | day numbers strictly follow calendar order |
| BackupNames.NextDay | app.js:106-110 | the day after a valid date is a valid date, later in the calendar |
| BackupNames.NextDayNumber | app.js:106-110 | consecutive calendar days get consecutive day numbers, across month and year ends |
| BackupNames.Kept | app.js:106-110 | a backup is in the keep-range iff it is younger than `numDaysKept` days, or exactly that old at midnight exactly |
| BackupNames.FutureBackupNotKept | app.js:106-110 | a backup dated after today is outside the keep-range |
| BackupNames.ParsedFolderIsBackup | app.js:101-104 | only a prefix starting with "backup-" is read as a date |
| BackupNames.IsDeletionCandidate | app.js:101-110 | every deletion candidate starts with "backup-", so `misc/` and other folders never are |
| BackupNames.OwnBackupKept | app.js:106-110 | with at least one day kept, the folder the run creates today is not a candidate today |
| BackupNames.RetentionExample | app.js:101-110 | at 09:00 on 20 January 2024 with seven days kept, the backup of 10 January is deleted, that of 15 January is kept, and `misc/` is left alone |
| BackupNames.TenDaysOld | app.js:106-110 | at 09:00 on 20 January 2024 with seven days kept, the backup of 10 January is a candidate |
| BackupNames.FiveDaysOld | app.js:106-110 | at 09:00 on 20 January 2024 with seven days kept, the backup of 15 January is not a candidate |
| BackupNames.NameExample | app.js:101 | the folder names of 10-19 January 2024, as listed, parse to those dates |
| BackupNames.JanuaryName | app.js:35 | the dates of 10-19 January 2024 are formatted as their two day digits followed by "-Jan-2024" |
| BackupNames.BoundaryExample | app.js:106-110 | a backup exactly seven days old is deleted at 09:00 and kept at midnight |
| ObjectStore.Without | app.js:191 | deleting a batch never makes the bucket larger |
| ObjectStore.ListPage | app.js:164-168 | a listing page is the start of the keys under the prefix, at most 1000 of them; it is truncated exactly when more than 1000 keys are under the prefix, and otherwise lists them all |
| ObjectStore.Folder | app.js:87-91 | a key's folder is the part of the key up to its first "/", and a key without "/" has none |
| ObjectStore.CommonPrefixes | app.js:87-91 | the common prefixes are exactly the folders of the bucket's keys, each listed once |
| ObjectStore.UnderMembers | app.js:164-168 | a key is under a prefix iff it is in the bucket and starts with the prefix |
| ObjectStore.OutsideMembers | app.js:164-168 | a key is outside a prefix iff it is in the bucket and does not start with the prefix |
| ObjectStore.WithoutMembers | app.js:191 | after a successful batch deletion, a key remains iff it was there and is not in the batch |
| ObjectStore.ListPageMembers | app.js:164-168 | a listed page holds only bucket keys under the prefix |
| ObjectStore.UnderDistinct | app.js:164-168 | listing keeps keys unique |
| ObjectStore.WithoutDistinct | app.js:191 | deleting keeps keys unique |
| ObjectStore.UnderWithout | app.js:186-191 | deleting a batch and then listing a prefix is listing it and then removing the batch |
| ObjectStore.OutsideWithout | app.js:186-191 | a batch of keys under a prefix leaves every key outside it untouched |
| ObjectStore.WithoutLeading | app.js:186-191 | deleting the first page of unique keys leaves exactly the keys after it |
| ObjectStore.PutStep | app.js:57-61 | an upload removes no key, adds at most its own, stores it when the request succeeds, changes nothing when it fails, and keeps keys unique |
| ObjectStore.ListTopStep | app.js:87-91 | a successful top-level listing returns exactly the folders of the bucket's keys; the bucket is unchanged |
| ObjectStore.ListStep | app.js:164-168 | a successful listing returns at most 1000 keys, all in the bucket and under the prefix; it is truncated exactly when more than 1000 keys are under the prefix, and otherwise lists them all; the bucket is unchanged |
| ObjectStore.DeleteStep | app.js:186-191 | a failed batch deletion changes nothing; after a successful one a key remains iff it was there and is not in the batch |
| ObjectStore.Store.constructor | app.js:26 | a fresh client sees the given bucket and has sent no request |
| ObjectStore.Store.PutObject | app.js:57-68 | `putObject` stores the key unless the request fails, and is logged |
| ObjectStore.Store.ListTopLevel | app.js:87-91 | `listObjectsV2` with a "/" delimiter returns the common prefixes or the failure, and changes no key |
| ObjectStore.Store.ListObjects | app.js:164-168 | `listObjects` returns the first page under the prefix or the failure, and changes no key |
| ObjectStore.Store.DeleteObjects | app.js:191 | `deleteObjects` removes the batch unless the request fails |
| BulkDelete.TruncatedPageShrinks | app.js:201-203 | after a truncated page is deleted as a whole, fewer keys are under the prefix, so the recursion ends |
| BulkDelete.Deletion | app.js:161-211 | a call invokes its callback once or twice, and every invocation but the last reports success |
| BulkDelete.CollectKeys | app.js:179-188 | the batch holds the listed keys, in listing order |
| BulkDelete.DeleteObjectsWithPrefix | app.js:161-211 | the procedure invokes its callback and changes the bucket exactly as `Deletion` specifies |
| BulkDelete.DeletionStaysInPrefix | app.js:164-191 | a call sends at least one request, and each one lists the prefix with MaxKeys 1000 or deletes at most 1000 keys, all under the prefix |
| BulkDelete.DeletionKeepsOutside | app.js:186-191 | a call never removes a key outside the prefix and never adds a key |
| BulkDelete.DeletionEmptiesPrefix | app.js:200-206 | when the last callback reports success, no key is left under the prefix |
| BulkDelete.RoundListingFails | app.js:170-173 | a failed listing is passed to the callback once, and nothing is deleted |
| BulkDelete.RoundTape | app.js:164-191 | proof step, one unfolding of the definition: a round whose listing succeeds sends the listing and one batch, the listed page, and consumes two outcomes |
| BulkDelete.RoundEnds | app.js:175-206 | a round that fails to delete, or lists a page that is not truncated, ends the call; an empty page adds an early success callback |
| BulkDelete.RoundContinues | app.js:200-203 | proof step, one unfolding of the definition: after a truncated page is deleted, the call does exactly what a new call would |
| BulkDelete.DeletionConsumesTape | app.js:164-208 | every request a call sends consumes exactly one outcome |
| BulkDelete.DeletionStopsAtFailure | app.js:170-196 | every request before the last one of a call succeeded: any error ends the call |
| BulkDelete.DeletionReportsLastOutcome | app.js:170-206 | the last callback invocation carries the outcome of the last request sent, so errors reach the callback and success is reported only after success |
| BulkDelete.FaultFreeRound | app.js:164-191 | without failures, a round deletes the first 1000 keys under the prefix and leaves the rest |
| BulkDelete.FaultFreeContinues | app.js:200-206 | proof step, one unfolding of the definition: without failures, a call recurses exactly when more than 1000 keys are under the prefix |
| BulkDelete.FaultFreeFullRound | app.js:164-203 | without failures and with more than 1000 keys, the first round deletes the first 1000 and the call goes on from there |
| BulkDelete.FaultFreeLastRound | app.js:164-206 | without failures and with at most 1000 keys, the call sends one listing and one batch |
| BulkDelete.FaultFreeRequests | app.js:164-206 | without failures, a call sends one listing and one batch per 1000 keys under the prefix, in order |
| BulkDelete.FaultFreeCallbacks | app.js:175-206 | without failures, the callback is invoked once with success, or twice when the prefix holds no key |
| BulkDelete.FaultFreeDeletion | app.js:164-206 | without failures, a call leaves no key under the prefix and keeps keys unique |
| BulkDelete.EmptyPrefixCallsBackTwice | app.js:175-177 | an empty listing still leads to an empty batch, and the callback is invoked twice, first with success |
| BulkDelete.ThreeRoundsFor2500Keys | app.js:164-203 | 2500 keys take three rounds, with batches of 1000, 1000 and 500 |
| BackupRun.Notices | app.js:113-124 | every notice of a deletion names the deleted backup's date, and there are no more notices than callback invocations |
| BackupRun.ComposeLog | app.js:50-54 | the log ends with the stdout section followed by the stderr section, and starts with an ERROR section iff the transfer failed; after a successful transfer it is exactly those two sections |
| BackupRun.InterleaveSlot | app.js:77-79 | in fixed text interleaved with fields, each field stands verbatim at its start, after every piece and field before it |
| BackupRun.ReportText | app.js:77-79 | the report opens with the fixed lead, and the size, duration, average rate, errors, checks and object count each stand verbatim in it, in that order |
| BackupRun.Prologue | app.js:32-68 | the calls up to the upload start with the start notice and the transfer into the named folder, include the upload of the log, and include the alert iff the transfer failed |
| BackupRun.PrefixStep | app.js:101-126 | a folder causes calls iff it is an expired backup, and then the first is its deletion; any other folder leaves the bucket as it is |
| BackupRun.RetentionPass | app.js:99-130 | a retention pass makes deletions and deletion notices only |
| BackupRun.Cleanup | app.js:86-132 | the clean-up starts with the top-level listing and never sends the alert |
| BackupRun.RunSpec | app.js:32-134 | a run announces itself, runs the transfer into today's folder, always uploads the log, and sends the alert iff the transfer failed |
| BackupRun.SendNotices | app.js:115-122 | sends one notice per callback invocation without an error, in order |
| BackupRun.HandlePrefix | app.js:101-126 | one top-level folder is handled, and the bucket changed, as `PrefixStep` specifies |
| BackupRun.RemoveExpired | app.js:99-130 | the listed folders are handled in listing order, as `RetentionPass` specifies |
| BackupRun.CleanUp | app.js:86-132 | the top-level listing and the retention pass run as `Cleanup` specifies |
| BackupRun.Run | app.js:32-134 | the script makes its calls, and changes the bucket, as `RunSpec` specifies |
| BackupRun.LogLayout | app.js:50-54 | the ERROR section of a failed transfer is followed by the log of a successful transfer with the same output, and the log always ends with stderr |
| BackupRun.FailedTransferRun | app.js:40-73 | a failed transfer gives the start notice, the transfer, one alert and the log upload, and nothing else; the bucket sees only the upload |
| BackupRun.SuccessfulRunShape | app.js:71-91 | after a successful transfer, the run is the start notice, the transfer, the upload, the report and then the clean-up |
| BackupRun.SuccessfulTransferRun | app.js:75-91 | after a successful transfer, the first five calls are the start notice, the transfer, the upload, the report and the top-level listing |
| BackupRun.ListingFailureRun | app.js:93-96 | a failed top-level listing ends the run after the listing, with no deletion and no notice, and removes no key |
| BackupRun.CleanupListingFails | app.js:93-96 | a failed top-level listing ends the clean-up after the listing request, with no key changed |
| BackupRun.NoticesAreNotDeletions | app.js:115-122 | deletion notices start no deletion |
| BackupRun.Candidates | app.js:99-113 | the folders selected for deletion are exactly the listed folders that are deletion candidates |
| BackupRun.PassDeletesCandidates | app.js:99-113 | the pass starts exactly one deletion per expired backup folder, in listing order, whatever happened to earlier deletions |
| BackupRun.NoticesCount | app.js:113-124 | there is exactly one notice per callback invocation without an error |
| BackupRun.ExpiredShape | app.js:110-124 | proof step, one unfolding of the definition: an expired folder gets its deletion call, followed by the notices for its successful callback invocations |
| BackupRun.ExpiredBackupNotices | app.js:113-124 | after an expired folder's deletion call come only notices naming its date, one per successful callback invocation |
| BackupRun.ExpiredBackupAnnounced | app.js:113-124 | a deletion whose last callback reports success is announced, and one that fails with its only callback is not |
| BackupRun.NoticeNamesFolder | app.js:117-120 | the deletion notice's text names the date exactly as the deleted folder's name spells it |
| BackupRun.PrefixStepKeeps | app.js:101-124 | handling one folder adds no key and removes only keys under that folder, when it is an expired backup |
| BackupRun.PassKeepsOthers | app.js:99-130 | a retention pass adds no key, and every key under none of the expired folders survives, whatever requests fail |
| BackupRun.PrefixStepFaultFree | app.js:110-124 | without failures, an expired folder is emptied and keys stay unique |
| BackupRun.PassFaultFree | app.js:99-130 | without failures, a pass leaves no key under any expired backup folder |
| BackupRun.FaultFreeExpiredAnnounced | app.js:113-124 | without failures, an expired backup is deleted and announced once, or twice when its folder held no key |
| BackupRun.RunState | app.js:57-73 | proof step, one unfolding of the definition: the bucket after a run is the one after the log upload, followed by the clean-up only when the transfer succeeded |
| BackupRun.CleanupKeepsOthers | app.js:86-130 | the clean-up adds no key and removes only keys starting with "backup-" |
| BackupRun.RunDeletesOnlyBackups | app.js:32-134 | starting from the bucket as the rclone copy left it, a run removes only keys starting with "backup-", so `misc/` survives, and the only key the script itself adds is its log |

## Left out

- The rclone subprocess and its shell command line (line 38): the process's error, stdout and stderr are an input `Transfer`.
- The AWS SDK client and credential loading (lines 10-13, 26): the bucket is the abstract `StoreState` and the `Store` class. Which requests fail is decided by the outcome tape; the failure itself is an opaque `StoreError`.
- Slack configuration and delivery (line 29), and `console.log`: a Slack message is an `Effect` in the trace, and console output is not modelled.
- The power-off exit hook and loading `config.json` (lines 16-23): the configuration is the input `Config`.
- moment and moment-range: they are replaced by a strict `DD-MMM-YYYY` parser and integer day arithmetic. moment's lenient non-strict parsing, time zones and daylight-saving changes are not modelled. Dates are limited to years 0000 to 9999.
- The clock: the run's date and the instant of the retention pass are two parameters. The pass uses one instant for every folder, where the script reads the clock again for each folder.
- The general JavaScript regular-expression engine: only the fragment the six patterns use is modelled. The `lastIndex` state of a global regex appears as the `from` argument of `Exec` and `MatchAll`.
- `JSON.stringify(err, null, 4)`: the rendered error is an opaque string in `Transfer`.
- Asynchronous interleaving:
  - The trace orders calls by when they are issued.
  - Each deletion runs to its end before the next folder is handled.
  - A folder's deletion notices follow its deletion call.
  - The result of the log upload is ignored, as the script ignores it.
  - Concurrent writers to the bucket are not modelled.
- Top-level pagination: the top-level listing returns every common prefix in one response. The script never asks for a further page.
- Listing order: the bucket's keys are one fixed sequence that stands for S3's listing order.
- PutStep: a stored key is appended at the end of the sequence, while S3 lists keys in lexicographic order. Listings after an upload may therefore come in a different order than S3's.
- Keys written by rclone: the copy (line 38) writes into the same bucket, but `Exec` has no effect on the store. The starting `StoreState` of a run stands for the bucket as the copy left it.
- DeleteStep: a successful `deleteObjects` response can still list per-key `Errors`, which the script ignores. The model removes the whole batch on success. `TruncatedPageShrinks` and the termination of `Deletion` rely on this.
- Config: `numDaysKept` is a `nat`, so negative or fractional values in `config.json` are not modelled.
- Empty batch: `deleteObjects` with an empty batch succeeds or fails as the outcome tape says. S3's rejection of an empty `Delete.Objects` is not modelled.
