# Tarisya Core, modelled and proved

Tarisya Core collects metric samples from agents, keeps them in SQLite, thins them out as they age,
and guards its interface with API keys, password logins and a rate limiter. This project models the
parts of `internal/core` whose correctness spans many steps and proves what they promise:

- **Retention** (`Aggregates`, `Retention`, `Refinement`, `Schedule`, `Conservation`, `LateSamples`, `Ages`, `Ranges`).
  Samples roll up into 5-minute rows, those into hour rows, and hour rows expire. `Retention.MetricStore` does
  the steps on mutable tables; a run is a sequence of committed transactions, with any clock readings, any
  configuration per call, any crash, and saves, deletions and other calls between the three transactions of
  one maintenance call. On runs without late samples the three tables are shown to be a plain function of
  everything ever saved; with late samples it is shown exactly when that fails.
- **Charts and paging** (`Charts`, `Paging`). What clients read from those tables.
- **Rate limiting** (`RateLimiter`, `RateLimits`, `AnyOrder`, `Eviction`). A token bucket in exact integers, its
  admission law, for clock readings in any order too, and when its garbage collection is visible. Status 429 is section 4 of RFC 6585,
  Retry-After section 10.2.3 of RFC 9110.
- **Backup, restore and the lifecycle lock** (`Sidecar`, `Disk`, `Lifecycle`, `Backup`, `RestoreSteps`, `Restore`,
  `RestoreLaws`). A disk that records every state it goes through; a claim about all recorded states is a
  claim about a crash at any point. Sessions interleave under a shared or exclusive try-lock, and close their
  connections when the code does, which is mostly after they have released the lock.
- **Hash strings, passwords and API keys** (`HashString`, `Passwords`, `ApiKeys`).

`Wrappers` and `Sequences` hold shared types and list filtering. Check everything with
`dafny verify dfyconfig.toml`.

## Conventions

- Times are integers: milliseconds in tables, nanoseconds on clocks. SQLite's `/` truncates toward zero,
  Go's `Truncate` rounds down from the year 1; both are written out.
- Averages are exact reals and tokens exact integers (one token is 60e9 units, one nanosecond refills
  `requestsPerMinute` units). Rounding of floating point is not modelled.
- A call that can fail is a member of a set `faults`; the operation is proved for every such set.
- SHA-256, Argon2id, bcrypt and SQLite's own integrity check are arbitrary functions. A transaction is atomic.
- Closing the last connection to a database copies its log into the main file and removes `-wal` and `-shm`;
  it can be interrupted at any point. SQLite keeps these two names in place while a database is open, lets
  one connection checkpoint at a time, and leaves a file alone that has been put in place of its own.

## Where the code does less than it seems to

Each of these is proved with its exact condition.

- A sample that is older than the raw cutoff is accepted. The next roll-up then replaces its bucket's row
  (`LateSamples.LateSavesExact`, `LateSamples.LateSampleCanBeLost`).
- Check, backup, migration and a failed restore close their connections after they have released the lock,
  because deferred calls run backwards. Such a close can copy a log or remove sidecars while another session
  holds the lock exclusively (`Lifecycle.CloseAfterRelease`); it happens in some interleaving exactly for
  sessions that close without holding a lock (`Lifecycle.CloseOverlapsIff`). The content survives it at every
  step of a restore (`Restore.RestoreDatabase`).
- A restore checks a backup with the backup's own log, but copies its main file alone. A copied live database
  is restored without the writes in its `-wal`, and the restore reports success
  (`RestoreLaws.BackupLogDroppedIff`, `RestoreLaws.RestoreLoggedBackup`).
- A database that lies under the name of the output's checksum file, such as `/b.sha256` backed up to `/b`, is
  deleted when that backup fails (`Backup.SourceKeptIff`, `Backup.SourceIsDeleted`).
- A restore that is given the name of a checksum file which does not exist goes ahead without any check, as it does
  when it is given none and finds none (`Backup.ChecksumDecides`, `Restore.RestoreDatabase`).
- A client that idles for ten minutes gets a whole burst back, which is more than it earned when the burst
  exceeds ten minutes' worth of requests (`Eviction.EvictionInvisibleIff`).
- The comment at internal/core/database_admin.go:116 says that existing output files are never overwritten.
  That holds for the database file; but when only the checksum file existed, the failed backup deletes
  it (`Backup.FailedBackupLeavesNothingIff`, `Backup.LeftoverSidecarIsDeleted`).
- A backup whose name has white space or begins with `*` gets a checksum file that its own verification
  refuses (`Sidecar.SidecarAcceptedIff`, `RestoreLaws.BackupThenRestore`).
- A page that ends at Go's zero time sends the client back to the first page, and round for ever
  (`Paging.CursorProgressesIff`, `Paging.WalkEndsIff`, `Paging.ZeroTimeCursorRepeats`).
- A password that matched an outdated hash only by collision stops working when another login upgrades
  the hash (`Passwords.SecondMatchSurvivesIff`).
- A bootstrap with a new key gives a server a second active key (`ApiKeys.BootstrapKeepsOneKeyIff`, `ApiKeys.BootstrapCanAddSecondKey`).

## Model

| member | source | states |
|---|---|---|
| Aggregates.GroupOfUnion | internal/core/retention.go:59-60 | sums, minima, maxima and counts of two disjoint selections combine to those of their union, however the rows interleave |
| Aggregates.WeightedBack | internal/core/retention.go:79 | `avg * sample_count` recovers the sum that the average was computed from |
| Aggregates.RegroupIsDirect | internal/core/retention.go:71-89 | hour rows built from 5-minute rows by weighted averages equal hour rows built directly from the samples, for every list of samples, negative times included |
| Retention.MetricStore.SaveMetrics | internal/core/store.go:505-529 | refused when full, for an unknown server or by a database error, and then nothing changes; otherwise one new row, with the values and time that were sent and an id above all others |
| Retention.MetricStore.DeleteServer | internal/core/store.go:299-306 | deletes only for the owner; then exactly the rows of other servers are left in all three tables |
| Retention.MetricStore.TxDownsampleRaw | internal/core/retention.go:51-69 | upsert and delete take effect together or not at all, at any point of any run |
| Retention.MetricStore.TxDownsample5m | internal/core/retention.go:71-89 | the same, any time after the call's first transaction |
| Retention.MetricStore.TxExpire | internal/core/retention.go:42-44 | hour rows before the cutoff go, or nothing does, any time after the call's second transaction |
| Retention.MetricStore.MaintainAt | internal/core/retention.go:30-45 | an undisturbed call commits its transactions in order up to the one that fails; an invalid configuration changes nothing |
| Refinement.CutoffIsBucketStart | internal/core/retention.go:47-49 | the cutoff is the start, counted from the epoch, of the bucket that holds the instant |
| Refinement.CutoffsInOrder | internal/core/retention.go:34-42 | for a valid configuration the three cutoffs are bucket-aligned and ordered |
| Refinement.MaintainedRefines | internal/core/retention.go:30-45 | a maintenance call, complete or stopped anywhere, maps the view of a history to the view with raised cutoffs |
| Refinement.EventRefinesExactly | internal/core/retention.go:30-89 | any transaction in its call's order keeps the tables equal to the view of the history if and only if it is not a late save |
| Refinement.OnTimeRunsRefine | internal/core/retention.go:30-89 | after every on-time run, transactions of several calls, saves and deletions interleaved, the raw table is the recent history, `metrics_5m` and `metrics_1h` are the direct aggregates of the two older ranges |
| Refinement.StoreRefines | internal/core/retention.go:30-89 | the same for the fields of the mutable store |
| Refinement.CascadeRefines | migrations/000001_initial_schema.up.sql:33-71 | deleting a server turns the view of the history into the view of the history without that server |
| Schedule.CrashThenRerun | internal/core/retention.go:30-45 | from every state, a call that stopped after any transaction and is repeated gives the uninterrupted result; a complete call is idempotent |
| Schedule.EarlierRunAbsorbed | internal/core/retention.go:30-45 | a call at t1 and then one at t2 >= t1 leaves what the call at t2 alone leaves: from every state when the cutoffs of the first call lie after 1970, otherwise from every state without negative times |
| LateSamples.LateSamplesExact | internal/core/retention.go:51-89 | for every history, every list of late samples, in one bucket or many, and all cutoffs of the next call: the tables become those of the full history if and only if each late sample is carried as far as its age asks for and nobody was in its bucket there, or that bucket expires in the same call |
| LateSamples.MixedSavesExact | internal/core/retention.go:51-89 | the same for late and on-time samples inserted in any order |
| LateSamples.LateSavesExact | internal/core/retention.go:30-89 | the same over runs: any number of saves, late ones among them, then a call with any clock reading and any valid configuration |
| LateSamples.LaterCallReaches | internal/core/retention.go:34-42 | for cutoffs that have not gone back only the sample's bucket decides |
| LateSamples.LateSampleCanBeLost | internal/core/retention.go:61-67 | a concrete run in which two samples are accepted and one is left |
| Ages.CallAges | internal/core/retention.go:30-49 | after a complete call, from every state: a raw sample is left exactly while its 5-minute bucket is not over `raw` ago, a 5-minute row exactly while its hour is not over `five` ago, an hour row exactly while its hour is not over `aggregated` ago, told by the configuration and the clock alone |
| Ages.TiersByAge | internal/core/retention.go:30-89 | after every on-time run and such a call, whose ages have not gone back: every sample of the live history is in the tier of its age, and the three tables are exactly those tiers |
| Ages.MaintainByAge | internal/core/retention.go:30-45 | the same for the fields of the mutable store; refused exactly unless 0 < raw < five < aggregated, and then nothing changes |
| Conservation.WeightOfRegroup | internal/core/retention.go:78-81 | regrouping keeps each server's total of `sample_count` |
| Conservation.SamplesAreConserved | internal/core/retention.go:30-89 | in every run, late samples, crashes and interleaved calls included: accepted = raw rows + both tiers' `sample_count` + expired + overwritten, server by server |
| Conservation.OnTimeRunsOverwriteNothing | internal/core/retention.go:61-81 | on on-time runs no upsert meets an existing key, so the overwritten term is zero |
| Conservation.OverwriteIffClash | internal/core/retention.go:61-81 | an upsert loses samples exactly when it meets an existing key |
| Ranges.RowMeaning | internal/core/retention.go:58-60 | a row holds the mean, the attained minimum and maximum and the number of its samples |
| Ranges.UptimeMeaning | internal/core/retention.go:59 | `uptime_max` is the largest uptime of the group, and attained |
| Ranges.RowColumns | internal/core/retention.go:56-60 | column by column: each metric's mean, attained minimum and attained maximum stand in its own columns |
| Ranges.ValidateValues | internal/core/http.go:658-673 | accepts exactly four values of at least zero of which the three percentages are at most 100 |
| Ranges.RowsStayInRange | internal/core/http.go:658-673 | over all runs of validated payloads every row (its count is at least 1 by its type) has 0 <= min <= avg <= max, and max <= 100 for percentages |
| Charts.RawChart | internal/core/store.go:437-463 | refuses unknown buckets, otherwise returns the chart's points in order together with the statistics of the same samples |
| Charts.ChartIsExact | internal/core/store.go:442 | exactly one point per non-empty bucket, strictly ascending, each the aggregate of its bucket |
| Charts.ChartLength | internal/core/http.go:486-499 | at most duration / bucket + 1 points for each range of the API |
| Charts.ApiRanges | internal/core/http.go:486-499 | four ranges and no others: 15 minutes, 1, 6 and 24 hours back, with at most 61, 61, 73 and 97 points |
| Charts.PointColumns | internal/core/store.go:441-460 | each value of a point is the mean of its own metric over exactly the selected samples of its bucket, its uptime their largest, which is attained |
| Charts.StatisticsColumns | internal/core/store.go:488-498 | each metric's average and peak are its own mean and its own attained maximum, or zeros without samples |
| Charts.PointsAgreeWithStatistics | internal/core/store.go:488-498 | the count-weighted mean of the points is the reported average and no point exceeds the reported peak |
| Charts.ChartsDoNotSeeRetention | internal/core/http.go:454-499 | on on-time runs that keep a day of raw samples, charts and statistics are those of the never pruned history |
| Charts.RangesUseRawTable | internal/core/store.go:425-436 | which table the ranges of the API read, exactly, for two readings of the clock: raw samples until the first is thirty or the second seven days after the start |
| Paging.Limit | internal/core/http.go:621-630 | 100 without a limit, the number itself from 1 to 500, an error for everything else |
| Paging.MetricsHistory | internal/core/store.go:544-563 | returns the newest rows of the server before the cursor, newest first and among equal times the later saved first; every matching row that is not returned is older than all returned, and then the limit was reached |
| Paging.HistoryPage | internal/core/http.go:423-451 | the page, `has_more` and cursor that the remaining rows determine |
| Paging.RawIdsAscend | internal/core/store.go:522 | in every run the ids of the raw table ascend, so no two rows tie in (collected_at, id) |
| Paging.FilterSort | internal/core/store.go:545 | selecting rows before or after ordering them is the same |
| Paging.FollowIsPages | internal/core/http.go:412-451 | following cursors through the store is cutting the ordered rows into pages, as long as no page with a successor ends at the zero time |
| Paging.WalkEndsIff | internal/core/store.go:546-549 | on every table, following cursors comes to an end if and only if no page with a successor ends at the zero time |
| Paging.PagingIsExactUpToTies | internal/core/http.go:412-451 | on any reachable table whose walk ends: strictly descending, no repeats, and a row is missed exactly when it shares the time of some page's last row and sorts after it |
| Paging.DistinctTimesMissNothing | internal/core/http.go:412-451 | with distinct times the pages of a walk that ends, joined, are the server's whole history in order |
| Paging.CursorProgressesIff | internal/core/store.go:546-549 | the next page continues after this one exactly when the cursor is not Go's zero time |
| Paging.ZeroTimeCursorRepeats | internal/core/store.go:546-549 | a run of two saves after which, with pages of one, the next page is the first page again |
| RateLimiter.ClientRateLimiter.AllowAt | internal/core/rate_limit.go:41-76 | decision, delay and new state of one call, cleanup included, for any clock reading, early or late |
| RateLimiter.ClientRateLimiter.EvictIdle | internal/core/rate_limit.go:46-53 | removes exactly the clients not seen for ten minutes |
| RateLimiter.RateLimit | internal/core/rate_limit.go:78-89 | 429 with the rounded delay exactly when the call is rejected |
| RateLimits.LimiterInvariant | internal/core/rate_limit.go:41-76 | for clock readings in any order: tokens stay between 0 and burst, and admissions of a bucket's life are covered by burst plus refill |
| RateLimits.AdmissionsPerLife | internal/core/rate_limit.go:55-68 | the same for one client: admitted <= burst + rate * (updated - created) |
| RateLimits.UpdatedNeverDecreases | internal/core/rate_limit.go:60-64 | a bucket's refill time never moves back, whatever the clock does |
| RateLimits.EntriesAreRecent | internal/core/rate_limit.go:46-53 | with clocks going forward, every entry left was seen in the last fifteen minutes |
| RateLimits.WindowLaw | internal/core/rate_limit.go:55-75 | a call is allowed if and only if every window ending with it has at most burst + rate * length allowed calls |
| RateLimits.WindowBound | internal/core/rate_limit.go:55-75 | no window of calls admits more than burst + rate * length |
| RateLimits.RetryDelayIsExact | internal/core/rate_limit.go:66-75 | the delay is 1 to 60 seconds, enough, and above the minimum not a nanosecond too long; other clients and cleanup may come in between |
| RateLimits.HeaderCoversDelay | internal/core/rate_limit.go:82-83 | the header is never shorter than the delay and less than a second longer |
| AnyOrder.LateReading | internal/core/rate_limit.go:60-68 | a reading older than the bucket changes no token: the call gets the answer of a call at the bucket's own time, and is allowed exactly when a token is left |
| AnyOrder.LeftAfterCall | internal/core/rate_limit.go:46-53 | after a call, any other client is left, unchanged, unless the cleanup was due after five minutes and it was not seen for ten |
| AnyOrder.AllowedWithinBurst | internal/core/rate_limit.go:55-68 | for clock readings in any order: a client without a bucket, or whose bucket has admitted fewer calls than the burst, is allowed |
| AnyOrder.AnyOrderWindowLaw | internal/core/rate_limit.go:41-76 | the window law for readings in any order, other clients and cleanup included: within the life of its bucket a client's call is allowed if and only if every window of its calls has room, where a late reading counts as the latest so far |
| Eviction.EvictionInvisibleIff | internal/core/rate_limit.go:12-59 | the shared limiter answers as private, never evicted buckets would, on all ordered runs, if and only if burst <= 10 * requestsPerMinute |
| Eviction.ConfiguredEviction | internal/core/http.go:74-85 | unset limiters hide their cleanup; configured ones exactly when the burst is at most ten times the rate |
| Eviction.ClientsDoNotInterfere | internal/core/rate_limit.go:41-76 | under that condition a client's answer depends only on its own calls |
| Eviction.SharedWindowLaw | internal/core/rate_limit.go:41-76 | the window law for the shared limiter, other clients and cleanup included |
| Eviction.DrainIsAdmitted | internal/core/rate_limit.go:46-59 | otherwise a client that pauses for ten minutes is admitted a second full burst |
| Sidecar.HexRoundTrip | internal/core/database_admin.go:238-250 | decoding undoes hexadecimal encoding, which uses the digits 0-9 and a-f |
| Sidecar.HexDecodeIff | internal/core/database_admin.go:436-439 | decoding accepts exactly the spellings with two digits a byte, in upper or lower case |
| Sidecar.VerifiedIff | internal/core/database_admin.go:432-452 | a text is accepted if and only if its first word spells the digest in 64 digits and a second word, if there is one, names a file with the same base name |
| Sidecar.UsualLines | internal/core/database_admin.go:432-452 | the digest alone, with or without a line end, with the name, or with a starred name, in either case, is accepted for a plain name |
| Sidecar.SlashAtEnd | internal/core/database_admin.go:440 | slashes at the end of a path do not change its base name |
| Sidecar.SidecarAcceptedIff | internal/core/database_admin.go:423-452 | the checksum file of an unchanged backup is accepted exactly for names without white space and leading `*` (or of white space only) |
| Sidecar.AcceptedMeansSameDigest | internal/core/database_admin.go:443-451 | a checksum file is accepted only for a file with the recorded digest, under any name |
| Sidecar.NameWithSpaceIsRefused | internal/core/database_admin.go:440 | a concrete name that is refused |
| Disk.PartialCheckpointKeepsContent | internal/core/database_admin.go:367-373 | a checkpoint stopped after any number of frames has not changed the logical content |
| Disk.CloseConnections | internal/core/database_admin.go:315-319 | whatever connections close, and wherever a close is interrupted, in every state of the disk only the database's own files can change and its content does not |
| Disk.InertIff | internal/core/database_admin.go:405-412 | replaying a log leaves an image as it is exactly when the image has what the log last wrote to each page |
| Disk.SameReplayIff | internal/core/database_admin.go:405-412 | a log makes the same of two images exactly when they agree on all pages it does not write |
| Lifecycle.ExclusiveIsAlone | internal/core/database_lock.go:27-54 | in every interleaving an exclusive holder excludes all others |
| Lifecycle.NoForeignWrite | internal/core/database_admin.go:346-420 | between an exclusive lock and its release no other session changes the content or acquires |
| Lifecycle.SecondLockIsRefused | internal/core/database_lock.go:40-52 | a second lock beside an exclusive one can only be refused |
| Lifecycle.InterleavingIsSystem | internal/core/database_lock.go:27-62 | any interleaving of disciplined sessions is a run to which those facts apply |
| Lifecycle.CloseOverlapsIff | internal/core/database_lock.go:56-62 | for every session: some interleaving puts one of its closes under a foreign exclusive lock if and only if it closes while it holds no lock |
| Lifecycle.CloseAfterRelease | internal/core/database_admin.go:40-51 | the interleaving: a check releases, another session locks exclusively, and then the check closes |
| Lifecycle.StoreClosesUnderLock | internal/core/store.go:102-105 | a store, which closes first, never does, however much it writes |
| Lifecycle.OthersCanOverlap | internal/core/store.go:78-123 | check, migration and a failed opening can, whenever they opened a connection, an error of the lock call included |
| Lifecycle.Session.Acquire | internal/core/database_lock.go:27-54 | holds the lock exactly when the try-lock was granted, and logs the answer |
| Lifecycle.Session.Release | internal/core/database_lock.go:56-62 | holds nothing afterwards; harmless without a lock |
| Lifecycle.OpenStore | internal/core/store.go:78-100 | keeps the shared lock exactly on success; every failure releases first and closes second |
| Lifecycle.CloseStore | internal/core/store.go:102-105 | closes the connection and then releases the shared lock |
| Lifecycle.CheckDatabase | internal/core/database_admin.go:35-52 | never changes the content, holds no lock afterwards on any path, and closes after the release |
| Lifecycle.RunMigration | internal/core/store.go:108-123 | changes the content only while no other session holds a lock, in every run of the system; in use exactly when refused; releases on every path, and closes after the release |
| Lifecycle.MigrationWorksAlone | internal/core/store.go:113-122 | in no run of the system does a migration lock, write or release while another session holds a lock: it is refused then; it writes exactly when it was granted its lock and no earlier call failed |
| Backup.BackupDatabase | internal/core/database_admin.go:125-219 | for every set of failing calls: where it stops, a lock that is refused included, what files it leaves, and that at every moment, the late close included, the source's content is what it was unless the source lies under the checksum's name, and an existing output is what it was unless it is one of the source's own files |
| Backup.BackupLocked | internal/core/database_admin.go:151-218 | when the output name is taken, not one state of the disk differs |
| Backup.BackupVerifiesIff | internal/core/database_admin.go:182-218 | a successful backup holds the source's content, log included, leaves that content as it was, and verifies exactly for plain names, whatever connections close then |
| Backup.StopIgnoresCloses | internal/core/database_admin.go:151-170 | connections that close before a backup make no difference to where it stops |
| Backup.BackupCanOverlap | internal/core/database_admin.go:139-150 | a backup with its own lock can close beside a foreign exclusive lock, whenever it opened a connection |
| Backup.ReadersLetEachOtherIn | internal/core/database_lock.go:19-54 | however many servers, checks and backups are under way, and wherever each has got to, another one is granted its lock and cannot be refused |
| Backup.ReadersNeverWrite | internal/core/database_admin.go:35-52 | opening, checking and backing up change no content |
| Backup.BackupSucceedsIff | internal/core/database_admin.go:125-219 | succeeds exactly when no call fails, it has its lock, both names are free, and source and copy are sound |
| Backup.BackupStopIsCause | internal/core/database_admin.go:125-219 | a failure names a call that failed or a check that did not pass |
| Backup.ChecksumDecides | internal/core/database_admin.go:423-459 | the named checksum file, or without a name the one beside the backup, alone decides: without it no refusal and no verification, otherwise verified exactly when it records the backup's digest |
| Backup.SourceKeptIff | internal/core/database_admin.go:171-180 | a backup keeps its source's content exactly when it stops before it reserves the output or the source does not lie under the checksum's name |
| Backup.SourceIsDeleted | internal/core/database_admin.go:171-180 | a database at `/b.sha256`, backed up to `/b`, is gone |
| Backup.ChangedBackupIsRefused | internal/core/database_admin.go:443-450 | a backup with another digest is refused |
| Backup.FailedBackupLeavesNothingIff | internal/core/database_admin.go:171-180 | a failed backup leaves the directory as it was exactly when it stopped early or no checksum file pre-existed; otherwise it deletes that file |
| Backup.LeftoverSidecarIsDeleted | internal/core/database_admin.go:171-180 | a concrete directory in which that happens |
| RestoreSteps.CheckpointTarget | internal/core/database_admin.go:367-373 | keeps the content wherever it stops, and leaves an empty log on success |
| RestoreSteps.StageRestoreFile | internal/core/database_admin.go:461-500 | on success an exact copy beside the target, on failure no file |
| RestoreSteps.SwapIn | internal/core/database_admin.go:405-413 | removes sidecars and renames; the content switches at most once, while foreign connections close in between |
| RestoreSteps.ReplaceTarget | internal/core/database_admin.go:374-420 | after the target is closed: exact stopping point, no staged file left, content switched exactly when the rename happened |
| Restore.BackUpTarget | internal/core/database_admin.go:355-359 | the inner backup takes no lock, so restore's own lock cannot refuse it; it fails only for its own reasons |
| Restore.RestoreUnderLock | internal/core/database_admin.go:346-420 | what happens while the lock is held: exact stop, one switch of the content, the session's events |
| Restore.RestoreDatabase | internal/core/database_admin.go:286-421 | over all recorded states, crashes and foreign closes included, the target shows the old content and then the backup's main file, without the backup's own log, with the old content kept aside; errors up to the rename leave the old content; where it stops and which events the session makes is exact; the lock is released; it stops at the checksum, with not one state of the disk changed, exactly when the checksum file that counts does not record the backup's digest or cannot be read, and reports a verified backup exactly when there is such a file |
| Restore.RestoreWorksAlone | internal/core/database_admin.go:346-420 | in no run of the system does a restore lock, write or release while another session holds a lock; it changes the database only once the pre-restore backup is made |
| Restore.RestoreSucceedsIff | internal/core/database_admin.go:286-421 | succeeds exactly when no call fails, the lock is granted, no checksum differs, and backup, target, pre-restore backup and staged copy pass their checks |
| RestoreLaws.BackupLogDroppedIff | internal/core/database_admin.go:302-304 | a replaced target shows what opening the backup would show if and only if the backup's own log changes nothing in its main file |
| RestoreLaws.BackupLogDroppedInRun | internal/core/database_admin.go:346-420 | the same for every recorded state of a run that no longer shows the old content |
| RestoreLaws.RestoreLoggedBackup | internal/core/database_admin.go:461-500 | a restore that succeeds and drops the one write in the backup's log |
| RestoreLaws.UndoRestore | internal/core/database_admin.go:355-365 | on every disk that a restore leaves once the content is switched, restoring the pre-restore file brings the old content back or changes nothing; it is refused exactly for a name that is not plain, a log beside the file that spoils it, or a restored database that fails its check |
| RestoreLaws.RestoreCanOverlapIff | internal/core/database_admin.go:315-350 | a restore can close beside a foreign exclusive lock exactly when it stops between opening and closing the target |
| RestoreLaws.EarlyRenameSafeIff | internal/core/database_admin.go:405-412 | renaming before the log is removed would be safe exactly when the log changes nothing in the new file, or old and new agree off the log's pages |
| RestoreLaws.EarlyRenameMixes | internal/core/database_admin.go:405-412 | two images and a log that meet neither condition |
| RestoreLaws.PreRestoreIsVerifiable | internal/core/database_admin.go:355-365 | the pre-restore file can be verified in turn exactly when its name is plain |
| RestoreLaws.BackupThenRestore | internal/core/database_admin.go:121-421 | running a restore of an unchanged backup makes the disk show the content the source showed, whatever log lies beside the backup, or changes nothing; it is refused exactly for a name that is not plain, a log beside it that spoils it, or a target that fails its check |
| HashString.DecimalRoundTrip | internal/core/auth.go:126-130 | decimal parsing undoes decimal printing |
| HashString.SplitJoin | internal/core/auth.go:143 | splitting undoes joining when no field holds the separator |
| HashString.JoinSplit | internal/core/auth.go:164 | joining undoes splitting for every string, and no field holds the separator |
| HashString.Base64RoundTrip | internal/core/auth.go:131-132 | decoding undoes encoding without padding, for every byte string |
| HashString.Base64DecodesIff | internal/core/auth.go:151-156 | a text decodes exactly when it has only letters of the alphabet and line breaks, and no single letter in its last group |
| HashString.BreaksAreSkipped | internal/core/auth.go:151-156 | a line break anywhere makes no difference to what a text decodes to |
| HashString.ShortGroups | internal/core/auth.go:151-156 | a last group of two or three letters gives its leading 8 or 16 bits |
| HashString.AlphabetMeaning | internal/core/auth.go:131-132 | each sextet has the letter of the standard alphabet, and that letter no other value |
| HashString.GroupValue | internal/core/auth.go:131-132 | four letters hold the 24 bits of three bytes, first byte foremost |
| HashString.ParseOfPrint | internal/core/auth.go:124-192 | parsing a printed hash gives back parameters, salt and key exactly within the limits, and names the violated limit otherwise |
| HashString.AcceptedIsWithinLimits | internal/core/auth.go:142-192 | every accepted string, however written, has all costs and lengths within the limits, and reprinting it parses to the same |
| HashString.AcceptedIff | internal/core/auth.go:142-192 | the accepted strings, exactly: six fields, this algorithm, version 19, three decimal costs up to 131072, 6 and 8 with eight blocks a lane, a salt of 8 to 64 and a key of 16 to 64 bytes |
| HashString.FormatIff | internal/core/auth.go:143-146 | refused for its format exactly when it has another number of fields, another algorithm or another version |
| Passwords.EncodedVerdict | internal/core/auth.go:108-134 | what any password is told about any encoded hash |
| Passwords.VerdictMeaning | internal/core/auth.go:108-122 | what any stored hash says of any password: by bcrypt for the three prefixes, otherwise by the key that the hash's own costs and salt give, otherwise never; a rehash exactly for matches of bcrypt hashes, other costs than today's and salts other than 16 bytes |
| Passwords.FreshHashVerifies | internal/core/auth.go:93-122 | a new hash verifies for its password, and asks no one for a rehash |
| Passwords.UserRow.UpdatePasswordHash | internal/core/store.go:259-262 | compare and set |
| Passwords.UserRow.Login | internal/core/http.go:160-172 | accepted exactly as bcrypt or Argon2id decide on the stored hash, and never for an unreadable one; the hash stays unless an accepted login found it outdated, and then it is one that reads back as today's costs, the new salt and the key of the password |
| Passwords.UpgradedStays | internal/core/store.go:259-262 | no login replaces an upgraded hash, whatever it read and whenever |
| Passwords.StoredHashOrigin | internal/core/http.go:160-172 | in every interleaving the stored hash is the one set last, or one upgrade of it by a password that matched it |
| Passwords.AtMostOneUpgrade | internal/core/store.go:259-262 | in every interleaving, since the hash was last set otherwise, logins have replaced it never, and it is that hash, or once, by a password that matched it |
| Passwords.AcceptedAfterAnyRun | internal/core/http.go:160-172 | exactly which passwords the account accepts after any interleaving |
| Passwords.OwnerKeepsAccess | internal/core/http.go:160-172 | the only password that matched the hash is accepted after every interleaving |
| Passwords.SecondMatchSurvivesIff | internal/core/auth.go:109-112 | a second password that matched survives the upgrade exactly when the derived keys agree |
| ApiKeys.KeyStore.Bootstrap | internal/core/store.go:219-243 | nothing without an e-mail; otherwise the user, and with a server its owner, and its key unless the key is known |
| ApiKeys.KeyStore.CreateServer | internal/core/store.go:276-298 | done exactly for a new server, a known user and a new key, which is then one more row; otherwise nothing changes |
| ApiKeys.KeyStore.RotateAPIKey | internal/core/store.go:307-325 | not owned, refused exactly for a known key without any change, or every active key of the server revoked and the new one added |
| ApiKeys.KeyStore.RevokeAPIKey | internal/core/store.go:329-344 | succeeds exactly for the owner, and revokes exactly the active keys of the server |
| ApiKeys.KeyStore.DeleteServer | internal/core/store.go:299-306 | succeeds exactly for the owner, and leaves exactly the keys of other servers |
| ApiKeys.KeyStore.APIKeyValid | internal/core/store.go:500-504 | true exactly when an active row matches server and key |
| ApiKeys.EveryRunIsConsistent | migrations/000001_initial_schema.up.sql:11-31 | in every run key hashes are unique, every key's server and every server's owner exist |
| ApiKeys.KeyOpensOneServer | internal/core/store.go:500-504 | no key is valid for two servers |
| ApiKeys.ValidIffIssuedAndKept | internal/core/store.go:219-344 | in every run a key is valid exactly when some step issued it to the server and no later step rotated, revoked or deleted the server's keys |
| ApiKeys.RotateLeavesOneKey | internal/core/store.go:307-325 | after a rotation the new key is the only valid one; other servers are unchanged |
| ApiKeys.RevokeLeavesNoKey | internal/core/store.go:327-344 | after a revocation no key of the server is valid; other servers are unchanged |
| ApiKeys.RevokeTwice | internal/core/store.go:327-344 | revoking again succeeds for the owner and changes nothing more |
| ApiKeys.RevokedStaysInvalid | internal/core/store.go:234-241 | a revoked key opens no server until its server is deleted, even if a bootstrap presents it |
| ApiKeys.OthersUntouched | internal/core/store.go:299-344 | no user changes servers or keys that belong to another |
| ApiKeys.BootstrapCanAddSecondKey | internal/core/store.go:238-240 | a run of two bootstraps after which a server has two active keys |
| ApiKeys.OneKeyPerServer | internal/core/store.go:276-344 | without bootstraps a server never has two active keys |
| ApiKeys.BootstrapKeepsOneKeyIff | internal/core/store.go:238-240 | a bootstrap adds a second active key exactly when the key is new and another is active |

## Left out

- Floating point: averages, sums and tokens are exact, so rounding, NaN and infinities do not occur.
- SQLite's pages, journal format and connection pool; a transaction, `VACUUM INTO` and a rename are single steps.
- Retention.MetricStore.SaveMetrics: the server's host name, version and last-seen time, which the same transaction updates, are not in the model; the database size is an argument.
- Samples before 1970: the refinement starts its cutoffs at zero, so such a sample counts as late. The aggregation lemmas cover negative times.
- LateSamples.LateSavesExact: no deletion before the next call and nothing between that call's transactions; conservation and the refinement of on-time runs have no such limits. Late samples from before 1970 are covered when the hour cutoffs lie after it.
- Charts of `aggregateChart`: its averages are unweighted by design and no API range selects it.
- Charts.RawChart: the query itself is a function of the table; its result rows are then collected by the loop.
- Paging.PagingIsExactUpToTies: the table does not change while a client follows cursors. A walk that meets the zero time does not end, as Paging.WalkEndsIff says; validatePayload refuses that very instant, so only the rest of its millisecond can store it.
- The text form of cursors (RFC 3339), JSON, request routing, cookies and JWT.
- validatePayload's checks of names and of the timestamp: only its bounds on values matter here.
- Backup.BackupDatabase: paths are given in absolute, cleaned form, so two equal files have equal paths; other sessions' writes while it runs are not on the disk of the model, so the snapshot is of the content that the method found.
- Backup.BackupDatabase: a source that does not exist stops at connecting; SQLite may first create an empty file there, which then fails the check.
- Restore.RestoreDatabase: nobody else changes the backup file meanwhile. The exact stopping point excludes a backup that lies at the target's own `-wal` or `-shm` path, which a close can remove; safety does not exclude it. Foreign connections do not close between the steps of the inner backup, but after it.
- Restore.RestoreDatabase: after the release, other sessions may write; the recorded states are those of this session and of closes. Disk.CloseConnections says what the late close does to whatever it finds.
- Restore.RestoreDatabase: directory sync and power loss; a crash is a crash of the process.
- RestoreSteps.StageRestoreFile: the temporary name is unused, as `os.CreateTemp` guarantees; permissions and ownership are not modelled.
- Lifecycle: in-memory databases take no lock and are not modelled; failing to find out the path of the lock file counts as an error of the lock call.
- Passwords.UserRow.Login: the two-slot channel that limits concurrent key derivations has no effect on results.
- Passwords.AtMostOneUpgrade: one user row; registration and unknown e-mail addresses settle nothing here.
- HashString.ParseOfPrint: text is a sequence of characters; passwords, salts and keys are bytes.
- ApiKeys: keys appear by their digest, so two keys with one digest are one key; random generation of keys is outside.
- Migrations' statements, the console, the agent, configuration, installers and server status summaries.
