# WAL-G: composer choice, Greenplum restore planning, feature-file selection

A Dafny model of three small pieces of WAL-G's decision and string logic, with
proofs of what they promise.

- **Tarball composer maker** (PostgreSQL backups). A composer-type tag selects the
  Regular, Rating or Copy maker. Rating needs the relation-statistics source. Copy
  needs the latest backup. When there is no latest backup, Copy quietly falls back to
  Regular. Otherwise Copy reads the latest backup's sentinel and follows its
  `IncrementFullName` pointer exactly one hop. Storage is abstracted as the latest
  backup name and, per backup, the result of reading its sentinel. The statistics
  source is abstracted as its outcome. `ResolveBase` is an independent walk of the
  `IncrementFullName` chain for any number of hops. The lemmas show that the maker
  is that walk with one hop. They also show that one hop reaches a full backup
  whenever increments name full backups, and that in a longer chain the maker stops
  after one hop.
- **Greenplum restore planning.** `NewFetchHandler` keeps only the primary segments
  of the backup sentinel, in order. It moves each one to the host, port and data
  directory the restore configuration gives its content ID, and records the backup
  ID of each content ID. A primary whose content ID is not configured is an error.
  `BuildFetchCommand` produces the seven-part `wal-g pg backup-fetch` command line.
  The proofs split that line back into the words a shell sees and read the port and
  the storage prefix back as numbers. The pg_hba.conf and recovery.conf uploads are
  here-document commands, and `ParseHeredocUpload` recovers their target path and
  contents when the data directory holds no line break.
- **Functional-test harness.** `ScanFeatureDirs` selects feature files from a
  directory listing, given an optional requested feature (`FEATURE`) and an optional
  prefix. It is proved equal to a declarative reference, `ScanFeatures`, and the
  lemmas state what that reference contains. `ContainerFQDN` builds
  `<name>.test_net_<TEST_ID>`.

Files: `Wrappers.dfy` (Option, Result, Outcome), `Strings.dfy` (the parts of Go's
`strings`, `path` and `fmt` that the code uses, with their inverses),
`TarBallComposer.dfy`, `BackupFetchHandler.dfy` and `TestContext.dfy`.

Three facts about the maker that the model keeps:

- Only the Copy maker looks up the latest backup
  (internal/databases/postgres/tar_ball_composer.go:66-73). Rating never does, and it
  never falls back.
- Copy falls back to Regular on *any* `GetLatestBackupName` error, not just when there
  is no backup (tar_ball_composer.go:67-72).
- Only one hop of `IncrementFullName` is followed (tar_ball_composer.go:79-86).
  `OnlyOneHopInLongerChain` shows what that means for a chain of increments.

## Model

| member | source | states |
|---|---|---|
| `TarBallComposer.NewComposeFileInfo` | internal/databases/postgres/tar_ball_composer.go:35-39 | each argument lands in its own field, so wasInBase and isIncremented are not swapped although the argument order differs from the field order |
| `TarBallComposer.NewTarBallComposerMaker` | internal/databases/postgres/tar_ball_composer.go:54-91 | a tag other than 1, 2 or 3 (including 0) is the "Unknown TarBallComposerType" error; Regular results exactly from the Regular tag or from Copy with no latest backup; Rating results exactly when requested and the statistics are available; a Copy maker names a backup whose sentinel was read and keeps the new backup's name |
| `TarBallComposer.ResolveBase` | internal/databases/postgres/tar_ball_composer.go:74-86 | reference walk along IncrementFullName for a given number of hops; whatever it returns has a readable sentinel; an unreadable sentinel of the starting backup is the error; with hops left, an IncrementFullName is followed to the walk from the named backup |
| `TarBallComposer.CopyResolvesOneHop` | internal/databases/postgres/tar_ball_composer.go:66-87 | with a latest backup, the Copy maker is exactly the one-hop walk from it: its base, or the walk's error |
| `TarBallComposer.RegularIgnoresSources` | internal/databases/postgres/tar_ball_composer.go:58-59 | Regular always succeeds, whatever the storage, the statistics source and the backup name |
| `TarBallComposer.RatingPropagatesStatsError` | internal/databases/postgres/tar_ball_composer.go:60-64 | a failing statistics source gives that same error and no maker |
| `TarBallComposer.CopyUnreadableLatestFails` | internal/databases/postgres/tar_ball_composer.go:74-78 | an unreadable sentinel of the latest backup is an error, not a fallback |
| `TarBallComposer.CopyOfFullBackup` | internal/databases/postgres/tar_ball_composer.go:74-87 | without IncrementFullName the base is the latest backup itself |
| `TarBallComposer.CopyFollowsExactlyOneHop` | internal/databases/postgres/tar_ball_composer.go:79-87 | with IncrementFullName set, the named backup is the base even if its own sentinel names another; if its sentinel is unreadable, that error is the result |
| `TarBallComposer.OneHopReachesFullBackup` | internal/databases/postgres/tar_ball_composer.go:79-86 | where every IncrementFullName names a full backup, one hop reaches a full backup and further hops change nothing |
| `TarBallComposer.CopyBaseIsFull` | internal/databases/postgres/tar_ball_composer.go:66-87 | where every IncrementFullName names a full backup, the Copy maker's base is a full backup |
| `TarBallComposer.OnlyOneHopInLongerChain` | internal/databases/postgres/tar_ball_composer.go:79-87 | for the chain C to B to A, the Copy base is B while a two-hop walk reaches A |
| `BackupFetchHandler.PrimariesAreThePrimarySegments` | internal/databases/greenplum/backup_fetch_handler.go:38-40 | the segments kept are exactly the sentinel's segments whose role is Primary |
| `BackupFetchHandler.PrimariesOfConcat` | internal/databases/greenplum/backup_fetch_handler.go:38-40 | the kept segments follow sentinel order: the primaries of a concatenation are the primaries of the first part followed by those of the second |
| `BackupFetchHandler.PrimariesCount` | internal/databases/greenplum/backup_fetch_handler.go:38-53 | each primary segment is kept as many times as the sentinel lists it and each non-primary never, so a repeated segment gives repeated configs |
| `BackupFetchHandler.BackupIDsOfLastWins` | internal/databases/greenplum/backup_fetch_handler.go:43 | the content-ID map has a key for each primary's content ID and no other key, and each maps to the backup ID of the last primary with that content ID |
| `BackupFetchHandler.NewFetchHandler` | internal/databases/greenplum/backup_fetch_handler.go:33-68 | fails exactly when some primary's content ID is missing from the restore config, naming the first such ID; otherwise one segment config per primary in sentinel order, with host, port and data dir from the restore config and the other fields from the metadata, plus the content-ID to backup-ID map of the primaries |
| `BackupFetchHandler.SegmentByContent` | internal/databases/greenplum/backup_fetch_handler.go:157 | the segment found has the requested content ID, belongs to the cluster and is the first configuration with that content ID; none is found only when no segment has that content ID |
| `BackupFetchHandler.BuildFetchCommand` | internal/databases/greenplum/backup_fetch_handler.go:156-178 | succeeds exactly when the cluster has the segment and the content ID has a backup ID; a missing backup ID is the "Failed to load backup id" error; the command line splits into WALG_LOG_LEVEL=DEVEL, PGPORT=port, wal-g, pg, backup-fetch, data dir, --walg-storage-prefix=content ID, --target-user-data=quoted user data, --config=file |
| `BackupFetchHandler.FetchCommandWordsRoundTrip` | internal/databases/greenplum/backup_fetch_handler.go:165-175 | the seven parts joined by single spaces split back into the command's nine words, and the port and the storage prefix read back as the numbers printed |
| `BackupFetchHandler.FetchCommandOfPlannedHandler` | internal/databases/greenplum/backup_fetch_handler.go:156-175 | for a handler planned from a sentinel, a fetch command exists exactly for the content IDs of primary segments, and it uses the port and data dir the restore config gives that content ID and the backup ID recorded for it |
| `BackupFetchHandler.HeredocRoundTrip` | internal/databases/greenplum/backup_fetch_handler.go:112 | the target path (without a line break) and the contents are recovered from `cat > path << EOF\ncontents\nEOF` |
| `BackupFetchHandler.PgHbaUploadCommand` | internal/databases/greenplum/backup_fetch_handler.go:106-115 | exists exactly for content IDs in the cluster; for a data dir without a line break, the command parses back to the target `<data dir>/pg_hba.conf` and the given contents |
| `BackupFetchHandler.RecoveryConfUploadCommand` | internal/databases/greenplum/backup_fetch_handler.go:131-142 | exists exactly for content IDs in the cluster; for a data dir without a line break, the command parses back to the target `<data dir>/recovery.conf` and the recovery config made for /usr/bin/wal-g, the config file, the backup name and the content ID |
| `TestContext.ContainerFQDN` | tests_func/testcontext.go:27-29 | the name is followed by `.test_net_` and then by the TEST_ID value (empty when unset), with nothing else |
| `TestContext.ContainerFQDNLabels` | tests_func/testcontext.go:27-29 | without dots in the name and the test ID, the first label is the container name and the second is `test_net_<TEST_ID>` |
| `TestContext.FeatureName` | tests_func/testcontext.go:227 | the feature name followed by `.feature` is the file name |
| `TestContext.ScanFeatureDirs` | tests_func/testcontext.go:194-233 | the two loops (find the requested file, then filter and rename) compute the reference selection `ScanFeatures` |
| `TestContext.ScanFeaturesErrors` | tests_func/testcontext.go:196-215 | the result is an error exactly when the listing fails or a requested feature has no file named `<feature>.feature`; the latter reports "requested feature is not found" |
| `TestContext.SelectFeaturesEntries` | tests_func/testcontext.go:218-230 | a name is a key exactly when `<name>.feature` is one of the files and passes the prefix filter (an empty prefix filters nothing), and its value is the joined path of that file |
| `TestContext.ScanFeaturesEntriesAreFeatureFiles` | tests_func/testcontext.go:205-230 | every entry comes from a listed `.feature` file, carries the prefix when one is given, is the requested feature when one is set, and maps to `features/<db>/<name>.feature` |
| `TestContext.ScanFeaturesFindsEveryFeatureFile` | tests_func/testcontext.go:218-230 | with no requested feature and no prefix, every listed `.feature` file is found under its name |
| `TestContext.ScanFeaturesRequested` | tests_func/testcontext.go:203-224 | a requested feature that exists is the only candidate; the result is that one entry, or the empty map (not an error) when it lacks the prefix |
| `Strings.IntToStringRoundTrip` | internal/databases/greenplum/backup_fetch_handler.go:167-170 | the decimal text printed by `%d` reads back as the same integer, signs included (the master's content ID is -1) |
| `Strings.SplitJoin` | internal/databases/greenplum/backup_fetch_handler.go:175 | for a non-empty list whose parts do not contain the separator, splitting the joined list on the separator gives the list back (the empty list joins to "", which splits to [""]) |
| `Strings.PathJoin` | tests_func/testcontext.go:228 | two non-empty components are joined by exactly one slash |

## Left out

- The composer interface (`AddFile`, `AddHeader`, `SkipFile`, `PackTarballs`, `GetFiles`) and the `TarFileSets` type are not modelled. They are only declarations, and the packing implementations are not part of this model, so neither is placement into tarballs.
- `GetSentinel`: a backup name missing from the map of sentinel results reads as an error whose text ("sentinel of backup … does not exist") is made up for the model. The code passes on whatever error the storage gives.
- The bodies of `NewRegularTarBallComposerMaker`, `NewRatingTarBallComposerMaker` and `NewCopyTarBallComposerMaker` are not part of this model. The Regular, Rating and Copy variants stand for the makers they return, and the file-pack options they receive are not carried. Any error of `NewRatingTarBallComposerMaker` itself is not modelled.
- `newRelFileStatistics`, `internal.GetLatestBackupName` and `GetSentinel` touch a database or object storage. They are inputs: an outcome, an optional name and a map of sentinel results. The error text of a failed latest-name lookup is not kept, because the code only logs it.
- Logging (`tracelog`, `gplog`) is left out. `Fatalf` process termination is an error result.
- Remote execution on the cluster is left out: `Fetch`, `GenerateAndExecuteCommand`, `CheckClusterError`, and which content IDs the `ON_SEGMENTS`/`INCLUDE_MASTER`/`EXCLUDE_MIRRORS` flags select. `cluster.NewCluster` is not part of this model. Its `ByContent[c][0]` is taken to be the first configuration with content ID `c`.
- `SegmentMetadata.ToSegConfig` is not part of this model. It is taken to copy the database ID, content ID, role, port, host name and data directory.
- `NewPgHbaMaker(...).Make()` (including its error), `NewRecoveryConfigMaker(...).Make` and `SegmentUserData.QuotedString` are not part of this model. Their outputs are parameters: a string, and opaque functions.
- `path.Join` does not clean paths here (`..`, repeated or trailing slashes). Components are assumed already clean. Only empty components are dropped.
- How a shell reads the here-document is not modelled: the delimiter is unquoted, so the shell may expand `$` in the contents, and a line `EOF` in the contents would end the document early. `HeredocRoundTrip` is about the command string.
- PgHbaUploadCommand, RecoveryConfUploadCommand: the target path and contents are stated only for a data directory without a line break. With a line break in it, the command is still the same here-document text, but its first line no longer holds the whole `cat > <path>` part, so it does not parse back.
- BuildFetchCommand: the word-splitting property is stated only when the data directory, the quoted user data and the config path contain no space. With spaces, the command line is still the joined seven parts, but a shell would split it differently.
- The text of Go's runtime panic when a content ID is absent from the cluster is approximated.
- Go strings are byte strings, and `strings.HasPrefix`, `strings.HasSuffix` and the suffix slice in `scanFeatureDirs` work on bytes. Here strings are sequences of characters. The two agree for valid UTF-8 names and the ASCII `.feature` suffix, but a file name from `ReadDir` that is not valid UTF-8 cannot be represented.
- Go's 64-bit `int` for ports and content IDs is unbounded here. No arithmetic is done on them, so no wrap-around can arise.
- Of `internal.Backup`, only the backup name is kept.
- `ioutil.ReadDir`, `os.Environ` and `utils.ParseEnvLines` are inputs: a listing result and a parsed environment map. A file's `FileInfo` is reduced to its name, the only part the selection reads.
- The rest of the test harness (`LoadEnv`, `CleanEnv`, `StopEnv`, `setupSuites`, `NewTestContext`, `S3Host`, the `...FromTestContext` constructors) is I/O and orchestration.
- `cmd/mongo/mongo.go`, `cmd/redis/redis.go`, `cmd/mysql/binlog_replay.go` and `cmd/mysql/binlog_push.go` are CLI wiring (cobra commands, flags, `os.Exit`) with no logic to model.
