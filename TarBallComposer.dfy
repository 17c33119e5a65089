/**
 * Choice of the tarball composer for a PostgreSQL backup
 * (internal/databases/postgres/tar_ball_composer.go).
 *
 * Storage and the relation-statistics source are abstracted: the storage is
 * the name of the latest backup, if it can be obtained, and the outcome of
 * reading each backup's sentinel; the statistics source is its outcome.
 */
module TarBallComposer {
  import opened Wrappers

  /** A file handed to the composer. File metadata and the tar header are opaque here. */
  datatype ComposeFileInfo<FileInfo, Header> = ComposeFileInfo(
    path: string,
    fileInfo: FileInfo,
    wasInBase: bool,
    header: Header,
    isIncremented: bool)

  /**
   * `NewComposeFileInfo`: its parameters come in the order
   * (path, fileInfo, wasInBase, isIncremented, header), which is not the
   * order of the record's fields; each must land in its own field.
   */
  function NewComposeFileInfo<FileInfo, Header>(path: string, fileInfo: FileInfo, wasInBase: bool,
                                                isIncremented: bool, header: Header): (r: ComposeFileInfo<FileInfo, Header>)
    ensures r.path == path && r.fileInfo == fileInfo && r.header == header
    ensures r.wasInBase == wasInBase && r.isIncremented == isIncremented
  {
    ComposeFileInfo(path := path, fileInfo := fileInfo, wasInBase := wasInBase,
                    header := header, isIncremented := isIncremented)
  }

  /** `TarBallComposerType` tags: `iota + 1`, so no composer has tag 0. */
  const RegularComposer: int := 1
  const RatingComposer: int := 2
  const CopyComposer: int := 3

  /** The part of a backup sentinel the maker reads. */
  datatype Sentinel = Sentinel(incrementFullName: Option<string>)

  /**
   * What the maker can observe of the storage folder: the latest backup name
   * (`None` when `GetLatestBackupName` fails) and, per backup name, the outcome
   * of `GetSentinel`. A name without an entry has no readable sentinel.
   */
  datatype Storage = Storage(latest: Option<string>, sentinels: map<string, Result<Sentinel>>)

  /** The maker that is built; `Copy` names the backup whose files are copied. */
  datatype MakerVariant =
    | Regular
    | Rating
    | Copy(previousBackupName: string, newBackupName: string)

  function GetSentinel(storage: Storage, name: string): Result<Sentinel> {
    if name in storage.sentinels then storage.sentinels[name]
    else Err("sentinel of backup " + name + " does not exist")
  }

  const UnknownComposerTypeError := "NewTarBallComposerMaker: Unknown TarBallComposerType"

  /** `NewTarBallComposerMaker`. */
  function NewTarBallComposerMaker(composerType: int, relFileStats: Outcome, storage: Storage,
                                   newBackupName: string): (r: Result<MakerVariant>)
    // no tag outside 1..3 yields a maker
    ensures composerType !in {RegularComposer, RatingComposer, CopyComposer} ==> r == Err(UnknownComposerTypeError)
    // a Regular maker is either requested or the quiet fallback of Copy when there is no latest backup
    ensures r == Ok(Regular) <==>
              composerType == RegularComposer || (composerType == CopyComposer && storage.latest.None?)
    // a Rating maker is built exactly when it is requested and the statistics are available
    ensures r == Ok(Rating) <==> composerType == RatingComposer && relFileStats.Pass?
    // a Copy maker only names a backup whose sentinel was read, and it keeps the new backup's name
    ensures r.Ok? && r.value.Copy? ==>
              && composerType == CopyComposer
              && storage.latest.Some?
              && GetSentinel(storage, r.value.previousBackupName).Ok?
              && r.value.newBackupName == newBackupName
  {
    if composerType == RegularComposer then
      Ok(Regular)
    else if composerType == RatingComposer then
      match relFileStats
      case Fail(e) => Err(e)
      case Pass => Ok(Rating)
    else if composerType == CopyComposer then
      match storage.latest
      case None => Ok(Regular)
      case Some(latestName) =>
        match GetSentinel(storage, latestName)
        case Err(e) => Err(e)
        case Ok(sentinel) =>
          match sentinel.incrementFullName
          case None => Ok(Copy(latestName, newBackupName))
          case Some(fullName) =>
            match GetSentinel(storage, fullName)
            case Err(e) => Err(e)
            case Ok(_) => Ok(Copy(fullName, newBackupName))
    else
      Err(UnknownComposerTypeError)
  }

  // ---------------------------------------------------------------------
  // Reference: walking the IncrementFullName chain

  /**
   * Starting at backup `name`, follow at most `hops` `IncrementFullName`
   * pointers; every sentinel visited must be readable, and the first read
   * error is the result.
   */
  function ResolveBase(storage: Storage, name: string, hops: nat): (r: Result<string>)
    ensures r.Ok? ==> GetSentinel(storage, r.value).Ok?
    // the walk stops at the first unreadable sentinel, with its error
    ensures GetSentinel(storage, name).Err? ==> r == Err(GetSentinel(storage, name).error)
    ensures GetSentinel(storage, name).Ok? && GetSentinel(storage, name).value.incrementFullName.Some? && hops > 0 ==>
              r == ResolveBase(storage, GetSentinel(storage, name).value.incrementFullName.value, hops - 1)
    decreases hops
  {
    match GetSentinel(storage, name)
    case Err(e) => Err(e)
    case Ok(sentinel) =>
      if hops == 0 || sentinel.incrementFullName.None? then Ok(name)
      else ResolveBase(storage, sentinel.incrementFullName.value, hops - 1)
  }

  /** The Copy composer resolves its base by a walk of exactly one hop from the latest backup. */
  lemma CopyResolvesOneHop(relFileStats: Outcome, storage: Storage, newBackupName: string)
    requires storage.latest.Some?
    ensures NewTarBallComposerMaker(CopyComposer, relFileStats, storage, newBackupName) ==
              match ResolveBase(storage, storage.latest.value, 1)
              case Ok(base) => Ok(Copy(base, newBackupName))
              case Err(e) => Err(e)
  {
  }

  /** The Regular maker reads neither storage nor the statistics source. */
  lemma RegularIgnoresSources(stats1: Outcome, stats2: Outcome, storage1: Storage, storage2: Storage,
                              name1: string, name2: string)
    ensures NewTarBallComposerMaker(RegularComposer, stats1, storage1, name1) ==
            NewTarBallComposerMaker(RegularComposer, stats2, storage2, name2) == Ok(Regular)
  {
  }

  /** A failing statistics source fails the Rating maker with that very error. */
  lemma RatingPropagatesStatsError(e: string, storage: Storage, newBackupName: string)
    ensures NewTarBallComposerMaker(RatingComposer, Fail(e), storage, newBackupName) == Err(e)
  {
  }

  /** An unreadable sentinel of the latest backup is an error, not a fallback. */
  lemma CopyUnreadableLatestFails(relFileStats: Outcome, storage: Storage, newBackupName: string)
    requires storage.latest.Some? && GetSentinel(storage, storage.latest.value).Err?
    ensures NewTarBallComposerMaker(CopyComposer, relFileStats, storage, newBackupName) ==
            Err(GetSentinel(storage, storage.latest.value).error)
  {
  }

  /**
   * When the latest backup's sentinel names a full backup, that backup is
   * the base, even if its own sentinel names yet another one; if its
   * sentinel cannot be read, that error is the result.
   */
  lemma CopyFollowsExactlyOneHop(relFileStats: Outcome, storage: Storage, newBackupName: string,
                                 latest: string, full: string)
    requires storage.latest == Some(latest)
    requires GetSentinel(storage, latest) == Ok(Sentinel(Some(full)))
    ensures GetSentinel(storage, full).Ok? ==>
              NewTarBallComposerMaker(CopyComposer, relFileStats, storage, newBackupName) == Ok(Copy(full, newBackupName))
    ensures GetSentinel(storage, full).Err? ==>
              NewTarBallComposerMaker(CopyComposer, relFileStats, storage, newBackupName) == Err(GetSentinel(storage, full).error)
  {
  }

  /** Without `IncrementFullName`, the latest backup itself is the base. */
  lemma CopyOfFullBackup(relFileStats: Outcome, storage: Storage, newBackupName: string, latest: string)
    requires storage.latest == Some(latest)
    requires GetSentinel(storage, latest) == Ok(Sentinel(None))
    ensures NewTarBallComposerMaker(CopyComposer, relFileStats, storage, newBackupName) == Ok(Copy(latest, newBackupName))
  {
  }

  predicate IsIncrementSentinel(storage: Storage, name: string) {
    name in storage.sentinels && storage.sentinels[name].Ok? && storage.sentinels[name].value.incrementFullName.Some?
  }

  /**
   * Storage in which every `IncrementFullName` names a backup whose sentinel
   * is readable and which is itself full.
   */
  ghost predicate IncrementsNameFullBackups(storage: Storage) {
    forall name :: IsIncrementSentinel(storage, name) ==>
      GetSentinel(storage, storage.sentinels[name].value.incrementFullName.value) == Ok(Sentinel(None))
  }

  /**
   * Where increments name full backups, one hop already reaches a full
   * backup: walking further changes nothing, and the Copy base is full.
   */
  lemma OneHopReachesFullBackup(storage: Storage, name: string, hops: nat)
    requires IncrementsNameFullBackups(storage)
    requires hops >= 1
    ensures ResolveBase(storage, name, hops) == ResolveBase(storage, name, 1)
    ensures ResolveBase(storage, name, 1).Ok? ==>
              GetSentinel(storage, ResolveBase(storage, name, 1).value) == Ok(Sentinel(None))
  {
  }

  lemma CopyBaseIsFull(relFileStats: Outcome, storage: Storage, newBackupName: string)
    requires IncrementsNameFullBackups(storage)
    ensures var r := NewTarBallComposerMaker(CopyComposer, relFileStats, storage, newBackupName);
            r.Ok? && r.value.Copy? ==> GetSentinel(storage, r.value.previousBackupName) == Ok(Sentinel(None))
  {
  }

  /**
   * With a chain C -> B -> A whose middle link is itself incremental, the
   * Copy maker stops at B, whereas a two-hop walk would reach A.
   */
  lemma OnlyOneHopInLongerChain()
    ensures var storage := Storage(Some("C"), map["C" := Ok(Sentinel(Some("B"))),
                                                   "B" := Ok(Sentinel(Some("A"))),
                                                   "A" := Ok(Sentinel(None))]);
            && NewTarBallComposerMaker(CopyComposer, Pass, storage, "D") == Ok(Copy("B", "D"))
            && ResolveBase(storage, "C", 2) == Ok("A")
  {
  }
}
