/**
 * Planning the restore of a Greenplum cluster
 * (internal/databases/greenplum/backup_fetch_handler.go): which segments are
 * restored, where, and the command lines sent to each segment host.
 *
 * The remote execution itself is not modelled; the cluster is the list of
 * segment configurations it is built from, and `ByContent[c][0]` is the
 * first configuration of that list with content ID `c`.
 */
module BackupFetchHandler {
  import opened Wrappers
  import opened Strings

  datatype SegmentRole = Primary | Mirror

  /** One segment as recorded in the backup sentinel. */
  datatype SegmentMetadata = SegmentMetadata(
    databaseID: int,
    contentID: int,
    role: SegmentRole,
    port: int,
    hostname: string,
    dataDir: string,
    backupID: string)

  datatype BackupSentinel = BackupSentinel(segments: seq<SegmentMetadata>)

  /** Where one segment is to be restored. */
  datatype SegmentRestoreConfig = SegmentRestoreConfig(hostname: string, port: int, dataDir: string)

  datatype ClusterRestoreConfig = ClusterRestoreConfig(segments: map<int, SegmentRestoreConfig>)

  /** `cluster.SegConfig`. */
  datatype SegConfig = SegConfig(
    dbID: int,
    contentID: int,
    role: SegmentRole,
    port: int,
    hostname: string,
    dataDir: string)

  /** `FetchHandler`; of the backup only its name is used. */
  datatype FetchHandler = FetchHandler(
    cluster: seq<SegConfig>,
    backupIDByContentID: map<int, string>,
    backupName: string)

  /** `SegmentMetadata.ToSegConfig`: the metadata's own placement of the segment. */
  function ToSegConfig(m: SegmentMetadata): SegConfig {
    SegConfig(m.databaseID, m.contentID, m.role, m.port, m.hostname, m.dataDir)
  }

  /** The primary segments, in sentinel order. */
  function Primaries(segments: seq<SegmentMetadata>): (ps: seq<SegmentMetadata>)
  {
    if |segments| == 0 then []
    else
      var last := segments[|segments| - 1];
      var ps := Primaries(segments[..|segments| - 1]);
      if last.role == Primary then ps + [last] else ps
  }

  lemma {:induction false} PrimariesAreThePrimarySegments(segments: seq<SegmentMetadata>)
    ensures forall m :: m in Primaries(segments) <==> m in segments && m.role == Primary
  {
    if |segments| > 0 {
      var init := segments[..|segments| - 1];
      PrimariesAreThePrimarySegments(init);
      assert segments == init + [segments[|segments| - 1]];
    }
  }

  /** Filtering keeps sentinel order: the primaries of a concatenation are the primaries of each part, in turn. */
  lemma {:induction false} PrimariesOfConcat(a: seq<SegmentMetadata>, b: seq<SegmentMetadata>)
    ensures Primaries(a + b) == Primaries(a) + Primaries(b)
  {
    if |b| == 0 {
      assert a + b == a;
    } else {
      var init := b[..|b| - 1];
      PrimariesOfConcat(a, init);
      assert (a + b)[..|a + b| - 1] == a + init;
    }
  }

  /** Each primary segment is kept as many times as the sentinel lists it, every other segment never. */
  lemma {:induction false} PrimariesCount(segments: seq<SegmentMetadata>, m: SegmentMetadata)
    ensures multiset(Primaries(segments))[m] == if m.role == Primary then multiset(segments)[m] else 0
  {
    if |segments| > 0 {
      var init := segments[..|segments| - 1];
      PrimariesCount(init, m);
      assert segments == init + [segments[|segments| - 1]];
    }
  }

  lemma PrimariesStep(segments: seq<SegmentMetadata>, n: int)
    requires 0 <= n < |segments|
    ensures Primaries(segments[..n + 1]) ==
              if segments[n].role == Primary then Primaries(segments[..n]) + [segments[n]] else Primaries(segments[..n])
  {
    assert segments[..n + 1][..n] == segments[..n];
  }

  /** The content-ID to backup-ID map built from `ps` in order; a later entry overwrites an earlier one. */
  function BackupIDsOf(ps: seq<SegmentMetadata>): map<int, string> {
    if |ps| == 0 then map[]
    else BackupIDsOf(ps[..|ps| - 1])[ps[|ps| - 1].contentID := ps[|ps| - 1].backupID]
  }

  /**
   * The map has a key for each content ID in `ps` and no other, and a
   * content ID maps to the backup ID of its last segment in `ps`.
   */
  lemma {:induction false} BackupIDsOfLastWins(ps: seq<SegmentMetadata>)
    ensures BackupIDsOf(ps).Keys == set m | m in ps :: m.contentID
    ensures forall i :: 0 <= i < |ps| && IsLastOfContent(ps, i) ==>
              BackupIDsOf(ps)[ps[i].contentID] == ps[i].backupID
  {
    if |ps| > 0 {
      var init := ps[..|ps| - 1];
      BackupIDsOfLastWins(init);
      assert ps == init + [ps[|ps| - 1]];
      forall i | 0 <= i < |ps| - 1 && IsLastOfContent(ps, i)
        ensures IsLastOfContent(init, i)
      {
      }
    }
  }

  predicate IsLastOfContent(ps: seq<SegmentMetadata>, i: int)
    requires 0 <= i < |ps|
  {
    forall j :: i < j < |ps| ==> ps[j].contentID != ps[i].contentID
  }

  predicate IsUnconfiguredPrimary(m: SegmentMetadata, restoreCfg: ClusterRestoreConfig) {
    m.role == Primary && m.contentID !in restoreCfg.segments
  }

  predicate IsFirstUnconfiguredPrimary(segments: seq<SegmentMetadata>, restoreCfg: ClusterRestoreConfig, i: int) {
    && 0 <= i < |segments|
    && IsUnconfiguredPrimary(segments[i], restoreCfg)
    && forall k :: 0 <= k < i ==> !IsUnconfiguredPrimary(segments[k], restoreCfg)
  }

  /** Segment configuration `c` is segment `m` moved to the place `rc`. */
  predicate RestoredFrom(c: SegConfig, m: SegmentMetadata, rc: SegmentRestoreConfig) {
    && c.dbID == m.databaseID && c.contentID == m.contentID && c.role == m.role
    && c.hostname == rc.hostname && c.port == rc.port && c.dataDir == rc.dataDir
  }

  /**
   * `h` is the handler for `segments` restored per `restoreCfg`: one segment
   * configuration per primary, in sentinel order, each placed where the
   * restore configuration says, and the backup ID of every primary's content.
   */
  ghost predicate PlannedFrom(h: FetchHandler, backupName: string, segments: seq<SegmentMetadata>,
                              restoreCfg: ClusterRestoreConfig)
  {
    var ps := Primaries(segments);
    && h.backupName == backupName
    && |h.cluster| == |ps|
    && (forall i :: 0 <= i < |ps| ==>
          ps[i].contentID in restoreCfg.segments
          && RestoredFrom(h.cluster[i], ps[i], restoreCfg.segments[ps[i].contentID]))
    && h.backupIDByContentID == BackupIDsOf(ps)
  }

  function MissingContentIDMessage(contentID: int): string {
    "Could not find content ID " + IntToString(contentID) + " in the provided restore configuration"
  }

  /** `NewFetchHandler`; the fatal log of a missing content ID is the error result. */
  method NewFetchHandler(backupName: string, sentinel: BackupSentinel, restoreCfg: ClusterRestoreConfig)
    returns (r: Result<FetchHandler>)
    ensures r.Ok? <==> forall k :: 0 <= k < |sentinel.segments| ==> !IsUnconfiguredPrimary(sentinel.segments[k], restoreCfg)
    ensures r.Ok? ==> PlannedFrom(r.value, backupName, sentinel.segments, restoreCfg)
    ensures r.Err? ==> exists i :: IsFirstUnconfiguredPrimary(sentinel.segments, restoreCfg, i)
                                && r.error == MissingContentIDMessage(sentinel.segments[i].contentID)
  {
    var segments := sentinel.segments;
    var backupIDByContentID: map<int, string> := map[];
    var segmentConfigs: seq<SegConfig> := [];
    ghost var ps: seq<SegmentMetadata> := [];
    var n := 0;
    while n < |segments|
      invariant 0 <= n <= |segments|
      invariant ps == Primaries(segments[..n])
      invariant forall k :: 0 <= k < n ==> !IsUnconfiguredPrimary(segments[k], restoreCfg)
      invariant backupIDByContentID == BackupIDsOf(ps)
      invariant |segmentConfigs| == |ps|
      invariant forall i :: 0 <= i < |ps| ==>
                  ps[i].contentID in restoreCfg.segments
                  && RestoredFrom(segmentConfigs[i], ps[i], restoreCfg.segments[ps[i].contentID])
    {
      var segMeta := segments[n];
      PrimariesStep(segments, n);
      // mirrors are not restored
      if segMeta.role == Primary {
        backupIDByContentID := backupIDByContentID[segMeta.contentID := segMeta.backupID];
        var segmentCfg := ToSegConfig(segMeta);
        if segMeta.contentID !in restoreCfg.segments {
          assert IsFirstUnconfiguredPrimary(segments, restoreCfg, n);
          return Err(MissingContentIDMessage(segMeta.contentID));
        }
        var segRestoreCfg := restoreCfg.segments[segMeta.contentID];
        segmentCfg := segmentCfg.(hostname := segRestoreCfg.hostname);
        segmentCfg := segmentCfg.(port := segRestoreCfg.port);
        segmentCfg := segmentCfg.(dataDir := segRestoreCfg.dataDir);
        assert RestoredFrom(segmentCfg, segMeta, segRestoreCfg);
        segmentConfigs := segmentConfigs + [segmentCfg];
        assert (ps + [segMeta])[..|ps|] == ps;
        ps := ps + [segMeta];
      }
      n := n + 1;
    }
    assert segments[..n] == segments;
    r := Ok(FetchHandler(segmentConfigs, backupIDByContentID, backupName));
  }

  /** `fh.cluster.ByContent[contentID][0]`, when that list is not empty. */
  function SegmentByContent(cluster: seq<SegConfig>, contentID: int): (r: Option<SegConfig>)
    ensures r.Some? ==> r.value in cluster && r.value.contentID == contentID
    // the entry found is the first one with that content ID
    ensures r.Some? ==> exists i :: 0 <= i < |cluster| && cluster[i] == r.value &&
                          forall j :: 0 <= j < i ==> cluster[j].contentID != contentID
    ensures r.None? ==> forall i :: 0 <= i < |cluster| ==> cluster[i].contentID != contentID
  {
    if |cluster| == 0 then None
    else if cluster[0].contentID == contentID then Some(cluster[0])
    else
      var rest := SegmentByContent(cluster[1..], contentID);
      assert rest.Some? ==> exists i :: 0 <= i < |cluster| && cluster[i] == rest.value &&
                              forall j :: 0 <= j < i ==> cluster[j].contentID != contentID by {
        if rest.Some? {
          var k :| 0 <= k < |cluster[1..]| && cluster[1..][k] == rest.value &&
                   forall j :: 0 <= j < k ==> cluster[1..][j].contentID != contentID;
          assert forall j :: 0 <= j < k + 1 ==> cluster[j].contentID != contentID by {
            forall j | 0 <= j < k + 1 ensures cluster[j].contentID != contentID {
              if j > 0 { assert cluster[j] == cluster[1..][j - 1]; }
            }
          }
          assert cluster[k + 1] == rest.value;
        }
      }
      rest
  }

  // ---------------------------------------------------------------------
  // The backup-fetch command line

  /** The seven parts of the command, before they are joined by spaces. */
  function FetchCommandParts(port: int, dataDir: string, contentID: int, userData: string,
                             cfgFile: string): seq<string>
  {
    [ "WALG_LOG_LEVEL=DEVEL",
      "PGPORT=" + IntToString(port),
      "wal-g pg",
      "backup-fetch " + dataDir,
      "--walg-storage-prefix=" + IntToString(contentID),
      "--target-user-data=" + userData,
      "--config=" + cfgFile ]
  }

  function FetchCommandLine(port: int, dataDir: string, contentID: int, userData: string,
                            cfgFile: string): string
  {
    Join(FetchCommandParts(port, dataDir, contentID, userData, cfgFile), " ")
  }

  /** The words a shell sees in the command line. */
  function FetchCommandWords(port: int, dataDir: string, contentID: int, userData: string,
                             cfgFile: string): seq<string>
  {
    [ "WALG_LOG_LEVEL=DEVEL",
      "PGPORT=" + IntToString(port),
      "wal-g", "pg",
      "backup-fetch", dataDir,
      "--walg-storage-prefix=" + IntToString(contentID),
      "--target-user-data=" + userData,
      "--config=" + cfgFile ]
  }

  const PortFlag := "PGPORT="
  const StoragePrefixFlag := "--walg-storage-prefix="

  /**
   * When the data directory, the user data and the config path hold no
   * space, splitting the command line on spaces gives the command's nine
   * words, and the port and the storage prefix read back as the numbers
   * that were printed.
   */
  lemma FetchCommandWordsRoundTrip(port: int, dataDir: string, contentID: int, userData: string, cfgFile: string)
    requires ' ' !in dataDir && ' ' !in userData && ' ' !in cfgFile
    ensures var words := FetchCommandWords(port, dataDir, contentID, userData, cfgFile);
            && Split(FetchCommandLine(port, dataDir, contentID, userData, cfgFile), ' ') == words
            && HasPrefix(words[1], PortFlag) && ParseInt(words[1][|PortFlag|..]) == Some(port)
            && HasPrefix(words[6], StoragePrefixFlag) && ParseInt(words[6][|StoragePrefixFlag|..]) == Some(contentID)
  {
    var words := FetchCommandWords(port, dataDir, contentID, userData, cfgFile);
    FetchCommandLineJoinsWords(port, dataDir, contentID, userData, cfgFile);
    FetchCommandWordsHaveNoSpace(port, dataDir, contentID, userData, cfgFile);
    SplitJoin(words, ' ');
    IntToStringRoundTrip(port);
    IntToStringRoundTrip(contentID);
    assert words[1][|PortFlag|..] == IntToString(port);
    assert words[6][|StoragePrefixFlag|..] == IntToString(contentID);
  }

  /** The command line is its nine words joined by spaces. */
  lemma FetchCommandLineJoinsWords(port: int, dataDir: string, contentID: int, userData: string, cfgFile: string)
    ensures FetchCommandLine(port, dataDir, contentID, userData, cfgFile)
         == Join(FetchCommandWords(port, dataDir, contentID, userData, cfgFile), " ")
  {
    var a, b := "WALG_LOG_LEVEL=DEVEL", PortFlag + IntToString(port);
    var e, f, g := StoragePrefixFlag + IntToString(contentID), "--target-user-data=" + userData, "--config=" + cfgFile;
    SplitCommandName(a, b, dataDir, e, f, g);
    assert "wal-g pg" == "wal-g" + " " + "pg";
    assert FetchCommandParts(port, dataDir, contentID, userData, cfgFile) == [a, b] + ["wal-g" + " " + "pg"] + ["backup-fetch " + dataDir, e, f, g];
    JoinMerge([a, b, "wal-g", "pg"], "backup-fetch", dataDir, [e, f, g], " ");
    assert [a, b, "wal-g", "pg"] + ["backup-fetch", dataDir] + [e, f, g]
        == FetchCommandWords(port, dataDir, contentID, userData, cfgFile);
  }

  /** First step: the part `wal-g pg` becomes two words. */
  lemma SplitCommandName(a: string, b: string, dataDir: string, e: string, f: string, g: string)
    ensures Join([a, b] + ["wal-g" + " " + "pg"] + ["backup-fetch " + dataDir, e, f, g], " ")
         == Join([a, b, "wal-g", "pg"] + ["backup-fetch" + " " + dataDir] + [e, f, g], " ")
  {
    var d := "backup-fetch " + dataDir;
    assert d == "backup-fetch" + " " + dataDir;
    JoinMerge([a, b], "wal-g", "pg", [d, e, f, g], " ");
    assert [a, b] + ["wal-g", "pg"] + [d, e, f, g] == [a, b, "wal-g", "pg"] + [d] + [e, f, g];
  }

  lemma FetchCommandWordsHaveNoSpace(port: int, dataDir: string, contentID: int, userData: string, cfgFile: string)
    requires ' ' !in dataDir && ' ' !in userData && ' ' !in cfgFile
    ensures var words := FetchCommandWords(port, dataDir, contentID, userData, cfgFile);
            forall i :: 0 <= i < |words| ==> ' ' !in words[i]
  {
    var words := FetchCommandWords(port, dataDir, contentID, userData, cfgFile);
    FlagsHaveNoSpace();
    IntToStringHasNoSpace(port, ' ');
    IntToStringHasNoSpace(contentID, ' ');
    CharNotInConcat(' ', PortFlag, IntToString(port));
    CharNotInConcat(' ', StoragePrefixFlag, IntToString(contentID));
    CharNotInConcat(' ', "--target-user-data=", userData);
    CharNotInConcat(' ', "--config=", cfgFile);
    forall i | 0 <= i < |words| ensures ' ' !in words[i] {
      if i == 1 {
        assert words[i] == PortFlag + IntToString(port);
      } else if i == 6 {
        assert words[i] == StoragePrefixFlag + IntToString(contentID);
      } else if i == 7 {
        assert words[i] == "--target-user-data=" + userData;
      } else if i == 8 {
        assert words[i] == "--config=" + cfgFile;
      }
    }
  }

  lemma FlagsHaveNoSpace()
    ensures ' ' !in "WALG_LOG_LEVEL=DEVEL" && ' ' !in PortFlag && ' ' !in "wal-g" && ' ' !in "pg"
    ensures ' ' !in "backup-fetch" && ' ' !in StoragePrefixFlag
    ensures ' ' !in "--target-user-data=" && ' ' !in "--config="
  {
  }

  const IndexOutOfRange := "runtime error: index out of range [0] with length 0"

  function MissingBackupIDMessage(contentID: int): string {
    "Failed to load backup id by content id " + IntToString(contentID)
  }

  /**
   * `buildFetchCommand`. `quoteUserData` stands for
   * `NewSegmentUserDataFromID(id).QuotedString()` and `cfgFile` for `internal.CfgFile`.
   * A content ID absent from the cluster makes Go's slice index panic; one
   * without a backup ID is the fatal log; both are error results.
   */
  function BuildFetchCommand(h: FetchHandler, contentID: int, quoteUserData: string -> string,
                             cfgFile: string): (r: Result<string>)
    ensures r.Ok? <==> SegmentByContent(h.cluster, contentID).Some? && contentID in h.backupIDByContentID
    ensures SegmentByContent(h.cluster, contentID).Some? && contentID !in h.backupIDByContentID ==>
              r == Err(MissingBackupIDMessage(contentID))
    ensures r.Ok? ==>
              var segment := SegmentByContent(h.cluster, contentID).value;
              var userData := quoteUserData(h.backupIDByContentID[contentID]);
              ' ' !in segment.dataDir && ' ' !in userData && ' ' !in cfgFile ==>
                Split(r.value, ' ') == FetchCommandWords(segment.port, segment.dataDir, contentID, userData, cfgFile)
  {
    match SegmentByContent(h.cluster, contentID)
    case None => Err(IndexOutOfRange)
    case Some(segment) =>
      if contentID !in h.backupIDByContentID then Err(MissingBackupIDMessage(contentID))
      else
        var userData := quoteUserData(h.backupIDByContentID[contentID]);
        var cmdLine := FetchCommandLine(segment.port, segment.dataDir, segment.contentID, userData, cfgFile);
        assert ' ' !in segment.dataDir && ' ' !in userData && ' ' !in cfgFile ==>
                 Split(cmdLine, ' ') == FetchCommandWords(segment.port, segment.dataDir, contentID, userData, cfgFile) by {
          if ' ' !in segment.dataDir && ' ' !in userData && ' ' !in cfgFile {
            FetchCommandWordsRoundTrip(segment.port, segment.dataDir, segment.contentID, userData, cfgFile);
          }
        }
        Ok(cmdLine)
  }

  /**
   * For a handler planned from a sentinel, the fetch command exists exactly
   * for the content IDs of primary segments; it restores into the data
   * directory and port the restore configuration gives that content ID, with
   * the backup ID of its (last) primary.
   */
  lemma FetchCommandOfPlannedHandler(h: FetchHandler, backupName: string, segments: seq<SegmentMetadata>,
                                     restoreCfg: ClusterRestoreConfig, contentID: int,
                                     quoteUserData: string -> string, cfgFile: string)
    requires PlannedFrom(h, backupName, segments, restoreCfg)
    ensures var r := BuildFetchCommand(h, contentID, quoteUserData, cfgFile);
            && (r.Ok? <==> exists m :: m in segments && m.role == Primary && m.contentID == contentID)
            && (r.Ok? ==>
                  && contentID in restoreCfg.segments
                  && contentID in BackupIDsOf(Primaries(segments))
                  && var place := restoreCfg.segments[contentID];
                     r.value == FetchCommandLine(place.port, place.dataDir, contentID,
                                                 quoteUserData(BackupIDsOf(Primaries(segments))[contentID]), cfgFile))
  {
    var ps := Primaries(segments);
    PrimariesAreThePrimarySegments(segments);
    BackupIDsOfLastWins(ps);
    var found := SegmentByContent(h.cluster, contentID);
    if found.Some? {
      var i :| 0 <= i < |h.cluster| && h.cluster[i] == found.value;
      assert ps[i] in ps;
    } else {
      assert forall i :: 0 <= i < |ps| ==> ps[i].contentID != contentID;
      assert forall m :: m in ps ==> m.contentID != contentID;
    }
  }

  // ---------------------------------------------------------------------
  // Uploading configuration files with a here-document

  const HeredocHead := "cat > "
  const HeredocOpen := " << EOF"
  const HeredocClose := "\nEOF"

  /** `fmt.Sprintf("cat > %s << EOF\n%s\nEOF", target, contents)`. */
  function HeredocUploadCommand(target: string, contents: string): string {
    HeredocHead + target + HeredocOpen + "\n" + contents + HeredocClose
  }

  /** Reads back the target path and the file contents of a here-document upload. */
  function ParseHeredocUpload(cmd: string): Option<(string, string)> {
    match IndexOf(cmd, '\n')
    case None => None
    case Some(k) =>
      var line, body := cmd[..k], cmd[k + 1..];
      if |line| >= |HeredocHead| + |HeredocOpen| && HasPrefix(line, HeredocHead)
         && HasSuffix(line, HeredocOpen) && HasSuffix(body, HeredocClose)
      then Some((line[|HeredocHead|..|line| - |HeredocOpen|], body[..|body| - |HeredocClose|]))
      else None
  }

  /** A target path without a line break and any contents are recovered from the command. */
  lemma HeredocRoundTrip(target: string, contents: string)
    requires '\n' !in target
    ensures ParseHeredocUpload(HeredocUploadCommand(target, contents)) == Some((target, contents))
  {
    var line := HeredocHead + target + HeredocOpen;
    var body := contents + HeredocClose;
    var cmd := HeredocUploadCommand(target, contents);
    assert cmd == line + ['\n'] + body;
    assert '\n' !in HeredocHead && '\n' !in HeredocOpen;
    IndexOfFirst(line, body, '\n');
    assert cmd[..|line|] == line;
    assert cmd[|line| + 1..] == body;
    assert line[|HeredocHead|..|line| - |HeredocOpen|] == target;
  }

  const PgHbaFile := "pg_hba.conf"
  const RecoveryConfFile := "recovery.conf"
  const RecoveryWalgPath := "/usr/bin/wal-g"

  /**
   * The command `createPgHbaOnSegments` sends to the segment with content ID
   * `contentID`: write `fileContents` (the pg_hba maker's output) into
   * `pg_hba.conf` of that segment's data directory.
   */
  function PgHbaUploadCommand(h: FetchHandler, contentID: int, fileContents: string): (r: Result<string>)
    ensures r.Ok? <==> SegmentByContent(h.cluster, contentID).Some?
    ensures r.Ok? && '\n' !in SegmentByContent(h.cluster, contentID).value.dataDir ==>
              ParseHeredocUpload(r.value) ==
                Some((PathJoin(SegmentByContent(h.cluster, contentID).value.dataDir, PgHbaFile), fileContents))
  {
    match SegmentByContent(h.cluster, contentID)
    case None => Err(IndexOutOfRange)
    case Some(segment) =>
      var pathToHba := PathJoin(segment.dataDir, PgHbaFile);
      var cmd := HeredocUploadCommand(pathToHba, fileContents);
      assert '\n' !in segment.dataDir ==> ParseHeredocUpload(cmd) == Some((pathToHba, fileContents)) by {
        if '\n' !in segment.dataDir {
          HeredocRoundTrip(pathToHba, fileContents);
        }
      }
      Ok(cmd)
  }

  /**
   * The command `createRecoveryConfigs` sends to the segment with content ID
   * `contentID`. `makeRecoveryConf(walgPath, cfgFile, backupName, contentID)`
   * stands for `NewRecoveryConfigMaker(walgPath, cfgFile, backupName).Make(contentID)`.
   */
  function RecoveryConfUploadCommand(h: FetchHandler, contentID: int, cfgFile: string,
                                     makeRecoveryConf: (string, string, string, int) -> string): (r: Result<string>)
    ensures r.Ok? <==> SegmentByContent(h.cluster, contentID).Some?
    ensures r.Ok? && '\n' !in SegmentByContent(h.cluster, contentID).value.dataDir ==>
              ParseHeredocUpload(r.value) ==
                Some((PathJoin(SegmentByContent(h.cluster, contentID).value.dataDir, RecoveryConfFile),
                      makeRecoveryConf(RecoveryWalgPath, cfgFile, h.backupName, contentID)))
  {
    match SegmentByContent(h.cluster, contentID)
    case None => Err(IndexOutOfRange)
    case Some(segment) =>
      var pathToRestore := PathJoin(segment.dataDir, RecoveryConfFile);
      var fileContents := makeRecoveryConf(RecoveryWalgPath, cfgFile, h.backupName, contentID);
      var cmd := HeredocUploadCommand(pathToRestore, fileContents);
      assert '\n' !in segment.dataDir ==> ParseHeredocUpload(cmd) == Some((pathToRestore, fileContents)) by {
        if '\n' !in segment.dataDir {
          HeredocRoundTrip(pathToRestore, fileContents);
        }
      }
      Ok(cmd)
  }
}
