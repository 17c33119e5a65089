/**
 * Feature-file selection and container naming of the functional-test
 * harness (tests_func/testcontext.go).
 *
 * The directory listing (`ioutil.ReadDir`) and the parsed process
 * environment are parameters; a listing is the file names in the order
 * `ReadDir` returns them, or the error it returned.
 */
module TestContext {
  import opened Wrappers
  import opened Strings

  const FeaturesDir := "features"
  const FeatureExt := ".feature"
  const TestNetInfix := ".test_net_"

  /** Reading a Go `map[string]string`: a missing key reads as the empty string. */
  function EnvValue(env: map<string, string>, key: string): string {
    if key in env then env[key] else ""
  }

  /** `ContainerFQDN`: `<name>.test_net_<TEST_ID>`. */
  function ContainerFQDN(env: map<string, string>, name: string): (r: string)
    ensures HasPrefix(r, name + TestNetInfix) && HasSuffix(r, EnvValue(env, "TEST_ID"))
    ensures |r| == |name| + |TestNetInfix| + |EnvValue(env, "TEST_ID")|
  {
    name + TestNetInfix + EnvValue(env, "TEST_ID")
  }

  /**
   * When neither the container name nor the test ID holds a dot, the first
   * label of the domain name is the container name and the second names the
   * test network.
   */
  lemma ContainerFQDNLabels(env: map<string, string>, name: string)
    requires '.' !in name && '.' !in EnvValue(env, "TEST_ID")
    ensures Split(ContainerFQDN(env, name), '.') == [name, "test_net_" + EnvValue(env, "TEST_ID")]
  {
    var rest := "test_net_" + EnvValue(env, "TEST_ID");
    assert ContainerFQDN(env, name) == name + ['.'] + rest;
    SplitAtFirst(name, rest, '.');
    SplitNoSeparator(rest, '.');
  }

  // ---------------------------------------------------------------------
  // scanFeatureDirs

  predicate IsFeatureFile(filename: string) {
    HasSuffix(filename, FeatureExt)
  }

  /** An empty prefix filters nothing. */
  predicate PassesPrefix(filename: string, featurePrefix: string) {
    featurePrefix == "" || HasPrefix(filename, featurePrefix)
  }

  predicate IsSelected(filename: string, featurePrefix: string) {
    PassesPrefix(filename, featurePrefix) && IsFeatureFile(filename)
  }

  /** The file name without its `.feature` suffix. */
  function FeatureName(filename: string): (name: string)
    requires IsFeatureFile(filename)
    ensures name + FeatureExt == filename
  {
    assert filename == filename[..|filename| - |FeatureExt|] + filename[|filename| - |FeatureExt|..];
    filename[..|filename| - |FeatureExt|]
  }

  lemma FeatureNameOfFeatureFile(name: string)
    ensures IsFeatureFile(name + FeatureExt) && FeatureName(name + FeatureExt) == name
  {
    assert (name + FeatureExt)[|name|..] == FeatureExt;
  }

  function FeatureNames(files: seq<string>, featurePrefix: string): set<string> {
    set f | f in files && IsSelected(f, featurePrefix) :: FeatureName(f)
  }

  /** Reference: the selected files of `files`, keyed by feature name, each mapped to its path under `dir`. */
  function SelectFeatures(dir: string, files: seq<string>, featurePrefix: string): map<string, string> {
    map name | name in FeatureNames(files, featurePrefix) :: PathJoin(dir, name + FeatureExt)
  }

  function FeatureNotFoundMessage(requestedFeature: string): string {
    "requested feature is not found: " + requestedFeature
  }

  /**
   * Reference result of `scanFeatureDirs`: a requested feature narrows the
   * files to its own file, which must exist.
   */
  function ScanFeatures(dbName: string, featurePrefix: string, requestedFeature: string,
                        listing: Result<seq<string>>): Result<map<string, string>>
  {
    match listing
    case Err(e) => Err(e)
    case Ok(files) =>
      if requestedFeature != "" && requestedFeature + FeatureExt !in files then
        Err(FeatureNotFoundMessage(requestedFeature))
      else
        var considered := if requestedFeature != "" then [requestedFeature + FeatureExt] else files;
        Ok(SelectFeatures(PathJoin(FeaturesDir, dbName), considered, featurePrefix))
  }

  lemma SelectFeaturesAppend(dir: string, files: seq<string>, filename: string, featurePrefix: string)
    ensures SelectFeatures(dir, files + [filename], featurePrefix) ==
              if IsSelected(filename, featurePrefix)
              then SelectFeatures(dir, files, featurePrefix)[FeatureName(filename) := PathJoin(dir, filename)]
              else SelectFeatures(dir, files, featurePrefix)
  {
    var before := FeatureNames(files, featurePrefix);
    var after := FeatureNames(files + [filename], featurePrefix);
    if IsSelected(filename, featurePrefix) {
      assert after == before + {FeatureName(filename)};
    } else {
      assert after == before;
    }
  }

  /** `scanFeatureDirs`, with the listing of `features/<dbName>` and the environment passed in. */
  method ScanFeatureDirs(dbName: string, featurePrefix: string, listing: Result<seq<string>>,
                         environ: map<string, string>) returns (r: Result<map<string, string>>)
    ensures r == ScanFeatures(dbName, featurePrefix, EnvValue(environ, "FEATURE"), listing)
  {
    var dir := PathJoin(FeaturesDir, dbName);
    if listing.Err? {
      return Err(listing.error);
    }
    var files := listing.value;

    var requestedFeature := EnvValue(environ, "FEATURE");
    if requestedFeature != "" {
      var found := false;
      var i := 0;
      while i < |files|
        invariant 0 <= i <= |files|
        invariant files == listing.value && !found
        invariant forall k :: 0 <= k < i ==> files[k] != requestedFeature + FeatureExt
      {
        var filename := files[i];
        if filename == requestedFeature + FeatureExt {
          files := [files[i]];
          found := true;
          break;
        }
        i := i + 1;
      }
      if !found {
        return Err(FeatureNotFoundMessage(requestedFeature));
      }
    }

    var foundFeatures: map<string, string> := map[];
    for j := 0 to |files|
      invariant foundFeatures == SelectFeatures(dir, files[..j], featurePrefix)
    {
      var filename := files[j];
      SelectFeaturesAppend(dir, files[..j], filename, featurePrefix);
      assert files[..j + 1] == files[..j] + [filename];
      if featurePrefix != "" && !HasPrefix(filename, featurePrefix) {
        continue;
      }
      if HasSuffix(filename, FeatureExt) {
        var featureName := filename[0..|filename| - |FeatureExt|];
        foundFeatures := foundFeatures[featureName := PathJoin(dir, filename)];
      }
    }
    assert files[..|files|] == files;
    return Ok(foundFeatures);
  }

  // ---------------------------------------------------------------------
  // What the selection promises

  /** The listing error, or a requested feature without its file, and nothing else, is an error. */
  lemma ScanFeaturesErrors(dbName: string, featurePrefix: string, requestedFeature: string,
                           listing: Result<seq<string>>)
    ensures ScanFeatures(dbName, featurePrefix, requestedFeature, listing).Err? <==>
              listing.Err? || (requestedFeature != "" && requestedFeature + FeatureExt !in listing.value)
    ensures listing.Ok? && requestedFeature != "" && requestedFeature + FeatureExt !in listing.value ==>
              ScanFeatures(dbName, featurePrefix, requestedFeature, listing) == Err(FeatureNotFoundMessage(requestedFeature))
  {
  }

  /**
   * Characterization of the selected features: `name` is a key exactly when
   * `name.feature` is one of the files considered and passes the prefix
   * filter, and it maps to `features/<dbName>/<name>.feature`.
   */
  lemma {:induction false} SelectFeaturesEntries(dir: string, files: seq<string>, featurePrefix: string, name: string)
    ensures name in SelectFeatures(dir, files, featurePrefix) <==>
              name + FeatureExt in files && PassesPrefix(name + FeatureExt, featurePrefix)
    ensures name in SelectFeatures(dir, files, featurePrefix) ==>
              SelectFeatures(dir, files, featurePrefix)[name] == PathJoin(dir, name + FeatureExt)
  {
    FeatureNameOfFeatureFile(name);
    if name in FeatureNames(files, featurePrefix) {
      var f :| f in files && IsSelected(f, featurePrefix) && FeatureName(f) == name;
      assert f == name + FeatureExt;
    }
    if name + FeatureExt in files && PassesPrefix(name + FeatureExt, featurePrefix) {
      assert IsSelected(name + FeatureExt, featurePrefix);
    }
  }

  /** Every entry comes from a `.feature` file that carries the prefix (when one is given). */
  lemma ScanFeaturesEntriesAreFeatureFiles(dbName: string, featurePrefix: string, requestedFeature: string,
                                           files: seq<string>, name: string)
    requires ScanFeatures(dbName, featurePrefix, requestedFeature, Ok(files)).Ok?
    ensures var m := ScanFeatures(dbName, featurePrefix, requestedFeature, Ok(files)).value;
            name in m ==>
              && name + FeatureExt in files
              && (featurePrefix != "" ==> HasPrefix(name + FeatureExt, featurePrefix))
              && (requestedFeature != "" ==> name == requestedFeature)
              && m[name] == PathJoin(PathJoin(FeaturesDir, dbName), name + FeatureExt)
  {
    var considered := if requestedFeature != "" then [requestedFeature + FeatureExt] else files;
    SelectFeaturesEntries(PathJoin(FeaturesDir, dbName), considered, featurePrefix, name);
    if requestedFeature != "" && name + FeatureExt in considered {
      assert name + FeatureExt == requestedFeature + FeatureExt;
      assert name == (name + FeatureExt)[..|name|];
    }
  }

  /** Without a requested feature and with an empty prefix, every `.feature` file is found. */
  lemma ScanFeaturesFindsEveryFeatureFile(dbName: string, files: seq<string>, filename: string)
    requires filename in files && IsFeatureFile(filename)
    ensures var r := ScanFeatures(dbName, "", "", Ok(files));
            r.Ok? && FeatureName(filename) in r.value
            && r.value[FeatureName(filename)] == PathJoin(PathJoin(FeaturesDir, dbName), filename)
  {
    SelectFeaturesEntries(PathJoin(FeaturesDir, dbName), files, "", FeatureName(filename));
  }

  /**
   * A requested feature that exists is the only candidate: the result is
   * that one feature when it passes the prefix filter, and empty (not an
   * error) when it does not.
   */
  lemma ScanFeaturesRequested(dbName: string, featurePrefix: string, requestedFeature: string, files: seq<string>)
    requires requestedFeature != "" && requestedFeature + FeatureExt in files
    ensures var r := ScanFeatures(dbName, featurePrefix, requestedFeature, Ok(files));
            r.Ok? &&
            r.value == if PassesPrefix(requestedFeature + FeatureExt, featurePrefix)
                       then map[requestedFeature := PathJoin(PathJoin(FeaturesDir, dbName), requestedFeature + FeatureExt)]
                       else map[]
  {
    var dir := PathJoin(FeaturesDir, dbName);
    var m := SelectFeatures(dir, [requestedFeature + FeatureExt], featurePrefix);
    var expected := if PassesPrefix(requestedFeature + FeatureExt, featurePrefix)
                    then map[requestedFeature := PathJoin(dir, requestedFeature + FeatureExt)]
                    else map[];
    forall name ensures (name in m <==> name in expected) && (name in m ==> m[name] == expected[name]) {
      SelectFeaturesEntries(dir, [requestedFeature + FeatureExt], featurePrefix, name);
      if name + FeatureExt == requestedFeature + FeatureExt {
        assert name == (name + FeatureExt)[..|name|];
      }
    }
    assert m == expected;
  }
}
