/** The decoded configuration tree of the Windows file follower and the
    collaborators it is checked against. */
module ConfigTypes {
  import opened Wrappers

  /** One `[Follower "name"]` section: a directory to watch and how to tag what it yields. */
  datatype FollowType = FollowType(
    baseDirectory: string,       // the directory being watched
    fileFilter: string,          // the glob files must match
    tagName: string,
    ignoreTimestamps: bool,      // stamp lines with their arrival time instead
    assumeLocalTimezone: bool)

  /** The `[Global]` section. */
  datatype Global = Global(
    stateStoreLocation: string,
    ingestSecret: string,
    connectionTimeout: string,
    verifyRemoteCertificates: bool,
    cleartextBackendTarget: seq<string>,
    encryptedBackendTarget: seq<string>,
    pipeBackendTarget: seq<string>,
    logLevel: string,
    ingestCachePath: string)

  /** The whole configuration. The followers, a map from section name to entry in
      the program, are a sequence of (name, entry) pairs in one fixed iteration
      order, so that every order-dependent result is determined by that order. */
  datatype Config = Config(global: Global, follower: seq<(string, FollowType)>)

  /** The follower names are pairwise distinct, as the keys of a map are. */
  predicate DistinctNames(fs: seq<(string, FollowType)>) {
    forall i, j :: 0 <= i < j < |fs| ==> fs[i].0 != fs[j].0
  }

  /** The tag a follower without one is given. */
  const DefaultTag: string := "default"

  /** The refusal of a configuration. Follower errors name the offending follower. */
  datatype Error =
    | ConfigTooLarge
    | IncompleteRead
    | MalformedConfig
    | UnparseableTimeout
    | NegativeTimeout
    | MissingSecret
    | NoBackendTargets
    | NoFollowers
    | MissingBaseDirectory(follower: string)
    | InvalidTagName(follower: string)
    | NoConnections
    | NoTags

  /** The library code the configuration layer calls but does not define: Go's
      `time.ParseDuration` (a duration in nanoseconds, or a rejection),
      `filepath.Clean`, and the ingest library's forbidden tag characters. */
  datatype Env = Env(
    parseDuration: string -> Option<int>,
    clean: string -> string,
    forbiddenTagSet: set<char>)
}
