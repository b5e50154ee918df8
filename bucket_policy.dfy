// The bucket rules of the test cluster (lib/cluster.py): which bucket names a
// Sync Gateway config may use in each run mode, and when the Couchbase Server
// buckets must be dropped and recreated before a test session.

module BucketPolicy {

  /** The two topologies the functional tests run against. */
  datatype RunMode = ChannelCache | DistributedIndex

  /** The options a test session was started with: its run mode and whether a
      full bucket reset was asked for on the command line. */
  datatype RunOpts = RunOpts(mode: RunMode, reset: bool)

  /** What the `mode` argument of the bucket-name validation holds: a run mode,
      or some other object (the whole run options, as `reset` passes them),
      which is equal to neither mode. */
  datatype ModeArg = Mode(mode: RunMode) | NotAMode

  const DataBucket: string := "data-bucket"
  const IndexBucket: string := "index-bucket"

  /** The bucket set a config uses when it follows the single-bucket (or
      data + index bucket) convention of the given mode. */
  function ModeBuckets(mode: RunMode): set<string>
  {
    match mode
    case ChannelCache => {DataBucket}
    case DistributedIndex => {DataBucket, IndexBucket}
  }

  /** A one-element set holding `x` is exactly `{x}`. */
  lemma SingletonSet(s: set<string>, x: string)
    requires |s| == 1 && x in s
    ensures s == {x}
  {
    var rest := s - {x};
    assert |rest| == 0;
    assert rest == {};
  }

  /** A two-element set holding `x` and `y` is exactly `{x, y}`. */
  lemma PairSet(s: set<string>, x: string, y: string)
    requires |s| == 2 && x in s && y in s && x != y
    ensures s == {x, y}
  {
    var rest := s - {x, y};
    assert |s - {x, y}| == |s| - |{x, y}|;
    assert rest == {};
  }

  /** validate_config_bucket_names: returns normally (true) or fails its
      assertion (false). Configs with more buckets than the mode's convention
      are exempt; otherwise the config must use exactly the mode's buckets. An
      argument that is not a run mode matches neither branch and passes. */
  function ValidateConfigBucketNames(mode: ModeArg, names: set<string>): (passes: bool)
    ensures mode.NotAMode? ==> passes
    ensures mode == Mode(ChannelCache) ==>
      (passes <==> |names| > 1 || names == ModeBuckets(ChannelCache))
    ensures mode == Mode(DistributedIndex) ==>
      (passes <==> |names| > 2 || names == ModeBuckets(DistributedIndex))
  {
    if (mode == Mode(ChannelCache) && |names| > 1)
       || (mode == Mode(DistributedIndex) && |names| > 2) then
      true
    else if mode == Mode(ChannelCache) then
      if |names| == 1 && DataBucket in names then
        SingletonSet(names, DataBucket);
        true
      else
        false
    else if mode == Mode(DistributedIndex) then
      if |names| == 2 && DataBucket in names && IndexBucket in names then
        PairSet(names, DataBucket, IndexBucket);
        true
      else
        false
    else
      true
  }

  /** should_server_reset: the first rule that fires decides, in the source's
      order — an explicit reset request, a bucket count that does not fit the
      mode, then a mode change told apart by the presence of the index bucket.
      Only the number of buckets and the index bucket are looked at. */
  function ShouldServerReset(opts: RunOpts, existing: set<string>): (reset: bool)
    ensures reset <==> opts.reset
                       || |existing| != |ModeBuckets(opts.mode)|
                       || (IndexBucket in existing <==> opts.mode == ChannelCache)
  {
    assert |ModeBuckets(DistributedIndex)| == 2;
    if opts.reset then true
    else if |existing| != 1 && opts.mode == ChannelCache then true
    else if |existing| != 2 && opts.mode == DistributedIndex then true
    else if opts.mode == DistributedIndex && IndexBucket !in existing then true
    else if opts.mode == ChannelCache && IndexBucket in existing then true
    else false
  }

  /** Without a reset request, a server holding exactly the mode's buckets
      keeps them. */
  lemma ModeBucketsAreKept(mode: RunMode)
    ensures !ShouldServerReset(RunOpts(mode, false), ModeBuckets(mode))
  {
  }

  /** The bucket names other than the index bucket are never inspected: a
      channel cache server holding any single non-index bucket is kept, and
      so is a distributed index server holding the index bucket and any
      other one. */
  lemma OtherBucketNamesAreNotChecked(x: string)
    requires x != IndexBucket
    ensures !ShouldServerReset(RunOpts(ChannelCache, false), {x})
    ensures !ShouldServerReset(RunOpts(DistributedIndex, false), {x, IndexBucket})
  {
    assert |{x, IndexBucket}| == 2;
  }

  /** A reset request always wins, whatever buckets exist. */
  lemma ResetRequestForcesReset(mode: RunMode, existing: set<string>)
    ensures ShouldServerReset(RunOpts(mode, true), existing)
  {
  }

  /** Switching mode between sessions recreates the buckets: the buckets left
      by one mode are never kept by the other. */
  lemma ModeChangeForcesReset(opts: RunOpts, previous: RunMode)
    requires previous != opts.mode
    ensures ShouldServerReset(opts, ModeBuckets(previous))
  {
    assert IndexBucket in ModeBuckets(DistributedIndex);
  }

  /** A config that the validation exempts because it uses several buckets
      makes every session reset the server, even when nothing changed. */
  lemma MultiBucketConfigsAlwaysReset(opts: RunOpts, names: set<string>)
    requires ValidateConfigBucketNames(Mode(opts.mode), names)
    requires names != ModeBuckets(opts.mode)
    ensures ShouldServerReset(opts, names)
    ensures |names| > |ModeBuckets(opts.mode)|
  {
    assert |ModeBuckets(DistributedIndex)| == 2;
  }

  /** A config that names only the data bucket passes in channel cache mode,
      and a server holding just that bucket is kept. */
  lemma ChannelCacheConventionKept()
    ensures ValidateConfigBucketNames(Mode(ChannelCache), {DataBucket})
    ensures !ShouldServerReset(RunOpts(ChannelCache, false), {DataBucket})
    ensures ShouldServerReset(RunOpts(ChannelCache, false), {DataBucket, IndexBucket})
  {
    assert |{DataBucket, IndexBucket}| == 2;
  }

  /** In distributed index mode a config naming only the data bucket fails
      validation, and the server holding only that bucket is reset. */
  lemma DistributedIndexNeedsIndexBucket()
    ensures !ValidateConfigBucketNames(Mode(DistributedIndex), {DataBucket})
    ensures ShouldServerReset(RunOpts(DistributedIndex, false), {DataBucket})
  {
  }
}
