// The bucket names a Sync Gateway config refers to (get_bucket_names_from_conf
// in lib/cluster.py), over the already-parsed config object.

module SgConfig {
  import opened Results

  /** The optional `cluster_config` section: it names the CBGT bucket. */
  datatype ClusterConfig = ClusterConfig(bucket: Option<string>)

  /** The optional `channel_index` section of a database: its index bucket. */
  datatype ChannelIndex = ChannelIndex(bucket: Option<string>)

  /** One entry of `databases`; a missing `bucket` key is `None`. */
  datatype Database = Database(bucket: Option<string>, channelIndex: Option<ChannelIndex>)

  /** The parsed config: the `databases` entries in the dictionary's iteration
      order (their names play no part here). */
  datatype Config = Config(clusterConfig: Option<ClusterConfig>, databases: Option<seq<Database>>)

  /** The KeyError a missing key raises, with the key that was looked up. */
  datatype ConfigError = MissingKey(key: string)

  /** Every key that the extraction looks up in one database is present. */
  predicate DatabaseComplete(db: Database)
  {
    db.bucket.Some? && (db.channelIndex.Some? ==> db.channelIndex.value.bucket.Some?)
  }

  /** `n` is the data bucket or the index bucket of `db`. */
  predicate NamesBucket(db: Database, n: string)
  {
    db.bucket == Some(n) || (db.channelIndex.Some? && db.channelIndex.value.bucket == Some(n))
  }

  /** Every key that the extraction looks up in the config is present. */
  predicate Complete(c: Config)
  {
    && (c.clusterConfig.Some? ==> c.clusterConfig.value.bucket.Some?)
    && c.databases.Some?
    && forall i | 0 <= i < |c.databases.value| :: DatabaseComplete(c.databases.value[i])
  }

  /** The buckets one database adds: its data bucket, then its index bucket. */
  function DatabaseBucketNames(db: Database): (r: Result<seq<string>, ConfigError>)
    ensures r.Ok? <==> DatabaseComplete(db)
    ensures r.Err? ==> r.error == MissingKey("bucket")
    ensures r.Ok? ==> forall n :: n in r.value <==> NamesBucket(db, n)
  {
    match db.bucket
    case None => Err(MissingKey("bucket"))
    case Some(b) =>
      match db.channelIndex
      case None => Ok([b])
      case Some(index) =>
        match index.bucket
        case None => Err(MissingKey("bucket"))
        case Some(ib) => Ok([b, ib])
  }

  /** The buckets of the databases, in iteration order; the first database
      with a missing key raises. */
  function DatabasesBucketNames(dbs: seq<Database>): (r: Result<seq<string>, ConfigError>)
    ensures r.Ok? <==> forall i | 0 <= i < |dbs| :: DatabaseComplete(dbs[i])
    ensures r.Err? ==> r.error == MissingKey("bucket")
  {
    if dbs == [] then Ok([])
    else
      match DatabasesBucketNames(dbs[..|dbs| - 1])
      case Err(e) => Err(e)
      case Ok(names) =>
        match DatabaseBucketNames(dbs[|dbs| - 1])
        case Err(e) => Err(e)
        case Ok(more) => Ok(names + more)
  }

  /** get_bucket_names_from_conf on a parsed config: the CBGT bucket first,
      when there is a cluster config, then the databases' buckets. */
  function ConfigBucketNames(c: Config): (r: Result<seq<string>, ConfigError>)
    ensures r.Ok? <==> Complete(c)
  {
    if c.clusterConfig.Some? && c.clusterConfig.value.bucket.None? then
      Err(MissingKey("bucket"))
    else
      var cbgt := if c.clusterConfig.Some? then [c.clusterConfig.value.bucket.value] else [];
      match c.databases
      case None => Err(MissingKey("databases"))
      case Some(dbs) =>
        match DatabasesBucketNames(dbs)
        case Err(e) => Err(e)
        case Ok(names) => Ok(cbgt + names)
  }

  /** A database's buckets are listed exactly when some database names them. */
  lemma {:induction false} DatabasesBucketNamesMembers(dbs: seq<Database>, n: string)
    requires DatabasesBucketNames(dbs).Ok?
    ensures n in DatabasesBucketNames(dbs).value
            <==> exists i | 0 <= i < |dbs| :: NamesBucket(dbs[i], n)
  {
    if dbs != [] {
      var init := dbs[..|dbs| - 1];
      assert forall i | 0 <= i < |init| :: init[i] == dbs[i];
      DatabasesBucketNamesMembers(init, n);
      var last := dbs[|dbs| - 1];
      if NamesBucket(last, n) {
        assert n in DatabaseBucketNames(last).value;
      }
    }
  }

  /** The extracted list holds exactly the CBGT bucket and the buckets the
      databases name, each database contributing one name plus one per
      channel index. */
  lemma ConfigBucketNamesMembers(c: Config, n: string)
    requires ConfigBucketNames(c).Ok?
    ensures n in ConfigBucketNames(c).value
            <==> c.clusterConfig == Some(ClusterConfig(Some(n)))
                 || exists i | 0 <= i < |c.databases.value| :: NamesBucket(c.databases.value[i], n)
  {
    DatabasesBucketNamesMembers(c.databases.value, n);
  }

  /** The error is the first missing key in the order the source looks them
      up: the CBGT bucket, then `databases`, then a database's buckets. */
  lemma ConfigBucketNamesErrors(c: Config)
    ensures c.clusterConfig.Some? && c.clusterConfig.value.bucket.None?
            ==> ConfigBucketNames(c) == Err(MissingKey("bucket"))
    ensures (c.clusterConfig.Some? ==> c.clusterConfig.value.bucket.Some?) && c.databases.None?
            ==> ConfigBucketNames(c) == Err(MissingKey("databases"))
    ensures c.databases.Some? && ConfigBucketNames(c).Err?
            ==> ConfigBucketNames(c) == Err(MissingKey("bucket"))
  {
  }

  /** The same bucket may be listed more than once (the caller removes
      duplicates): two databases sharing a bucket give it twice. */
  lemma SharedBucketListedTwice(b: string)
    ensures ConfigBucketNames(Config(None, Some([Database(Some(b), None), Database(Some(b), None)])))
            == Ok([b, b])
  {
    var dbs := [Database(Some(b), None), Database(Some(b), None)];
    assert dbs[..1] == [Database(Some(b), None)];
    assert dbs[..1][..0] == [];
    assert DatabasesBucketNames(dbs[..1][..0]) == Ok([]);
    assert [] + [b] == [b];
    assert DatabasesBucketNames(dbs[..1]) == Ok([b]);
    assert DatabasesBucketNames(dbs) == Ok([b] + [b]);
    assert [] + ([b] + [b]) == [b, b];
  }

  /** The loop of get_bucket_names_from_conf, appending to the list as it goes
      over the databases. */
  method GetBucketNamesFromConf(c: Config) returns (r: Result<seq<string>, ConfigError>)
    ensures r == ConfigBucketNames(c)
  {
    var bucketNames: seq<string> := [];
    if c.clusterConfig.Some? {
      if c.clusterConfig.value.bucket.None? {
        return Err(MissingKey("bucket"));
      }
      bucketNames := bucketNames + [c.clusterConfig.value.bucket.value];
    }
    if c.databases.None? {
      return Err(MissingKey("databases"));
    }
    var dbs := c.databases.value;
    ghost var cbgt := bucketNames;
    assert cbgt == if c.clusterConfig.Some? then [c.clusterConfig.value.bucket.value] else [];
    for i := 0 to |dbs|
      invariant DatabasesBucketNames(dbs[..i]).Ok?
      invariant bucketNames == cbgt + DatabasesBucketNames(dbs[..i]).value
    {
      var val := dbs[i];
      assert dbs[..i + 1][..i] == dbs[..i];
      if val.bucket.None? {
        return Err(MissingKey("bucket"));
      }
      bucketNames := bucketNames + [val.bucket.value];
      if val.channelIndex.Some? {
        if val.channelIndex.value.bucket.None? {
          return Err(MissingKey("bucket"));
        }
        bucketNames := bucketNames + [val.channelIndex.value.bucket.value];
      }
    }
    assert dbs[..|dbs|] == dbs;
    return Ok(bucketNames);
  }
}
