# Test-cluster reconciliation, value encoding and document comparison of mobile-testkit

This project models three pieces of the mobile-testkit functional test framework. It then proves
properties of them in Dafny.

- **The test cluster** (`lib/cluster.py`). The `Cluster` object knows the hosts of a test cluster:
  Sync Gateways, sg_accels and Couchbase Servers. It also records the name of the last Sync Gateway
  config it deployed. Before a test session, `reset` brings the cluster to the state the session
  needs:
  - it reads the bucket names from the config;
  - it decides whether the first server's buckets must be dropped and recreated;
  - it decides whether the config must be redeployed;
  - it stops Sync Gateway and sg_accel, cleans up, recreates the buckets, and starts the services again;
  - in distributed index mode, it finally checks, with retries, that CBGT spread its pindexes evenly
    over the sg_accels.

  `verify_alive` probes every sync gateway, and in distributed index mode every sg_accel, and collects
  the connection errors.
- **The value encoding** (`CBLClient/ValueSerializer.py`). This is the tagged text form in which the
  test client sends values to the Couchbase Lite test server. `serialize` writes a value and
  `deserialize` reads one back.
- **The document comparison** (`test_delta_sync.py`). `compare_generic_types`,
  `deep_list_compare` and `deep_dict_compare` check that a document read from Sync Gateway matches
  the one Couchbase Lite holds.

Files:

| file | module | contents |
|---|---|---|
| `results.dfy` | `Results` | `Option` and `Result` |
| `bucket_policy.dfy` | `BucketPolicy` | run modes, bucket-name validation, the server-reset decision |
| `sg_config.dfy` | `SgConfig` | the parsed Sync Gateway config and the bucket names it names |
| `pindex_distribution.dfy` | `PindexDistribution` | the CBGT plan, its tally and verdict, the retry |
| `reset_plan.dfy` | `ResetPlan` | what `reset` does, as a function of the cluster state and its inputs |
| `cluster.dfy` | `ClusterReconcile` | the `Cluster` class and its methods, proved against the functions above |
| `decimal.dfy` | `Decimal` | Python 2 `str(n)` and `int(s)` for integers |
| `value_serializer.dfy` | `ValueSerializer` | `serialize` / `deserialize`, with the round trip |
| `doc_compare.dfy` | `DocCompare` | the three comparison functions |

The `Cluster` class holds two updatable fields: the recorded config name and the first server's bucket
set. Its methods (`Reset`, `ValidateCbgtPindexDistribution`, its retry, `VerifyAlive`) are written as
loops and statements, in the shape of the source. Each one is proved equal to a specification
function. For example, `Reset`'s new state and outcome equal `ResetPlan.ResetEffect`. The lemmas are
then proved about those functions.

The quirks of the source are kept, and lemmas state them:
- `reset` passes the whole run options, not their mode, to the bucket-name validation, so that
  validation never rejects anything (`BucketNamesNotValidated`).
- The balance check measures every node against whichever node the tally dictionary yields first,
  not against the smallest tally, so the same plan can pass or fail depending on the dictionary's
  iteration order (`BalanceDependsOnFirstNode`).
- A pindex with no node is not flagged (`UnownedPindexesIgnored`).
- The list comparison sorts both lists and walks only the first, so it is not symmetric
  (`ListCompareIsAsymmetric`).

The environment enters as parameters:
- each playbook's exit status (`status: Playbook -> int`);
- the CBGT plan read on the i-th validation attempt, together with the order in which its tally
  dictionary is iterated (`fetch: nat -> Reading`);
- the result of probing a service (`probe: Endpoint -> Option<string>`);
- the already-parsed config file (`Config`);
- for the list comparison, Python's `sorted`, of which only "returns a permutation" is assumed.

Dictionary iteration order is modelled as the order of a sequence: the databases of a config, the
pindexes of a plan, the entries of a document. Python 2 iterates the tally dictionary in an order set
by the hashes of the node ids, which the model does not compute. That order is therefore an input:
`IsKeyOrder(plan, order)` says that `order` lists every owner exactly once, and a `Reading` pairs a
plan with such an order.

## Model

| member | source | states |
|---|---|---|
| ClusterReconcile.Cluster.constructor | lib/cluster.py:46-51 | the cluster holds the given hosts and buckets, and no config has been deployed yet (empty name) |
| ClusterReconcile.Cluster.ValidateCluster | lib/cluster.py:72-76 | refuses exactly the clusters without a sync gateway, with that error |
| ClusterReconcile.Cluster.Reset | lib/cluster.py:78-175 | the result, the actions taken, the recorded config name and the first server's buckets are exactly `ResetEffect` of the old state and the inputs |
| ClusterReconcile.Cluster.RunResetSteps | lib/cluster.py:110-164 | the eight guarded steps run in the source's order and stop at the first failing playbook; the actions and failure are `Execute` of the step table, and the buckets are those actions applied to the old buckets |
| ClusterReconcile.PlaybookStep | lib/cluster.py:110-114 | a guarded playbook either ends the schedule as the failure or lets it continue at the next step, and never changes the buckets |
| ClusterReconcile.StopPhase | lib/cluster.py:110-132 | the stop and clean-up playbooks run as the first four steps of the schedule, leaving the buckets alone |
| ClusterReconcile.Cluster.RecreateBuckets | lib/cluster.py:134-143 | on a reset, every existing bucket is deleted and then the config's buckets are created, as steps 4 and 5 of the schedule |
| ClusterReconcile.StartPhase | lib/cluster.py:145-164 | the start playbooks end the schedule, leaving the buckets alone |
| ClusterReconcile.Cluster.ValidateCbgtPindexDistribution | lib/cluster.py:269-334 | for any iteration order of the tally, the outcome is `DistributionVerdict` of the plan, the number of sg_accels and that order |
| ClusterReconcile.TallyPindexes | lib/cluster.py:281-298 | a pindex on several nodes raises; otherwise the tally is each owner's pindex count |
| ClusterReconcile.BalancedAgainstFirst | lib/cluster.py:310-334 | for any iteration order, true iff the tally is empty or every tally is within one of the tally iterated first |
| ClusterReconcile.Cluster.ValidateCbgtPindexDistributionRetry | lib/cluster.py:254-267 | the outcome is `RetryVerdict`; between 1 and 10 attempts are made, each earlier attempt was rejected, false comes only after all 10 attempts, and any other outcome is the last attempt's verdict |
| ClusterReconcile.Cluster.VerifyAlive | lib/cluster.py:336-355 | the errors are the unreachable sync gateways, followed in distributed index mode by the unreachable sg_accels |
| ClusterReconcile.UnreachableReportsFailures | lib/cluster.py:338-353 | an endpoint is reported with an error iff it is one of the probed hosts and its probe failed with that error |
| ClusterReconcile.UnreachableAppend | lib/cluster.py:338-344 | probing goes on after a failure: the report for a list of hosts is the report for its first part followed by the report for the rest |
| SgConfig.DatabaseBucketNames | lib/cluster.py:198-203 | succeeds iff the database has every key that is read, otherwise raises KeyError("bucket"); the names are exactly its data and index buckets |
| SgConfig.DatabasesBucketNames | lib/cluster.py:197-203 | succeeds iff every database is complete; a failure is always KeyError("bucket") |
| SgConfig.ConfigBucketNames | lib/cluster.py:193-205 | succeeds iff every key that is read is present |
| SgConfig.DatabasesBucketNamesMembers | lib/cluster.py:198-203 | a name is listed iff some database names it as its data or index bucket |
| SgConfig.ConfigBucketNamesMembers | lib/cluster.py:193-205 | the list holds exactly the CBGT bucket and the buckets the databases name |
| SgConfig.ConfigBucketNamesErrors | lib/cluster.py:194-203 | the error is the first missing key in lookup order: the CBGT bucket, then `databases`, then a database's bucket |
| SgConfig.SharedBucketListedTwice | lib/cluster.py:198-200 | a bucket shared by two databases is listed twice; duplicates are removed only by the caller |
| SgConfig.GetBucketNamesFromConf | lib/cluster.py:193-205 | the loop builds exactly `ConfigBucketNames` of the config |
| BucketPolicy.ValidateConfigBucketNames | lib/cluster.py:207-217 | in channel cache mode, passes iff there is more than one name or the names are exactly {data-bucket}; in distributed index mode, iff there are more than two names or exactly {data-bucket, index-bucket}; an argument that is not a mode always passes |
| BucketPolicy.ShouldServerReset | lib/cluster.py:219-239 | reset iff it was requested, or the bucket count differs from the mode's, or the index bucket's presence does not match the mode |
| BucketPolicy.ModeBucketsAreKept | lib/cluster.py:219-239 | without a request, a server holding exactly the mode's buckets is kept |
| BucketPolicy.OtherBucketNamesAreNotChecked | lib/cluster.py:226-237 | names other than the index bucket are never inspected: any single non-index bucket is kept in channel cache mode |
| BucketPolicy.ResetRequestForcesReset | lib/cluster.py:223-225 | an explicit reset request always resets |
| BucketPolicy.ModeChangeForcesReset | lib/cluster.py:226-237 | the buckets left by one mode are never kept by the other |
| BucketPolicy.MultiBucketConfigsAlwaysReset | lib/cluster.py:207-239 | a config the validation exempts because it has extra buckets makes every session reset the server |
| BucketPolicy.ChannelCacheConventionKept | lib/cluster.py:214-237 | {data-bucket} passes the channel cache validation and is kept; adding the index bucket forces a reset |
| BucketPolicy.DistributedIndexNeedsIndexBucket | lib/cluster.py:216-232 | in distributed index mode, {data-bucket} fails the validation and is reset |
| PindexDistribution.OwnersHavePindexes | lib/cluster.py:290-298 | a node is a key of the tally iff its count is positive |
| PindexDistribution.CountsStep | lib/cluster.py:290-298 | one more single-node pindex adds one to that node's count and changes nothing else |
| PindexDistribution.OwnedByAppend | lib/cluster.py:281-298 | the tally of two plans' pindexes together is the sum of their tallies, and the owners are the union |
| PindexDistribution.UnownedPindexesIgnored | lib/cluster.py:285-298 | inserting a pindex with no node anywhere in the plan never changes the verdict, for any iteration order |
| PindexDistribution.EvenSpreadPasses | lib/cluster.py:302-334 | with one owner per sg_accel and all counts within one of each other, the plan is accepted whatever the iteration order |
| PindexDistribution.AcceptedSpreadAtMostTwo | lib/cluster.py:310-334 | in a plan accepted under any iteration order, any two owners' counts differ by at most two |
| PindexDistribution.UnevenPlanTally | lib/cluster.py:281-298 | the plan a, b, b, c, c, c has no shared pindex and tallies a:1, b:2, c:3 |
| PindexDistribution.BalanceDependsOnFirstNode | lib/cluster.py:311-334 | that plan over three sg_accels is rejected when the tally yields a first and accepted when it yields b first, so the verdict depends on the dictionary's iteration order |
| PindexDistribution.TwoNodeExamples | lib/cluster.py:269-334 | A, B, A over two sg_accels is accepted and A, A, A, B is rejected, in either iteration order |
| PindexDistribution.RetryFalseIff | lib/cluster.py:259-267 | the retry gives false iff every remaining attempt is rejected |
| PindexDistribution.RetryTrueIff | lib/cluster.py:259-262 | the retry gives true iff some attempt is accepted and every earlier one was rejected |
| PindexDistribution.RetryErrIff | lib/cluster.py:259-260 | the retry raises an error iff some attempt raises it and every earlier one was rejected |
| PindexDistribution.RetryWithoutAccelsRaises | lib/cluster.py:275 | without sg_accels the first attempt raises and the retry propagates it |
| ResetPlan.ExecutedPrefix | lib/cluster.py:110-164 | the actions taken are a prefix of the enabled steps, and all of them when nothing fails |
| ResetPlan.FailureIsLast | lib/cluster.py:110-164 | a failing playbook is the last action taken and exited non-zero, and every playbook before it succeeded |
| ResetPlan.ExecutedAreEnabled | lib/cluster.py:110-164 | every action taken is the action of an enabled step |
| ResetPlan.NothingEnabledNothingDone | lib/cluster.py:110-164 | with no step enabled, nothing is done and nothing fails |
| ResetPlan.ScheduleOfReset | lib/cluster.py:110-164 | the enabled steps are: stop and clean up if deploying (sg_accel artifacts only in distributed index mode), then delete and create buckets on a reset, then start again |
| ResetPlan.AllSucceed | lib/cluster.py:113-164 | when every playbook exits with 0, nothing fails |
| ResetPlan.BucketResetLeavesConfigBuckets | lib/cluster.py:134-143 | deleting the existing buckets and then creating the config's leaves exactly the config's buckets |
| ResetPlan.EarlyFailuresChangeNothing | lib/cluster.py:80-87 | no sync gateway, no server or a missing config key raises the matching error before anything changes |
| ResetPlan.SuccessReturnsMode | lib/cluster.py:175 | a reset that succeeds returns the mode of its run options |
| ResetPlan.ConfigNameRecorded | lib/cluster.py:107 | once the config is read, its name is recorded even if a later step fails |
| ResetPlan.BucketNamesNotValidated | lib/cluster.py:93 | a channel cache config naming another bucket fails the validation for its mode, yet reset does not stop for it |
| ResetPlan.ActionsFollowDecisions | lib/cluster.py:110-164 | bucket operations happen only on a reset and playbooks only when deploying; sg_accel clean-up and start happen only in distributed index mode; a deployment begins by stopping Sync Gateway and then sg_accel |
| ResetPlan.FailedPlaybookEndsReset | lib/cluster.py:110-164 | a reset that fails on a playbook ends with that playbook, whose status is non-zero, and every playbook before it succeeded |
| ResetPlan.BucketsAfterSteps | lib/cluster.py:134-143 | without a failure, the schedule leaves the config's buckets on a reset and the old buckets otherwise |
| ResetPlan.BucketsAfterReset | lib/cluster.py:96-143 | the same for the whole reset, unless a playbook failed |
| ResetPlan.RepeatedResetIsQuiet | lib/cluster.py:96-164 | a second reset with the same config after a successful one does nothing and gives the same result, when the config uses the mode's buckets |
| ResetPlan.ChannelCacheSteadyState | lib/cluster.py:101-173 | a channel cache session over a server holding just the data bucket, with the config already deployed, does nothing |
| ResetPlan.StaleBucketsInDistributedIndex | lib/cluster.py:96-171 | in distributed index mode, a server holding only the data bucket is reset and the config redeployed; with all playbooks succeeding, all eight steps run and the CBGT check decides |
| Decimal.IntToString | CBLClient/ValueSerializer.py:21-29 | the text is non-empty and starts with a digit exactly for non-negative numbers |
| Decimal.IntToStringHasNoPoint | CBLClient/ValueSerializer.py:70-74 | the text of an integer never contains a '.' |
| Decimal.ParseIntToString | CBLClient/ValueSerializer.py:64-67 | reading back the text of any integer gives that integer |
| Decimal.ParseIntNeedsADigit | CBLClient/ValueSerializer.py:64-67 | "", "+" and "-" are rejected |
| ValueSerializer.Serialize | CBLClient/ValueSerializer.py:7-50 | the loops build exactly `Encode`, which succeeds iff no value of an unsupported type occurs anywhere inside |
| ValueSerializer.Deserialize | CBLClient/ValueSerializer.py:53-94 | the loops build exactly `Decode`, and whatever is returned is well formed |
| ValueSerializer.DecodeText | CBLClient/ValueSerializer.py:58-59 | a string comes only from text starting with a quote |
| ValueSerializer.DecodeItems | CBLClient/ValueSerializer.py:84-92 | a decoded list has one value per element |
| ValueSerializer.EncodeSucceedsIff | CBLClient/ValueSerializer.py:31-50 | serialize raises iff an unsupported type occurs somewhere inside the value |
| ValueSerializer.RoundTrip | CBLClient/ValueSerializer.py:7-94 | deserialize(serialize(v)) == v for every well-formed value |
| ValueSerializer.DecodedIsWellFormed | CBLClient/ValueSerializer.py:53-94 | every decoded value is well formed |
| ValueSerializer.ReencodeDecoded | CBLClient/ValueSerializer.py:7-94 | re-encoding a decoded value and decoding again gives the same value |
| ValueSerializer.NullEncodings | CBLClient/ValueSerializer.py:8-55 | None encodes as "null", and both "" and "null" decode to None |
| ValueSerializer.QuotedKeywordsStayStrings | CBLClient/ValueSerializer.py:58-65 | quoted "true", "I5" and "null" come back as strings |
| ValueSerializer.LoneQuoteIsEmptyString | CBLClient/ValueSerializer.py:58-59 | a single quote character decodes to the empty string |
| ValueSerializer.BooleansAreNotInts | CBLClient/ValueSerializer.py:18-23 | booleans encode as true/false, never as I1/I0, and come back as booleans |
| ValueSerializer.HashTextIsIntText | CBLClient/ValueSerializer.py:70-74 | '#' text without a '.' is read by int() |
| ValueSerializer.HashNumberIsInt | CBLClient/ValueSerializer.py:70-74 | '#' followed by a number decodes as an int, or as a long beyond the machine word |
| ValueSerializer.WideIntTextIsLong | CBLClient/ValueSerializer.py:64-65 | "I" text of a number beyond the machine word comes back as a long |
| ValueSerializer.UnrecognisedTextRaises | CBLClient/ValueSerializer.py:94 | text with no recognised prefix raises |
| ValueSerializer.ListEncodingIsElementwise | CBLClient/ValueSerializer.py:41-48 | a list encodes element by element, keeping its length and order |
| ValueSerializer.DictEncodingIsValuewise | CBLClient/ValueSerializer.py:31-39 | a dictionary encodes value by value, keeping its keys |
| DocCompare.CompareGenericTypes | testsuites/CBLTester/CBL_Functional_tests/TestSetup_FunctionalTests/test_delta_sync.py:681-697 | two strs, two unicodes or two ints/bools match iff they are equal; every other pair of kinds matches; equal values always match |
| DocCompare.Lookup | testsuites/CBLTester/CBL_Functional_tests/TestSetup_FunctionalTests/test_delta_sync.py:732-733 | the lookup finds a value iff some entry has the key |
| DocCompare.DeepListCompare | testsuites/CBLTester/CBL_Functional_tests/TestSetup_FunctionalTests/test_delta_sync.py:700-722 | the loop computes exactly `ListCompare`; an empty first list matches anything |
| DocCompare.DeepDictCompare | testsuites/CBLTester/CBL_Functional_tests/TestSetup_FunctionalTests/test_delta_sync.py:725-751 | the loop computes exactly `DictCompare`; different sizes give false |
| DocCompare.EntriesTrueIff | testsuites/CBLTester/CBL_Functional_tests/TestSetup_FunctionalTests/test_delta_sync.py:731-751 | the key loop returns true iff every remaining key is found and its values match |
| DocCompare.DictCompareCases | testsuites/CBLTester/CBL_Functional_tests/TestSetup_FunctionalTests/test_delta_sync.py:725-751 | after matching keys, the first missing key raises KeyError and the first mismatch returns false |
| DocCompare.DictCompareTrueIff | testsuites/CBLTester/CBL_Functional_tests/TestSetup_FunctionalTests/test_delta_sync.py:725-751 | true iff the sizes agree and every key of the first is found in the second with a matching value |
| DocCompare.PositionsTrueIff | testsuites/CBLTester/CBL_Functional_tests/TestSetup_FunctionalTests/test_delta_sync.py:705-722 | the position loop returns true iff the second list is long enough and every position matches |
| DocCompare.PositionsSkipMatched | testsuites/CBLTester/CBL_Functional_tests/TestSetup_FunctionalTests/test_delta_sync.py:705-722 | matched positions before `j` leave the loop's outcome to be decided from `j` on |
| DocCompare.ListCompareFirstMismatch | testsuites/CBLTester/CBL_Functional_tests/TestSetup_FunctionalTests/test_delta_sync.py:700-722 | after sorting, the first position whose comparison is not True gives the outcome (False or the error raised there); matching every position of the first list gives True |
| DocCompare.ExtraElementsIgnored | testsuites/CBLTester/CBL_Functional_tests/TestSetup_FunctionalTests/test_delta_sync.py:702-705 | elements of the second list beyond the first's length are never looked at |
| DocCompare.ShortSecondListRaises | testsuites/CBLTester/CBL_Functional_tests/TestSetup_FunctionalTests/test_delta_sync.py:702-706 | a shorter second list raises IndexError at its length, unless a mismatch comes first |
| DocCompare.SortedUniform | testsuites/CBLTester/CBL_Functional_tests/TestSetup_FunctionalTests/test_delta_sync.py:703-704 | sorting a list of equal values leaves it unchanged |
| DocCompare.ListCompareIsAsymmetric | testsuites/CBLTester/CBL_Functional_tests/TestSetup_FunctionalTests/test_delta_sync.py:700-722 | [1] matches [1, 1], but [1, 1] against [1] raises IndexError |
| DocCompare.DifferentKindsMatch | testsuites/CBLTester/CBL_Functional_tests/TestSetup_FunctionalTests/test_delta_sync.py:681-697 | values of unpaired kinds (an int and a str, a long and an int) count as equal |
| DocCompare.CompareReflexive | testsuites/CBLTester/CBL_Functional_tests/TestSetup_FunctionalTests/test_delta_sync.py:681-751 | every well-formed document matches itself |

## Left out

- The Ansible inventory reading of `Cluster.__init__` (lines 28-49) and `_hosts_for_tag`: the hosts are given to the constructor. `__repr__` and `load_generators` play no part in the model.
- Running playbooks, the Couchbase Server REST calls (`get_buckets`, `delete_buckets`, `create_buckets`) and the CBGT admin REST calls: each playbook's status and each attempt's plan are parameters. A server call that fails is not modelled.
- The reading of the config file in `get_bucket_names_from_conf`: the two regular-expression rewrites and `json.loads`. The model starts from the parsed object, so a missing file and malformed JSON are not modelled.
- ClusterReconcile.TallyPindexes: the order in which Python 2 iterates the tally dictionary depends on the node ids' hashes. The model does not compute it: every verdict holds for whatever order is given, and each attempt of the retry may see its own order.
- Logging, `time.sleep(5)` between attempts, `save_cbgt_diagnostics` (diagnostic output only), and `run_opts.id` / `test_id`, which are only passed to the REST client.
- ClusterReconcile.Cluster.ValidateCbgtPindexDistribution: a plan entry's nodes are a sequence. The KeyErrors of the `planPIndexes` and `nodes` lookups are not modelled. The inner `for node in nodes` loop is an `if`, because the code only reaches it with at most one node.
- ClusterReconcile.Cluster.VerifyAlive: only a ConnectionError is caught, as in the source. A probe that fails any other way would propagate, and that is not modelled.
- ClusterReconcile.Cluster.Reset: the second `get_buckets` before the delete (line 137) is taken to return the same buckets as the first. Nothing between the two calls changes them.
- Floating-point values: the `F`/`D`/`#…` float branches of the value encoding decode to a `FloatValue` error, and the float branches of `compare_generic_types` are left out.
- The JSON text of encoded lists and dictionaries: an encoding is a tree (`Wire`) of scalar texts, not the string `json.dumps` gives. A `{`/`[` text that is not inside such a tree gives `RawJsonText`.
- Unicode: `str` and `unicode` are both strings of characters. The UTF-8 encoding in `serialize` and the ASCII-only `str()` in `deserialize` are not modelled.
- `MemoryPointer` is known only by its address text.
- Dictionary keys are strings.
- Decimal.ParseInt: surrounding whitespace, which `int()` and `long()` accept, and a trailing `L`, which `long()` accepts, are not modelled. Only an optional sign followed by decimal digits is read.
- ValueSerializer.Deserialize: a dictionary entry that fails to decode is reported as `InDictEntry`, not with that entry's own error, because the model does not fix the order in which keys are visited.
- DocCompare.DeepListCompare: Python 2's `sorted`, with its cross-type ordering, is a parameter that is only required to permute its input.
- DocCompare.DeepDictCompare: dictionary iteration order is the order of the entry sequence.
