// What Cluster.reset in lib/cluster.py does to the cluster, as a function of
// the cluster's state and its inputs: which playbooks and bucket operations it
// performs, in which order, where a failure stops it, and the state it leaves.

module ResetPlan {
  import opened Results
  import opened BucketPolicy
  import opened SgConfig
  import opened PindexDistribution

  /** The ansible playbooks reset runs. */
  datatype Playbook =
    | StopSyncGateway
    | StopSgAccel
    | DeleteSyncGatewayArtifacts
    | DeleteSgAccelArtifacts
    | StartSyncGateway
    | StartSgAccel

  /** One thing reset does to the cluster. */
  datatype Action =
    | Play(playbook: Playbook)              // run a playbook and assert it exited with 0
    | DeleteBuckets(names: set<string>)     // drop these buckets on the first server
    | CreateBuckets(names: set<string>)     // create these buckets on the first server

  /** How reset ends. ModeViolation is the assertion of the bucket-name
      validation, which cannot fire as reset calls it. */
  datatype ResetError =
    | NoSyncGateways                 // validate_cluster
    | NoServer                       // servers[0] on an empty list
    | ConfigKeyMissing(key: string)  // KeyError while reading the config
    | ModeViolation
    | PlaybookFailed(playbook: Playbook)
    | CbgtRaised(error: CbgtError)
    | CbgtNotBalanced                // the retry gave up

  /** The steps of reset in the source's order, each with the condition under
      which it is taken. */
  function Steps(mode: RunMode, deploy: bool, reset: bool, existing: set<string>, names: set<string>)
    : seq<(bool, Action)>
  {
    var accel := mode == DistributedIndex && deploy;
    [ (deploy, Play(StopSyncGateway)),
      (deploy, Play(StopSgAccel)),
      (deploy, Play(DeleteSyncGatewayArtifacts)),
      (accel, Play(DeleteSgAccelArtifacts)),
      (reset, DeleteBuckets(existing)),
      (reset, CreateBuckets(names)),
      (deploy, Play(StartSyncGateway)),
      (accel, Play(StartSgAccel)) ]
  }

  /** The actions performed, and the playbook whose failure stopped reset. */
  datatype Execution = Execution(done: seq<Action>, failed: Option<Playbook>)

  function Then(before: seq<Action>, e: Execution): Execution
  {
    Execution(before + e.done, e.failed)
  }

  /** Takes the enabled steps from step `k` on, stopping right after the first
      playbook whose exit status (given by `status`) is not 0. */
  function Execute(steps: seq<(bool, Action)>, status: Playbook -> int, k: nat): Execution
    decreases |steps| - k
  {
    if k >= |steps| then Execution([], None)
    else if !steps[k].0 then Execute(steps, status, k + 1)
    else if steps[k].1.Play? && status(steps[k].1.playbook) != 0 then
      Execution([steps[k].1], Some(steps[k].1.playbook))
    else
      Then([steps[k].1], Execute(steps, status, k + 1))
  }

  /** The actions of the enabled steps from step `k` on. */
  function Enabled(steps: seq<(bool, Action)>, k: nat): seq<Action>
    decreases |steps| - k
  {
    if k >= |steps| then []
    else (if steps[k].0 then [steps[k].1] else []) + Enabled(steps, k + 1)
  }

  /** The first server's buckets after one action. */
  function Apply(buckets: set<string>, a: Action): set<string>
  {
    match a
    case Play(_) => buckets
    case DeleteBuckets(names) => buckets - names
    case CreateBuckets(names) => buckets + names
  }

  /** The first server's buckets after a sequence of actions. */
  function AfterActions(buckets: set<string>, actions: seq<Action>): set<string>
  {
    if actions == [] then buckets
    else Apply(AfterActions(buckets, actions[..|actions| - 1]), actions[|actions| - 1])
  }

  /** The state reset leaves: its result, what it did, the config name it
      recorded and the first server's buckets. */
  datatype Effect = Effect(result: Result<RunMode, ResetError>, trace: seq<Action>,
                           configName: string, buckets: set<string>)

  /** The CBGT check that ends a reset: only in distributed index mode, where
      a plan that is never accepted raises. */
  function CbgtCheck(mode: RunMode, fetch: nat -> Reading, accels: nat): Result<RunMode, ResetError>
  {
    if mode == DistributedIndex then
      match RetryVerdict(fetch, accels)
      case Err(e) => Err(CbgtRaised(e))
      case Ok(valid) => if valid then Ok(mode) else Err(CbgtNotBalanced)
    else
      Ok(mode)
  }

  /** Whether reset redeploys the config: unless the same config is already
      deployed and the buckets are kept. */
  function ShouldDeploy(current: string, config: string, reset: bool): bool
  {
    !(current == config && !reset)
  }

  /** reset(config, run_opts) on a cluster with `gateways` sync gateways,
      `accels` sg_accels and `servers` servers, whose recorded config name is
      `current` and whose first server holds `buckets`. `conf` is the parsed
      config file, `status` gives each playbook's exit status and `fetch(i)`
      the CBGT plan read on the i-th validation attempt, with the iteration
      order of its tally. */
  function ResetEffect(gateways: nat, accels: nat, servers: nat, current: string, buckets: set<string>,
                       config: string, conf: Config, opts: RunOpts,
                       status: Playbook -> int, fetch: nat -> Reading): Effect
  {
    if gateways == 0 then Effect(Err(NoSyncGateways), [], current, buckets)
    else if servers == 0 then Effect(Err(NoServer), [], current, buckets)
    else
      match ConfigBucketNames(conf)
      case Err(MissingKey(key)) => Effect(Err(ConfigKeyMissing(key)), [], current, buckets)
      case Ok(names) =>
        var nameSet := set n | n in names;
        if !ValidateConfigBucketNames(NotAMode, nameSet) then
          Effect(Err(ModeViolation), [], current, buckets)
        else
          var reset := ShouldServerReset(opts, buckets);
          var deploy := ShouldDeploy(current, config, reset);
          var run := Execute(Steps(opts.mode, deploy, reset, buckets, nameSet), status, 0);
          var result := if run.failed.Some? then Err(PlaybookFailed(run.failed.value))
                        else CbgtCheck(opts.mode, fetch, accels);
          Effect(result, run.done, config, AfterActions(buckets, run.done))
  }

  // ---------------------------------------------------------------------
  // Executions

  /** The performed actions are the enabled steps up to where reset stops;
      without a failure they are all of them. */
  lemma {:induction false} ExecutedPrefix(steps: seq<(bool, Action)>, status: Playbook -> int, k: nat)
    ensures Execute(steps, status, k).done <= Enabled(steps, k)
    ensures Execute(steps, status, k).failed.None? ==> Execute(steps, status, k).done == Enabled(steps, k)
    decreases |steps| - k
  {
    if k < |steps| {
      ExecutedPrefix(steps, status, k + 1);
      var rest := Execute(steps, status, k + 1);
      var later := Enabled(steps, k + 1);
      var a := steps[k].1;
      if steps[k].0 {
        assert Enabled(steps, k) == [a] + later;
        if !(a.Play? && status(a.playbook) != 0) {
          assert Execute(steps, status, k).done == [a] + rest.done;
          assert ([a] + later)[..|[a] + rest.done|] == [a] + later[..|rest.done|];
        }
      }
    }
  }

  /** When a playbook fails it is the last action performed, it exited with a
      non-zero status, and every playbook performed before it succeeded. */
  lemma {:induction false} FailureIsLast(steps: seq<(bool, Action)>, status: Playbook -> int, k: nat)
    ensures var e := Execute(steps, status, k);
      && (e.failed.Some? ==>
            |e.done| > 0 && e.done[|e.done| - 1] == Play(e.failed.value) && status(e.failed.value) != 0)
      && (forall i | 0 <= i < |e.done| && (e.failed.Some? ==> i < |e.done| - 1) ::
            e.done[i].Play? ==> status(e.done[i].playbook) == 0)
    decreases |steps| - k
  {
    if k < |steps| {
      FailureIsLast(steps, status, k + 1);
      var a := steps[k].1;
      if steps[k].0 && !(a.Play? && status(a.playbook) != 0) {
        var e := Execute(steps, status, k);
        var rest := Execute(steps, status, k + 1);
        assert e.done == [a] + rest.done;
        assert forall i | 1 <= i < |e.done| :: e.done[i] == rest.done[i - 1];
      }
    }
  }

  /** Every performed action is the action of an enabled step. */
  lemma {:induction false} ExecutedAreEnabled(steps: seq<(bool, Action)>, status: Playbook -> int, k: nat, a: Action)
    requires a in Execute(steps, status, k).done
    ensures (true, a) in steps
    decreases |steps| - k
  {
    if k < |steps| {
      if steps[k].0 && steps[k].1 == a {
        assert steps[k] == (true, a);
      } else if steps[k].0 && !(steps[k].1.Play? && status(steps[k].1.playbook) != 0) {
        ExecutedAreEnabled(steps, status, k + 1, a);
      } else if !steps[k].0 {
        ExecutedAreEnabled(steps, status, k + 1, a);
      }
    }
  }

  /** Nothing is performed when no step is enabled. */
  lemma {:induction false} NothingEnabledNothingDone(steps: seq<(bool, Action)>, status: Playbook -> int, k: nat)
    requires Enabled(steps, k) == []
    ensures Execute(steps, status, k) == Execution([], None)
    decreases |steps| - k
  {
    if k < |steps| {
      NothingEnabledNothingDone(steps, status, k + 1);
    }
  }

  /** The enabled steps of reset: stopping and cleaning up, then the bucket
      reset, then starting again; the sg_accel artifacts and start only in
      distributed index mode. */
  lemma ScheduleOfReset(mode: RunMode, deploy: bool, reset: bool, existing: set<string>, names: set<string>)
    ensures Enabled(Steps(mode, deploy, reset, existing, names), 0) ==
      (if deploy then [Play(StopSyncGateway), Play(StopSgAccel), Play(DeleteSyncGatewayArtifacts)] else [])
      + ((if mode == DistributedIndex && deploy then [Play(DeleteSgAccelArtifacts)] else [])
      + ((if reset then [DeleteBuckets(existing), CreateBuckets(names)] else [])
      + ((if deploy then [Play(StartSyncGateway)] else [])
      + (if mode == DistributedIndex && deploy then [Play(StartSgAccel)] else []))))
  {
    var s := Steps(mode, deploy, reset, existing, names);
    var accel := mode == DistributedIndex && deploy;
    var stop := if deploy then [Play(StopSyncGateway), Play(StopSgAccel), Play(DeleteSyncGatewayArtifacts)] else [];
    var clean := if accel then [Play(DeleteSgAccelArtifacts)] else [];
    var recreate := if reset then [DeleteBuckets(existing), CreateBuckets(names)] else [];
    var start := if deploy then [Play(StartSyncGateway)] else [];
    var startAccel := if accel then [Play(StartSgAccel)] else [];
    assert Enabled(s, 8) == [];
    assert Enabled(s, 7) == startAccel;
    assert Enabled(s, 6) == start + startAccel;
    EnabledPair(s, 4);
    assert Enabled(s, 4) == recreate + (start + startAccel);
    assert Enabled(s, 3) == clean + (recreate + (start + startAccel));
    EnabledTriple(s, 0);
    assert Enabled(s, 0) == stop + (clean + (recreate + (start + startAccel)));
  }

  /** Two steps enabled by the same condition. */
  lemma EnabledPair(steps: seq<(bool, Action)>, k: nat)
    requires k + 1 < |steps| && steps[k].0 == steps[k + 1].0
    ensures Enabled(steps, k) == (if steps[k].0 then [steps[k].1, steps[k + 1].1] else []) + Enabled(steps, k + 2)
  {
    assert Enabled(steps, k + 1) == (if steps[k].0 then [steps[k + 1].1] else []) + Enabled(steps, k + 2);
  }

  /** Three steps enabled by the same condition. */
  lemma EnabledTriple(steps: seq<(bool, Action)>, k: nat)
    requires k + 2 < |steps| && steps[k].0 == steps[k + 1].0 == steps[k + 2].0
    ensures Enabled(steps, k) == (if steps[k].0 then [steps[k].1, steps[k + 1].1, steps[k + 2].1] else [])
                                 + Enabled(steps, k + 3)
  {
    EnabledPair(steps, k + 1);
    assert Enabled(steps, k) == (if steps[k].0 then [steps[k].1] else []) + Enabled(steps, k + 1);
  }

  /** Nothing fails when every playbook succeeds. */
  lemma {:induction false} AllSucceed(steps: seq<(bool, Action)>, status: Playbook -> int, k: nat)
    requires forall p :: status(p) == 0
    ensures Execute(steps, status, k).failed.None?
    decreases |steps| - k
  {
    if k < |steps| {
      AllSucceed(steps, status, k + 1);
    }
  }

  // ---------------------------------------------------------------------
  // Buckets

  lemma {:induction false} AfterActionsAppend(buckets: set<string>, xs: seq<Action>, ys: seq<Action>)
    ensures AfterActions(buckets, xs + ys) == AfterActions(AfterActions(buckets, xs), ys)
    decreases |ys|
  {
    if ys == [] {
      assert xs + ys == xs;
    } else {
      var zs := xs + ys;
      assert zs[..|zs| - 1] == xs + ys[..|ys| - 1];
      assert zs[|zs| - 1] == ys[|ys| - 1];
      AfterActionsAppend(buckets, xs, ys[..|ys| - 1]);
    }
  }

  /** One more action changes the buckets as that action does. */
  lemma AfterActionsStep(buckets: set<string>, actions: seq<Action>, a: Action)
    ensures AfterActions(buckets, actions + [a]) == Apply(AfterActions(buckets, actions), a)
  {
    var xs := actions + [a];
    assert xs[..|xs| - 1] == actions;
  }

  /** Then over two action lists is Then over their concatenation. */
  lemma ThenThen(xs: seq<Action>, ys: seq<Action>, e: Execution)
    ensures Then(xs, Then(ys, e)) == Then(xs + ys, e)
  {
    assert xs + (ys + e.done) == (xs + ys) + e.done;
  }

  /** Playbooks leave the buckets alone. */
  lemma {:induction false} PlaybooksKeepBuckets(buckets: set<string>, actions: seq<Action>)
    requires forall i | 0 <= i < |actions| :: actions[i].Play?
    ensures AfterActions(buckets, actions) == buckets
    decreases |actions|
  {
    if actions != [] {
      PlaybooksKeepBuckets(buckets, actions[..|actions| - 1]);
    }
  }

  /** Deleting the existing buckets and creating the config's leaves exactly
      the config's buckets. */
  lemma BucketResetLeavesConfigBuckets(existing: set<string>, names: set<string>)
    ensures AfterActions(existing, [DeleteBuckets(existing), CreateBuckets(names)]) == names
  {
    var acts := [DeleteBuckets(existing), CreateBuckets(names)];
    assert acts[..1] == [DeleteBuckets(existing)];
    assert acts[..1][..0] == [];
    assert AfterActions(existing, acts[..1]) == existing - existing == {};
  }

  // ---------------------------------------------------------------------
  // reset

  /** A cluster without sync gateways or servers, or a config lacking a key
      the extraction reads, makes reset raise before it changes anything. */
  lemma EarlyFailuresChangeNothing(gateways: nat, accels: nat, servers: nat, current: string, buckets: set<string>,
                                   config: string, conf: Config, opts: RunOpts,
                                   status: Playbook -> int, fetch: nat -> Reading)
    requires gateways == 0 || servers == 0 || !Complete(conf)
    ensures var e := ResetEffect(gateways, accels, servers, current, buckets, config, conf, opts, status, fetch);
      && e.result.Err? && e.trace == [] && e.configName == current && e.buckets == buckets
      && (gateways == 0 ==> e.result == Err(NoSyncGateways))
      && (gateways > 0 && servers == 0 ==> e.result == Err(NoServer))
      && (gateways > 0 && servers > 0 ==> e.result == Err(ConfigKeyMissing(ConfigBucketNames(conf).error.key)))
  {
  }

  /** A reset that succeeds returns the mode it was run in. */
  lemma SuccessReturnsMode(gateways: nat, accels: nat, servers: nat, current: string, buckets: set<string>,
                           config: string, conf: Config, opts: RunOpts,
                           status: Playbook -> int, fetch: nat -> Reading)
    ensures var e := ResetEffect(gateways, accels, servers, current, buckets, config, conf, opts, status, fetch);
      e.result.Ok? ==> e.result.value == opts.mode
  {
  }

  /** Once the config is read, the new config name is recorded whatever
      happens next, even when a playbook or the CBGT check then fails. */
  lemma ConfigNameRecorded(gateways: nat, accels: nat, servers: nat, current: string, buckets: set<string>,
                           config: string, conf: Config, opts: RunOpts,
                           status: Playbook -> int, fetch: nat -> Reading)
    requires gateways > 0 && servers > 0 && Complete(conf)
    ensures ResetEffect(gateways, accels, servers, current, buckets, config, conf, opts, status, fetch).configName == config
  {
  }

  /** As reset calls it, the bucket-name validation is given the run options
      rather than the mode, so it never rejects a config: a channel cache
      config naming only some other bucket, which the validation rejects for
      that mode, still goes ahead. */
  lemma BucketNamesNotValidated(gateways: nat, accels: nat, servers: nat, current: string, buckets: set<string>,
                                config: string, bucket: string, status: Playbook -> int, fetch: nat -> Reading)
    requires gateways > 0 && servers > 0 && bucket != DataBucket
    ensures var conf := Config(None, Some([Database(Some(bucket), None)]));
      && !ValidateConfigBucketNames(Mode(ChannelCache), {bucket})
      && ResetEffect(gateways, accels, servers, current, buckets, config, conf,
                     RunOpts(ChannelCache, false), status, fetch).result != Err(ModeViolation)
  {
    var conf := Config(None, Some([Database(Some(bucket), None)]));
    var dbs := [Database(Some(bucket), None)];
    assert dbs[..0] == [];
    assert DatabasesBucketNames(dbs) == Ok([] + [bucket]);
    assert [] + [bucket] == [bucket];
    assert ConfigBucketNames(conf) == Ok([bucket]);
    assert (set n | n in [bucket]) == {bucket};
  }

  /** Every action reset performs is one of its enabled steps: bucket
      operations only when the server is reset, playbooks only when the
      config is deployed, and the sg_accel artifact deletion and start only in
      distributed index mode. Stopping sg_accel, however, is part of every
      deployment. */
  lemma ActionsFollowDecisions(gateways: nat, accels: nat, servers: nat, current: string, buckets: set<string>,
                               config: string, conf: Config, opts: RunOpts,
                               status: Playbook -> int, fetch: nat -> Reading, a: Action)
    requires gateways > 0 && servers > 0 && Complete(conf)
    ensures var e := ResetEffect(gateways, accels, servers, current, buckets, config, conf, opts, status, fetch);
      var reset := ShouldServerReset(opts, buckets);
      var deploy := ShouldDeploy(current, config, reset);
      && (a in e.trace && (a.DeleteBuckets? || a.CreateBuckets?) ==> reset)
      && (a in e.trace && a.Play? ==> deploy)
      && (a in e.trace && a in {Play(DeleteSgAccelArtifacts), Play(StartSgAccel)} ==> opts.mode == DistributedIndex)
      && (deploy ==> |e.trace| > 0 && e.trace[0] == Play(StopSyncGateway))
      && (deploy && status(StopSyncGateway) == 0 ==> |e.trace| > 1 && e.trace[1] == Play(StopSgAccel))
  {
    var names := ConfigBucketNames(conf).value;
    var nameSet := set n | n in names;
    var reset := ShouldServerReset(opts, buckets);
    var deploy := ShouldDeploy(current, config, reset);
    var s := Steps(opts.mode, deploy, reset, buckets, nameSet);
    if a in Execute(s, status, 0).done {
      ExecutedAreEnabled(s, status, 0, a);
    }
    if deploy {
      assert Execute(s, status, 0) == (if status(StopSyncGateway) != 0 then Execution([Play(StopSyncGateway)], Some(StopSyncGateway))
                                       else Then([Play(StopSyncGateway)], Execute(s, status, 1)));
      if status(StopSyncGateway) == 0 {
        assert Execute(s, status, 1) == (if status(StopSgAccel) != 0 then Execution([Play(StopSgAccel)], Some(StopSgAccel))
                                         else Then([Play(StopSgAccel)], Execute(s, status, 2)));
      }
    }
  }

  /** When reset ends with a failed playbook, that playbook is the last
      action, it exited with a non-zero status and every playbook before it
      succeeded. */
  lemma FailedPlaybookEndsReset(gateways: nat, accels: nat, servers: nat, current: string, buckets: set<string>,
                                config: string, conf: Config, opts: RunOpts,
                                status: Playbook -> int, fetch: nat -> Reading, p: Playbook)
    requires ResetEffect(gateways, accels, servers, current, buckets, config, conf, opts, status, fetch).result
             == Err(PlaybookFailed(p))
    ensures var e := ResetEffect(gateways, accels, servers, current, buckets, config, conf, opts, status, fetch);
      && |e.trace| > 0 && e.trace[|e.trace| - 1] == Play(p) && status(p) != 0
      && forall i | 0 <= i < |e.trace| - 1 :: e.trace[i].Play? ==> status(e.trace[i].playbook) == 0
  {
    var names := ConfigBucketNames(conf).value;
    var nameSet := set n | n in names;
    var reset := ShouldServerReset(opts, buckets);
    var deploy := ShouldDeploy(current, config, reset);
    FailureIsLast(Steps(opts.mode, deploy, reset, buckets, nameSet), status, 0);
  }

  /** Around the bucket steps, playbooks leave the buckets as those steps
      make them. */
  lemma OnlyBucketStepsCount(existing: set<string>, stop: seq<Action>, clean: seq<Action>,
                             middle: seq<Action>, after: seq<Action>)
    requires forall i | 0 <= i < |stop| :: stop[i].Play?
    requires forall i | 0 <= i < |clean| :: clean[i].Play?
    requires forall i | 0 <= i < |after| :: after[i].Play?
    ensures AfterActions(existing, stop + (clean + (middle + after))) == AfterActions(existing, middle)
  {
    PlaybooksKeepBuckets(existing, stop);
    AfterActionsAppend(existing, stop, clean + (middle + after));
    PlaybooksKeepBuckets(existing, clean);
    AfterActionsAppend(existing, clean, middle + after);
    AfterActionsAppend(existing, middle, after);
    PlaybooksKeepBuckets(AfterActions(existing, middle), after);
  }

  /** Completed without a failure, the steps of reset leave the server with
      exactly the config's buckets when it is reset, and with the existing
      ones otherwise. */
  lemma {:induction false} BucketsAfterSteps(mode: RunMode, deploy: bool, reset: bool, existing: set<string>,
                                             names: set<string>, status: Playbook -> int)
    requires Execute(Steps(mode, deploy, reset, existing, names), status, 0).failed.None?
    ensures AfterActions(existing, Execute(Steps(mode, deploy, reset, existing, names), status, 0).done)
            == if reset then names else existing
  {
    var s := Steps(mode, deploy, reset, existing, names);
    ExecutedPrefix(s, status, 0);
    ScheduleOfReset(mode, deploy, reset, existing, names);
    var stop := if deploy then [Play(StopSyncGateway), Play(StopSgAccel), Play(DeleteSyncGatewayArtifacts)] else [];
    var clean := if mode == DistributedIndex && deploy then [Play(DeleteSgAccelArtifacts)] else [];
    var middle := if reset then [DeleteBuckets(existing), CreateBuckets(names)] else [];
    var start := if deploy then [Play(StartSyncGateway)] else [];
    var startAccel := if mode == DistributedIndex && deploy then [Play(StartSgAccel)] else [];
    var after := start + startAccel;
    assert Execute(s, status, 0).done == stop + (clean + (middle + after));
    assert forall i | 0 <= i < |stop| :: stop[i].Play?;
    assert forall i | 0 <= i < |clean| :: clean[i].Play?;
    assert forall i | 0 <= i < |after| :: after[i].Play?;
    OnlyBucketStepsCount(existing, stop, clean, middle, after);
    if reset {
      BucketResetLeavesConfigBuckets(existing, names);
    } else {
      assert AfterActions(existing, []) == existing;
    }
  }

  /** When no playbook fails, reset leaves the server with exactly the
      config's buckets if it decided to reset it, and with its old buckets
      otherwise. */
  lemma BucketsAfterReset(gateways: nat, accels: nat, servers: nat, current: string, buckets: set<string>,
                          config: string, conf: Config, opts: RunOpts,
                          status: Playbook -> int, fetch: nat -> Reading)
    requires gateways > 0 && servers > 0 && Complete(conf)
    requires !ResetEffect(gateways, accels, servers, current, buckets, config, conf, opts, status, fetch).result.Err?
             || !ResetEffect(gateways, accels, servers, current, buckets, config, conf, opts, status, fetch).result.error.PlaybookFailed?
    ensures ResetEffect(gateways, accels, servers, current, buckets, config, conf, opts, status, fetch).buckets
            == if ShouldServerReset(opts, buckets) then set n | n in ConfigBucketNames(conf).value else buckets
  {
    var nameSet := set n | n in ConfigBucketNames(conf).value;
    var reset := ShouldServerReset(opts, buckets);
    BucketsAfterSteps(opts.mode, ShouldDeploy(current, config, reset), reset, buckets, nameSet, status);
  }

  /** Resetting twice with the same config and options, when the first reset
      succeeded and the config uses the mode's conventional buckets, does
      nothing the second time and gives the same result. */
  lemma {:induction false} RepeatedResetIsQuiet(gateways: nat, accels: nat, servers: nat, current: string, buckets: set<string>,
                                                config: string, conf: Config, opts: RunOpts,
                                                status: Playbook -> int, fetch: nat -> Reading)
    requires gateways > 0 && servers > 0 && Complete(conf) && !opts.reset
    requires (set n | n in ConfigBucketNames(conf).value) == ModeBuckets(opts.mode)
    requires ResetEffect(gateways, accels, servers, current, buckets, config, conf, opts, status, fetch).result.Ok?
    ensures var first := ResetEffect(gateways, accels, servers, current, buckets, config, conf, opts, status, fetch);
      ResetEffect(gateways, accels, servers, first.configName, first.buckets, config, conf, opts, status, fetch)
        == Effect(first.result, [], config, first.buckets)
  {
    var first := ResetEffect(gateways, accels, servers, current, buckets, config, conf, opts, status, fetch);
    BucketsAfterReset(gateways, accels, servers, current, buckets, config, conf, opts, status, fetch);
    var nameSet := set n | n in ConfigBucketNames(conf).value;
    if ShouldServerReset(opts, buckets) {
      assert first.buckets == ModeBuckets(opts.mode);
      ModeBucketsAreKept(opts.mode);
    }
    assert !ShouldServerReset(opts, first.buckets);
    ScheduleOfReset(opts.mode, false, false, first.buckets, nameSet);
    NothingEnabledNothingDone(Steps(opts.mode, false, false, first.buckets, nameSet), status, 0);
    assert AfterActions(first.buckets, []) == first.buckets;
  }

  /** A channel cache session on a server holding just the data bucket, with
      the config already deployed, performs nothing. */
  lemma ChannelCacheSteadyState(gateways: nat, accels: nat, servers: nat, config: string,
                                conf: Config, status: Playbook -> int, fetch: nat -> Reading)
    requires gateways > 0 && servers > 0 && ConfigBucketNames(conf).Ok?
    ensures ResetEffect(gateways, accels, servers, config, {DataBucket}, config, conf,
                        RunOpts(ChannelCache, false), status, fetch)
            == Effect(Ok(ChannelCache), [], config, {DataBucket})
  {
    var names := ConfigBucketNames(conf).value;
    var nameSet := set n | n in names;
    ModeBucketsAreKept(ChannelCache);
    ScheduleOfReset(ChannelCache, false, false, {DataBucket}, nameSet);
    NothingEnabledNothingDone(Steps(ChannelCache, false, false, {DataBucket}, nameSet), status, 0);
    assert AfterActions({DataBucket}, []) == {DataBucket};
  }

  /** A distributed index session on a server left with only the data bucket
      resets the buckets and redeploys even an unchanged config, running all
      eight steps when every playbook succeeds, and ends with the CBGT check. */
  lemma {:induction false} StaleBucketsInDistributedIndex(gateways: nat, accels: nat, servers: nat, config: string,
                                                          conf: Config, status: Playbook -> int, fetch: nat -> Reading)
    requires gateways > 0 && servers > 0 && ConfigBucketNames(conf).Ok?
    requires forall p :: status(p) == 0
    ensures var nameSet := set n | n in ConfigBucketNames(conf).value;
      ResetEffect(gateways, accels, servers, config, {DataBucket}, config, conf,
                  RunOpts(DistributedIndex, false), status, fetch)
      == Effect(CbgtCheck(DistributedIndex, fetch, accels),
                [Play(StopSyncGateway), Play(StopSgAccel), Play(DeleteSyncGatewayArtifacts), Play(DeleteSgAccelArtifacts),
                 DeleteBuckets({DataBucket}), CreateBuckets(nameSet), Play(StartSyncGateway), Play(StartSgAccel)],
                config, nameSet)
  {
    var nameSet := set n | n in ConfigBucketNames(conf).value;
    var opts := RunOpts(DistributedIndex, false);
    assert ShouldServerReset(opts, {DataBucket});
    var s := Steps(DistributedIndex, true, true, {DataBucket}, nameSet);
    AllSucceed(s, status, 0);
    ExecutedPrefix(s, status, 0);
    ScheduleOfReset(DistributedIndex, true, true, {DataBucket}, nameSet);
    BucketsAfterReset(gateways, accels, servers, config, {DataBucket}, config, conf, opts, status, fetch);
  }
}
