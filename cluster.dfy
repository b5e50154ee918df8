// The Cluster object of lib/cluster.py: the hosts of a test cluster, the name
// of the Sync Gateway config last deployed and the buckets of the first
// Couchbase Server, with the operations that check and reset them.

module ClusterReconcile {
  import opened Results
  import opened BucketPolicy
  import opened SgConfig
  import opened PindexDistribution
  import opened ResetPlan

  /** A host, as the inventory lists it. */
  datatype Node = Node(name: string, ip: string)

  datatype Service = SyncGatewayService | SgAccelService

  /** A service on a host, as verify_alive probes it. */
  datatype Endpoint = Endpoint(service: Service, node: Node)

  /** The endpoints of `service` on `nodes` that the probe could not reach,
      with the connection error, in the order of `nodes`. */
  function Unreachable(service: Service, nodes: seq<Node>, probe: Endpoint -> Option<string>)
    : seq<(Endpoint, string)>
  {
    if nodes == [] then []
    else
      var ep := Endpoint(service, nodes[|nodes| - 1]);
      Unreachable(service, nodes[..|nodes| - 1], probe)
        + (match probe(ep) case None => [] case Some(e) => [(ep, e)])
  }

  /** An endpoint is reported, with its error, exactly when it is one of the
      probed hosts and the probe failed on it. */
  lemma {:induction false} UnreachableReportsFailures(service: Service, nodes: seq<Node>,
                                                     probe: Endpoint -> Option<string>, ep: Endpoint, e: string)
    ensures (ep, e) in Unreachable(service, nodes, probe)
            <==> ep.service == service && ep.node in nodes && probe(ep) == Some(e)
  {
    if nodes != [] {
      var init := nodes[..|nodes| - 1];
      UnreachableReportsFailures(service, init, probe, ep, e);
      assert nodes == init + [nodes[|nodes| - 1]];
    }
  }

  /** Probing does not stop at the first failure: the report for a list of
      hosts is the report for its first part followed by the report for the
      rest. */
  lemma {:induction false} UnreachableAppend(service: Service, xs: seq<Node>, ys: seq<Node>,
                                            probe: Endpoint -> Option<string>)
    ensures Unreachable(service, xs + ys, probe) == Unreachable(service, xs, probe) + Unreachable(service, ys, probe)
    decreases |ys|
  {
    if ys == [] {
      assert xs + ys == xs;
    } else {
      var zs := xs + ys;
      assert zs[..|zs| - 1] == xs + ys[..|ys| - 1];
      assert zs[|zs| - 1] == ys[|ys| - 1];
      UnreachableAppend(service, xs, ys[..|ys| - 1], probe);
    }
  }

  /** The first loop of validate_cbgt_pindex_distribution: the tally of
      every node, or the exception for a pindex placed on several nodes. */
  method TallyPindexes(plan: Plan) returns (r: Result<map<NodeId, nat>, CbgtError>)
    ensures HasMultiOwner(plan) ==> r == Err(MultiOwner)
    ensures !HasMultiOwner(plan) ==> r == Ok(Counts(plan))
  {
    var nodeDefsPindexCounts: map<NodeId, nat> := map[];
    for i := 0 to |plan|
      invariant nodeDefsPindexCounts == Counts(plan[..i])
      invariant forall j | 0 <= j < i :: |plan[j]| <= 1
    {
      var nodes := plan[i];
      assert plan[..i + 1] == plan[..i] + [nodes];
      if |nodes| > 1 {
        return Err(MultiOwner);
      }
      CountsStep(plan[..i], nodes);
      // the inner loop over the pindex's nodes: at most one node here
      if |nodes| == 1 {
        var node := nodes[0];
        if node !in nodeDefsPindexCounts {
          nodeDefsPindexCounts := nodeDefsPindexCounts[node := 0];
        }
        var currentPindexCount := nodeDefsPindexCounts[node];
        currentPindexCount := currentPindexCount + 1;
        nodeDefsPindexCounts := nodeDefsPindexCounts[node := currentPindexCount];
      }
    }
    assert plan[..|plan|] == plan;
    return Ok(nodeDefsPindexCounts);
  }

  /** The second loop of validate_cbgt_pindex_distribution: goes over the
      tally in its iteration order `order`, records the first node's tally and
      stops at the first node whose tally differs from it by more than one;
      an empty tally passes. */
  method BalancedAgainstFirst(counts: map<NodeId, nat>, order: seq<NodeId>) returns (balanced: bool)
    requires forall n :: n in order <==> n in counts
    ensures balanced <==> |order| == 0 || WithinOneOf(counts, counts[order[0]])
  {
    var i := 0;
    var numPindexFirstNode := 0;
    for j := 0 to |order|
      invariant i == if j == 0 then 0 else 1
      invariant j > 0 ==> numPindexFirstNode == counts[order[0]]
      invariant forall k | 0 <= k < j :: Abs(counts[order[k]] as int - counts[order[0]]) <= 1
    {
      var nodeDefUuid := order[j];
      var numPindexes := counts[nodeDefUuid];
      if i == 0 {
        numPindexFirstNode := numPindexes;
        i := i + 1;
        continue;
      }
      var delta := Abs(numPindexFirstNode as int - numPindexes);
      if delta > 1 {
        return false;
      }
    }
    return true;
  }

  /** One playbook of reset, run when `guard` holds, after the actions
      `trace` have been taken: a non-zero status ends the schedule with that
      playbook as the failure, otherwise the schedule carries on at step
      `k + 1`. Playbooks do not touch the buckets. */
  method PlaybookStep(guard: bool, p: Playbook, status: Playbook -> int, ghost steps: seq<(bool, Action)>,
                      ghost k: nat, ghost existing: set<string>, trace: seq<Action>)
    returns (trace': seq<Action>, failed: Option<Playbook>)
    requires k < |steps| && steps[k] == (guard, Play(p))
    ensures AfterActions(existing, trace') == AfterActions(existing, trace)
    ensures failed.Some? ==> Then(trace, Execute(steps, status, k)) == Execution(trace', failed)
    ensures failed.None? ==> Then(trace, Execute(steps, status, k)) == Then(trace', Execute(steps, status, k + 1))
  {
    trace' := trace;
    failed := None;
    if guard {
      AfterActionsStep(existing, trace, Play(p));
      ThenThen(trace, [Play(p)], Execute(steps, status, k + 1));
      trace' := trace + [Play(p)];
      if status(p) != 0 {
        failed := Some(p);
      }
    }
  }

  /** Steps 0 to 3 of reset: stop Sync Gateway and sg_accel and delete
      their artifacts, the last only in distributed index mode. */
  method StopPhase(deploy: bool, accel: bool, status: Playbook -> int,
                   ghost steps: seq<(bool, Action)>, ghost existing: set<string>)
    returns (trace: seq<Action>, failed: Option<Playbook>)
    requires |steps| == 8
    requires steps[0] == (deploy, Play(StopSyncGateway)) && steps[1] == (deploy, Play(StopSgAccel))
    requires steps[2] == (deploy, Play(DeleteSyncGatewayArtifacts)) && steps[3] == (accel, Play(DeleteSgAccelArtifacts))
    ensures AfterActions(existing, trace) == existing
    ensures failed.Some? ==> Execute(steps, status, 0) == Execution(trace, failed)
    ensures failed.None? ==> Execute(steps, status, 0) == Then(trace, Execute(steps, status, 4))
  {
    assert Then([], Execute(steps, status, 0)) == Execute(steps, status, 0);
    trace, failed := PlaybookStep(deploy, StopSyncGateway, status, steps, 0, existing, []);
    if failed.Some? {
      return;
    }
    trace, failed := PlaybookStep(deploy, StopSgAccel, status, steps, 1, existing, trace);
    if failed.Some? {
      return;
    }
    trace, failed := PlaybookStep(deploy, DeleteSyncGatewayArtifacts, status, steps, 2, existing, trace);
    if failed.Some? {
      return;
    }
    trace, failed := PlaybookStep(accel, DeleteSgAccelArtifacts, status, steps, 3, existing, trace);
  }

  /** Steps 6 and 7 of reset: start Sync Gateway, then sg_accel in
      distributed index mode. */
  method StartPhase(deploy: bool, accel: bool, status: Playbook -> int,
                    ghost steps: seq<(bool, Action)>, ghost existing: set<string>, trace: seq<Action>)
    returns (trace': seq<Action>, failed: Option<Playbook>)
    requires |steps| == 8
    requires steps[6] == (deploy, Play(StartSyncGateway)) && steps[7] == (accel, Play(StartSgAccel))
    ensures AfterActions(existing, trace') == AfterActions(existing, trace)
    ensures Then(trace, Execute(steps, status, 6)) == Execution(trace', failed)
  {
    trace', failed := PlaybookStep(deploy, StartSyncGateway, status, steps, 6, existing, trace);
    if failed.Some? {
      return;
    }
    trace', failed := PlaybookStep(accel, StartSgAccel, status, steps, 7, existing, trace');
    if failed.None? {
      assert Execute(steps, status, 8) == Execution([], None);
      assert trace' + [] == trace';
    }
  }

  class Cluster {
    const syncGateways: seq<Node>
    const sgAccels: seq<Node>
    const servers: seq<Node>
    /** The name of the config last deployed; empty before the first reset. */
    var currentSgConfigName: string
    /** The buckets on the first server. */
    var buckets: set<string>

    /** A cluster over the hosts read from the inventory, with nothing
        deployed yet. */
    constructor (syncGateways: seq<Node>, sgAccels: seq<Node>, servers: seq<Node>, buckets: set<string>)
      ensures this.syncGateways == syncGateways && this.sgAccels == sgAccels && this.servers == servers
      ensures this.buckets == buckets
      ensures currentSgConfigName == ""
    {
      this.syncGateways := syncGateways;
      this.sgAccels := sgAccels;
      this.servers := servers;
      this.buckets := buckets;
      currentSgConfigName := "";
    }

    /** validate_cluster: a cluster without sync gateways is refused. */
    method ValidateCluster() returns (r: Result<(), ResetError>)
      ensures r.Ok? <==> |syncGateways| > 0
      ensures r.Err? ==> r.error == NoSyncGateways
    {
      if |syncGateways| == 0 {
        return Err(NoSyncGateways);
      }
      return Ok(());
    }

    /** validate_cbgt_pindex_distribution on the plan read from the first
        sg_accel: tally the pindexes of every node, then compare the number of
        nodes with the number of sg_accels and every tally with the tally of
        the first node in the tally's iteration order `order`. */
    method ValidateCbgtPindexDistribution(plan: Plan, order: seq<NodeId>) returns (r: Result<bool, CbgtError>)
      requires IsKeyOrder(plan, order)
      ensures r == DistributionVerdict(plan, |sgAccels|, order)
    {
      if |sgAccels| == 0 {
        return Err(NoAccel);
      }
      var tally := TallyPindexes(plan);
      if tally.Err? {
        return Err(tally.error);
      }
      var nodeDefsPindexCounts := tally.value;
      assert nodeDefsPindexCounts.Keys == Owners(plan);
      if |nodeDefsPindexCounts| != |sgAccels| {
        return Ok(false);
      }
      var balanced := BalancedAgainstFirst(nodeDefsPindexCounts, order);
      return Ok(balanced);
    }

    /** validate_cbgt_pindex_distribution_retry: up to MaxAttempts attempts,
        attempt i reading the plan `fetch(i).plan` and iterating its tally in
        the order `fetch(i).order`; also gives how many attempts were made. */
    method ValidateCbgtPindexDistributionRetry(fetch: nat -> Reading) returns (r: Result<bool, CbgtError>, attempts: nat)
      ensures r == RetryVerdict(fetch, |sgAccels|)
      ensures 1 <= attempts <= MaxAttempts
      ensures RejectedFrom(Verdicts(fetch, |sgAccels|), 0, attempts - 1)
      ensures r == Ok(false) ==> attempts == MaxAttempts
      ensures r != Ok(false) ==> Verdicts(fetch, |sgAccels|)(attempts - 1) == r
    {
      ghost var verdict := Verdicts(fetch, |sgAccels|);
      for i := 0 to MaxAttempts
        invariant RetryOutcome(verdict, 0) == RetryOutcome(verdict, i)
        invariant RejectedFrom(verdict, 0, i)
      {
        var isValid := ValidateCbgtPindexDistribution(fetch(i).plan, fetch(i).order);
        assert isValid == verdict(i);
        if isValid.Err? {
          return isValid, i + 1;
        }
        if isValid.value {
          return Ok(true), i + 1;
        }
        // the source sleeps five seconds before the next attempt
      }
      return Ok(false), MaxAttempts;
    }

    /** verify_alive: probes every sync gateway, and in distributed index mode
        every sg_accel, and collects the connection errors. */
    method VerifyAlive(mode: RunMode, probe: Endpoint -> Option<string>) returns (errors: seq<(Endpoint, string)>)
      ensures errors == Unreachable(SyncGatewayService, syncGateways, probe)
                        + (if mode == DistributedIndex then Unreachable(SgAccelService, sgAccels, probe) else [])
    {
      errors := [];
      for i := 0 to |syncGateways|
        invariant errors == Unreachable(SyncGatewayService, syncGateways[..i], probe)
      {
        assert syncGateways[..i + 1][..i] == syncGateways[..i];
        var sg := Endpoint(SyncGatewayService, syncGateways[i]);
        match probe(sg) {
          case None =>
          case Some(e) => errors := errors + [(sg, e)];
        }
      }
      assert syncGateways[..|syncGateways|] == syncGateways;
      ghost var fromGateways := errors;
      if mode == DistributedIndex {
        for i := 0 to |sgAccels|
          invariant errors == fromGateways + Unreachable(SgAccelService, sgAccels[..i], probe)
        {
          assert sgAccels[..i + 1][..i] == sgAccels[..i];
          var sa := Endpoint(SgAccelService, sgAccels[i]);
          match probe(sa) {
            case None =>
            case Some(e) => errors := errors + [(sa, e)];
          }
        }
        assert sgAccels[..|sgAccels|] == sgAccels;
      } else {
        assert errors == fromGateways + [];
      }
    }

    /** The playbook runs and bucket operations of reset, in the source's
        order, each under its own condition; the first playbook that fails
        ends the run. */
    method RunResetSteps(mode: RunMode, deploy: bool, reset: bool, names: set<string>, status: Playbook -> int)
      returns (trace: seq<Action>, failed: Option<Playbook>)
      modifies this
      ensures Execution(trace, failed) == Execute(Steps(mode, deploy, reset, old(buckets), names), status, 0)
      ensures buckets == AfterActions(old(buckets), trace)
      ensures currentSgConfigName == old(currentSgConfigName)
    {
      var existingBuckets := buckets;
      var accel := mode == DistributedIndex && deploy;
      ghost var steps := Steps(mode, deploy, reset, existingBuckets, names);
      assert Then([], Execute(steps, status, 0)) == Execute(steps, status, 0);
      trace, failed := StopPhase(deploy, accel, status, steps, existingBuckets);
      if failed.Some? {
        return;
      }
      trace := RecreateBuckets(reset, names, status, steps, existingBuckets, trace);
      trace, failed := StartPhase(deploy, accel, status, steps, existingBuckets, trace);
    }

    /** Steps 4 and 5 of reset: when the buckets are to be reset, delete every
        existing bucket, then create the config's buckets. */
    method RecreateBuckets(reset: bool, names: set<string>, status: Playbook -> int,
                           ghost steps: seq<(bool, Action)>, ghost existing: set<string>, trace: seq<Action>)
      returns (trace': seq<Action>)
      requires |steps| == 8 && steps[4] == (reset, DeleteBuckets(buckets)) && steps[5] == (reset, CreateBuckets(names))
      requires buckets == AfterActions(existing, trace)
      modifies this
      ensures Then(trace, Execute(steps, status, 4)) == Then(trace', Execute(steps, status, 6))
      ensures buckets == AfterActions(existing, trace')
      ensures currentSgConfigName == old(currentSgConfigName)
    {
      trace' := trace;
      if reset {
        var existingBuckets := buckets;
        buckets := buckets - existingBuckets;
        ThenThen(trace', [DeleteBuckets(existingBuckets)], Execute(steps, status, 5));
        AfterActionsStep(existing, trace', DeleteBuckets(existingBuckets));
        trace' := trace' + [DeleteBuckets(existingBuckets)];
        buckets := buckets + names;
        ThenThen(trace', [CreateBuckets(names)], Execute(steps, status, 6));
        AfterActionsStep(existing, trace', CreateBuckets(names));
        trace' := trace' + [CreateBuckets(names)];
      }
    }

    /** reset(config, run_opts): validates the cluster, reads the config's
        bucket names, decides whether to reset the buckets and whether to
        redeploy, runs the steps (see ResetPlan.Steps) until one fails, and in
        distributed index mode ends with the CBGT check. `trace` lists what it
        did; `status` gives each playbook's exit status and `fetch(i)` the
        CBGT plan read on attempt i, with its tally's iteration order. */
    method Reset(config: string, conf: Config, opts: RunOpts, status: Playbook -> int, fetch: nat -> Reading)
      returns (r: Result<RunMode, ResetError>, trace: seq<Action>)
      modifies this
      ensures Effect(r, trace, currentSgConfigName, buckets)
              == ResetEffect(|syncGateways|, |sgAccels|, |servers|, old(currentSgConfigName), old(buckets),
                             config, conf, opts, status, fetch)
    {
      trace := [];
      var clusterValid := ValidateCluster();
      if clusterValid.Err? {
        return Err(clusterValid.error), trace;
      }
      if |servers| == 0 {
        return Err(NoServer), trace;
      }
      var existingBuckets := buckets;
      var bucketNamesFromConfig := GetBucketNamesFromConf(conf);
      if bucketNamesFromConfig.Err? {
        return Err(ConfigKeyMissing(bucketNamesFromConfig.error.key)), trace;
      }
      var bucketNameSet := set n | n in bucketNamesFromConfig.value;
      // given the run options rather than their mode, as in the source
      var namesValid := ValidateConfigBucketNames(NotAMode, bucketNameSet);
      if !namesValid {
        return Err(ModeViolation), trace;
      }
      var reset := ShouldServerReset(opts, existingBuckets);
      var shouldDeployConfig := true;
      if currentSgConfigName == config && !reset {
        shouldDeployConfig := false;
      }
      currentSgConfigName := config;
      var distributedIndex := opts.mode == DistributedIndex;
      var trace', failed := RunResetSteps(opts.mode, shouldDeployConfig, reset, bucketNameSet, status);
      trace := trace';
      if failed.Some? {
        return Err(PlaybookFailed(failed.value)), trace;
      }
      if distributedIndex {
        var valid, _ := ValidateCbgtPindexDistributionRetry(fetch);
        if valid.Err? {
          return Err(CbgtRaised(valid.error)), trace;
        }
        if !valid.value {
          // the source saves the CBGT diagnostics before raising
          return Err(CbgtNotBalanced), trace;
        }
      }
      return Ok(opts.mode), trace;
    }
  }
}
