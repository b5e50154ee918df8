// What the CBGT partition check of lib/cluster.py computes from a plan: how
// many partitions (pindexes) each sg_accel node owns, and whether the plan is
// accepted as balanced.

module PindexDistribution {
  import opened Results

  /** A CBGT node UUID. */
  type NodeId = string

  /** planPIndexes: the node list of every planned pindex, in the order the
      plan dictionary is iterated. */
  type Plan = seq<seq<NodeId>>

  /** The exceptions the check raises: no sg_accel to ask for the plan
      (indexing an empty list), or a pindex placed on several nodes. */
  datatype CbgtError = NoAccel | MultiOwner

  function Abs(x: int): nat
  {
    if x < 0 then -x else x
  }

  /** Some pindex lives on more than one node. */
  predicate HasMultiOwner(plan: Plan)
  {
    exists i | 0 <= i < |plan| :: |plan[i]| > 1
  }

  /** The number of pindexes that live on node `n` alone. */
  function OwnedBy(plan: Plan, n: NodeId): nat
  {
    if plan == [] then 0
    else OwnedBy(plan[..|plan| - 1], n) + (if plan[|plan| - 1] == [n] then 1 else 0)
  }

  /** The nodes that own at least one pindex. */
  function Owners(plan: Plan): set<NodeId>
  {
    if plan == [] then {}
    else
      var last := plan[|plan| - 1];
      Owners(plan[..|plan| - 1]) + (if |last| == 1 then {last[0]} else {})
  }

  /** A node owns a pindex exactly when its tally is positive. */
  lemma {:induction false} OwnersHavePindexes(plan: Plan, n: NodeId)
    ensures n in Owners(plan) <==> OwnedBy(plan, n) > 0
  {
    if plan != [] {
      OwnersHavePindexes(plan[..|plan| - 1], n);
    }
  }

  /** The tally built by the check: every owner and how many pindexes it owns. */
  function Counts(plan: Plan): map<NodeId, nat>
  {
    map n | n in Owners(plan) :: OwnedBy(plan, n)
  }

  /** Every node's tally lies within one of `base`. */
  predicate WithinOneOf(counts: map<NodeId, nat>, base: nat)
  {
    forall n | n in counts :: Abs(counts[n] as int - base) <= 1
  }

  /** `order` is an iteration order of the tally built from `plan`: it lists
      every owner, and nothing else, exactly once. Python 2 iterates a
      dictionary in the order of its keys' hashes and table slots, which the
      model does not compute; any such order may be the one the check sees. */
  predicate IsKeyOrder(plan: Plan, order: seq<NodeId>)
  {
    && (forall n | n in order :: n in Owners(plan))
    && (forall n | n in Owners(plan) :: n in order)
    && (forall i, j | 0 <= i < j < |order| :: order[i] != order[j])
  }

  /** What one attempt of the check works on: the plan read from the first
      sg_accel and the order in which its tally is iterated. */
  datatype PlanView = PlanView(plan: Plan, order: seq<NodeId>)

  type Reading = v: PlanView | IsKeyOrder(v.plan, v.order) witness PlanView([], [])

  /** The balance test: every tally lies within one of the tally of the node
      the iteration yields first (a tally without nodes passes). */
  predicate Balanced(plan: Plan, order: seq<NodeId>)
  {
    |order| == 0 || WithinOneOf(Counts(plan), OwnedBy(plan, order[0]))
  }

  /** validate_cbgt_pindex_distribution as a function of the plan the first
      sg_accel returns and the iteration order of its tally: the plan is
      accepted when the owners are as many as the sg_accels and every owner's
      tally is within one of the tally of the node iterated first. */
  function DistributionVerdict(plan: Plan, accels: nat, order: seq<NodeId>): Result<bool, CbgtError>
  {
    if accels == 0 then Err(NoAccel)
    else if HasMultiOwner(plan) then Err(MultiOwner)
    else if |Owners(plan)| != accels then Ok(false)
    else Ok(Balanced(plan, order))
  }

  /** Adding one pindex to the plan adds one to its single node's tally. */
  lemma CountsStep(plan: Plan, nodes: seq<NodeId>)
    requires |nodes| <= 1
    ensures Counts(plan + [nodes]) ==
      if |nodes| == 1 then
        Counts(plan)[nodes[0] := (if nodes[0] in Counts(plan) then Counts(plan)[nodes[0]] else 0) + 1]
      else
        Counts(plan)
  {
    var p := plan + [nodes];
    assert p[..|p| - 1] == plan;
    if |nodes| == 1 {
      OwnersHavePindexes(plan, nodes[0]);
    }
  }

  /** Tallies split over a concatenation of plans. */
  lemma {:induction false} OwnedByAppend(xs: Plan, ys: Plan, n: NodeId)
    ensures OwnedBy(xs + ys, n) == OwnedBy(xs, n) + OwnedBy(ys, n)
    ensures Owners(xs + ys) == Owners(xs) + Owners(ys)
    decreases |ys|
  {
    if ys == [] {
      assert xs + ys == xs;
    } else {
      var zs := xs + ys;
      assert zs[..|zs| - 1] == xs + ys[..|ys| - 1];
      assert zs[|zs| - 1] == ys[|ys| - 1];
      OwnedByAppend(xs, ys[..|ys| - 1], n);
    }
  }

  /** Partitions assigned to no node are not flagged: inserted anywhere in
      the plan's iteration order, such a pindex changes nothing. */
  lemma UnownedPindexesIgnored(plan: Plan, accels: nat, order: seq<NodeId>, i: nat)
    requires i <= |plan|
    ensures DistributionVerdict(plan[..i] + [[]] + plan[i..], accels, order) == DistributionVerdict(plan, accels, order)
  {
    var front := plan[..i] + [[]];
    var p := front + plan[i..];
    assert plan == plan[..i] + plan[i..];
    assert front[..|front| - 1] == plan[..i];
    forall n
      ensures OwnedBy(p, n) == OwnedBy(plan, n)
    {
      OwnedByAppend(front, plan[i..], n);
      OwnedByAppend(plan[..i], plan[i..], n);
    }
    OwnedByAppend(front, plan[i..], "");
    OwnedByAppend(plan[..i], plan[i..], "");
    assert Owners(p) == Owners(plan);
    assert Counts(p) == Counts(plan);
    assert HasMultiOwner(p) == HasMultiOwner(plan) by {
      if HasMultiOwner(p) {
        var k :| 0 <= k < |p| && |p[k]| > 1;
        if k < i {
          assert p[k] == plan[k];
        } else {
          assert k != i && p[k] == plan[k - 1];
        }
      }
      if HasMultiOwner(plan) {
        var k :| 0 <= k < |plan| && |plan[k]| > 1;
        if k < i {
          assert p[k] == plan[k];
        } else {
          assert p[k + 1] == plan[k];
        }
      }
    }
  }

  /** When all the tallies lie within one of each other the plan is accepted,
      whichever node the iteration yields first. */
  lemma EvenSpreadPasses(plan: Plan, accels: nat, order: seq<NodeId>)
    requires IsKeyOrder(plan, order)
    requires accels > 0 && !HasMultiOwner(plan) && |Owners(plan)| == accels
    requires forall m, n | m in Owners(plan) && n in Owners(plan) :: Abs(OwnedBy(plan, m) as int - OwnedBy(plan, n)) <= 1
    ensures DistributionVerdict(plan, accels, order) == Ok(true)
  {
    if |order| > 0 {
      assert order[0] in Owners(plan);
    }
  }

  /** An accepted plan never has two owners whose tallies differ by more
      than two, whatever the iteration order: the comparison with the first
      node bounds the spread. */
  lemma AcceptedSpreadAtMostTwo(plan: Plan, accels: nat, order: seq<NodeId>, m: NodeId, n: NodeId)
    requires IsKeyOrder(plan, order) && DistributionVerdict(plan, accels, order) == Ok(true)
    requires m in Owners(plan) && n in Owners(plan)
    ensures Abs(OwnedBy(plan, m) as int - OwnedBy(plan, n)) <= 2
  {
    var counts := Counts(plan);
    assert m in order;
    assert WithinOneOf(counts, OwnedBy(plan, order[0]));
    WithinOneSpread(counts, OwnedBy(plan, order[0]), m, n);
  }

  /** Two tallies within one of the same base are within two of each other. */
  lemma WithinOneSpread(counts: map<NodeId, nat>, base: nat, m: NodeId, n: NodeId)
    requires WithinOneOf(counts, base) && m in counts && n in counts
    ensures Abs(counts[m] as int - counts[n]) <= 2
  {
    assert Abs(counts[m] as int - base) <= 1;
    assert Abs(counts[n] as int - base) <= 1;
  }

  /** Three sg_accels owning one, two and three pindexes. */
  const UnevenPlan: Plan := [["a"], ["b"], ["b"], ["c"], ["c"], ["c"]]

  /** The tally of UnevenPlan. */
  lemma UnevenPlanTally()
    ensures !HasMultiOwner(UnevenPlan) && Owners(UnevenPlan) == {"a", "b", "c"}
    ensures Counts(UnevenPlan) == map["a" := 1, "b" := 2, "c" := 3]
  {
    var plan := UnevenPlan;
    var p1 := plan[..1];
    var p2 := plan[..2];
    var p3 := plan[..3];
    var p4 := plan[..4];
    var p5 := plan[..5];
    assert p1[..0] == [] && p2[..1] == p1 && p3[..2] == p2 && p4[..3] == p3 && p5[..4] == p4 && plan[..5] == p5;
    assert Owners(p1) == {"a"} && OwnedBy(p1, "a") == 1 && OwnedBy(p1, "b") == 0 && OwnedBy(p1, "c") == 0;
    assert Owners(p2) == {"a", "b"} && OwnedBy(p2, "b") == 1 && OwnedBy(p2, "c") == 0;
    assert Owners(p3) == {"a", "b"} && OwnedBy(p3, "a") == 1 && OwnedBy(p3, "b") == 2 && OwnedBy(p3, "c") == 0;
    assert Owners(p4) == {"a", "b", "c"} && OwnedBy(p4, "a") == 1 && OwnedBy(p4, "b") == 2 && OwnedBy(p4, "c") == 1;
    assert Owners(p5) == {"a", "b", "c"} && OwnedBy(p5, "c") == 2;
    assert Owners(plan) == {"a", "b", "c"};
    assert OwnedBy(plan, "a") == 1 && OwnedBy(plan, "b") == 2 && OwnedBy(plan, "c") == 3;
    assert !HasMultiOwner(plan);
  }

  /** The balance test is measured from the node iterated first, not between
      the smallest and largest tallies: the same plan is accepted when the
      node with two pindexes comes first and rejected when the node with one
      does. */
  lemma BalanceDependsOnFirstNode()
    ensures IsKeyOrder(UnevenPlan, ["a", "b", "c"]) && IsKeyOrder(UnevenPlan, ["b", "a", "c"])
    ensures DistributionVerdict(UnevenPlan, 3, ["a", "b", "c"]) == Ok(false)
    ensures DistributionVerdict(UnevenPlan, 3, ["b", "a", "c"]) == Ok(true)
  {
    UnevenPlanTally();
    var counts := Counts(UnevenPlan);
    assert OwnedBy(UnevenPlan, "a") == counts["a"] == 1;
    assert OwnedBy(UnevenPlan, "b") == counts["b"] == 2;
    assert Abs(counts["c"] as int - OwnedBy(UnevenPlan, "a")) == 2;
  }

  /** Two sg_accels owning two pindexes and one pindex are balanced; owning
      three and one they are not; with two nodes the iteration order does
      not matter. */
  lemma TwoNodeExamples()
    ensures DistributionVerdict([["A"], ["B"], ["A"]], 2, ["A", "B"]) == Ok(true)
    ensures DistributionVerdict([["A"], ["B"], ["A"]], 2, ["B", "A"]) == Ok(true)
    ensures DistributionVerdict([["A"], ["A"], ["A"], ["B"]], 2, ["A", "B"]) == Ok(false)
    ensures DistributionVerdict([["A"], ["A"], ["A"], ["B"]], 2, ["B", "A"]) == Ok(false)
  {
    var p1: Plan := [["A"], ["B"], ["A"]];
    var q1: Plan := [["A"]];
    var q2: Plan := [["A"], ["B"]];
    assert q1[..0] == [];
    assert q2[..1] == q1;
    assert p1[..2] == q2;
    assert OwnedBy(q1, "A") == 1 && OwnedBy(q1, "B") == 0;
    assert OwnedBy(q2, "A") == 1 && OwnedBy(q2, "B") == 1;
    assert OwnedBy(p1, "A") == 2 && OwnedBy(p1, "B") == 1;
    assert Owners(q2) == {"A", "B"};
    assert Owners(p1) == {"A", "B"};
    assert !HasMultiOwner(p1);

    var p2: Plan := [["A"], ["A"], ["A"], ["B"]];
    var r2: Plan := [["A"], ["A"]];
    var r3: Plan := [["A"], ["A"], ["A"]];
    assert r2[..1] == q1;
    assert r3[..2] == r2;
    assert p2[..3] == r3;
    assert OwnedBy(r2, "B") == 0 && OwnedBy(r3, "B") == 0;
    assert OwnedBy(r2, "A") == 2 && OwnedBy(r3, "A") == 3;
    assert OwnedBy(p2, "A") == 3 && OwnedBy(p2, "B") == 1;
    assert Owners(r3) == {"A"};
    assert Owners(p2) == {"A", "B"};
    assert !HasMultiOwner(p2);
    assert Counts(p2)["B"] == 1 && Counts(p2)["A"] == 3;
  }

  /** The number of attempts validate_cbgt_pindex_distribution_retry makes. */
  const MaxAttempts: nat := 10

  /** The retry loop of validate_cbgt_pindex_distribution_retry from attempt
      `attempt` on, where `verdict(i)` is what attempt i's check gives: an
      accepted plan ends the loop with true, an exception ends it by
      propagating, and after MaxAttempts rejections it gives false. */
  function RetryOutcome(verdict: nat -> Result<bool, CbgtError>, attempt: nat): Result<bool, CbgtError>
    decreases MaxAttempts - attempt
  {
    if attempt >= MaxAttempts then Ok(false)
    else
      match verdict(attempt)
      case Err(e) => Err(e)
      case Ok(true) => Ok(true)
      case Ok(false) => RetryOutcome(verdict, attempt + 1)
  }

  /** The verdict of each attempt, when attempt i reads `fetch(i)`. */
  function Verdicts(fetch: nat -> Reading, accels: nat): nat -> Result<bool, CbgtError>
  {
    (i: nat) => DistributionVerdict(fetch(i).plan, accels, fetch(i).order)
  }

  /** The retry over the plans `fetch(0)`, `fetch(1)`, ... read on successive
      attempts, with `accels` sg_accels in the cluster. */
  function RetryVerdict(fetch: nat -> Reading, accels: nat): Result<bool, CbgtError>
  {
    RetryOutcome(Verdicts(fetch, accels), 0)
  }

  /** Every attempt from `from` up to (not including) `to` is rejected. */
  predicate RejectedFrom(verdict: nat -> Result<bool, CbgtError>, from: nat, to: nat)
  {
    forall i | from <= i < to :: verdict(i) == Ok(false)
  }

  /** Attempt `k` is the first, from `attempt` on, that is accepted. */
  predicate FirstAccepted(verdict: nat -> Result<bool, CbgtError>, attempt: nat, k: nat)
  {
    attempt <= k < MaxAttempts && verdict(k) == Ok(true) && RejectedFrom(verdict, attempt, k)
  }

  /** The retry gives false exactly when each attempt from `attempt` on is
      rejected. */
  lemma {:induction false} RetryFalseIff(verdict: nat -> Result<bool, CbgtError>, attempt: nat)
    ensures RetryOutcome(verdict, attempt) == Ok(false) <==> RejectedFrom(verdict, attempt, MaxAttempts)
    decreases MaxAttempts - attempt
  {
    if attempt < MaxAttempts {
      RetryFalseIff(verdict, attempt + 1);
    }
  }

  /** The retry gives true exactly when some attempt is accepted and every
      attempt before it was rejected. */
  lemma {:induction false} RetryTrueIff(verdict: nat -> Result<bool, CbgtError>, attempt: nat)
    ensures RetryOutcome(verdict, attempt) == Ok(true) <==> exists k :: FirstAccepted(verdict, attempt, k)
    decreases MaxAttempts - attempt
  {
    if attempt < MaxAttempts {
      RetryTrueIff(verdict, attempt + 1);
      if verdict(attempt) == Ok(true) {
        assert FirstAccepted(verdict, attempt, attempt);
      } else if verdict(attempt) == Ok(false) {
        if RetryOutcome(verdict, attempt) == Ok(true) {
          var k :| FirstAccepted(verdict, attempt + 1, k);
          assert FirstAccepted(verdict, attempt, k);
        }
        if exists k :: FirstAccepted(verdict, attempt, k) {
          var k :| FirstAccepted(verdict, attempt, k);
          assert FirstAccepted(verdict, attempt + 1, k);
        }
      }
    }
  }

  /** The retry gives an error exactly when some attempt raises and every
      attempt before it was rejected; the error is the one raised. */
  lemma {:induction false} RetryErrIff(verdict: nat -> Result<bool, CbgtError>, attempt: nat, e: CbgtError)
    ensures RetryOutcome(verdict, attempt) == Err(e)
            <==> exists k :: attempt <= k < MaxAttempts && verdict(k) == Err(e) && RejectedFrom(verdict, attempt, k)
    decreases MaxAttempts - attempt
  {
    if attempt < MaxAttempts {
      RetryErrIff(verdict, attempt + 1, e);
      if verdict(attempt) == Ok(false) {
        if RetryOutcome(verdict, attempt) == Err(e) {
          var k :| attempt + 1 <= k < MaxAttempts && verdict(k) == Err(e) && RejectedFrom(verdict, attempt + 1, k);
          assert RejectedFrom(verdict, attempt, k);
        }
        if exists k :: attempt <= k < MaxAttempts && verdict(k) == Err(e) && RejectedFrom(verdict, attempt, k) {
          var k :| attempt <= k < MaxAttempts && verdict(k) == Err(e) && RejectedFrom(verdict, attempt, k);
          assert k != attempt;
          assert RejectedFrom(verdict, attempt + 1, k);
        }
      } else if verdict(attempt) == Err(e) {
        assert RejectedFrom(verdict, attempt, attempt);
      }
    }
  }

  /** Without sg_accels the very first attempt raises. */
  lemma RetryWithoutAccelsRaises(fetch: nat -> Reading)
    ensures RetryVerdict(fetch, 0) == Err(NoAccel)
  {
    var verdict := Verdicts(fetch, 0);
    assert verdict(0) == DistributionVerdict(fetch(0).plan, 0, fetch(0).order) == Err(NoAccel);
    assert RetryVerdict(fetch, 0) == RetryOutcome(verdict, 0);
  }
}
