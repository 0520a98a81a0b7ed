/**
 * Every interleaving of the cloud engine's operations, from an empty cluster on.
 */
module ClusterReach {
  import opened Order
  import opened Cluster
  import opened ClusterSafety
  import opened ClusterHistory
  import opened CampaignRuns

  datatype Op =
    | RegisterNode(node: string, region: string, nodeCapabilities: set<string>, cpu: nat, memoryMb: nat,
                   nodePolicy: string)
    | SubmitCampaign(submitted: CampaignId, candidates: int, backends: seq<string>, jobPolicy: string,
                     requirements: Requirements, maxAttempts: int)
    | ScheduleCampaign(campaign: CampaignId)
    | ExecuteReadyJobs(campaign: CampaignId)
    | RunCampaign(campaign: CampaignId, turns: nat)
    | FailNodeOp(lost: string)
    | DetectStaleNodes(late: set<string>)

  /** Operations on an unknown campaign or node raise `KeyError` and change nothing. */
  ghost function Step(s: Sys, op: Op): Sys {
    match op
    case RegisterNode(n, region, caps, cpu, mem, policy) => Register(s, n, NewNode(s, region, caps, cpu, mem, policy))
    case SubmitCampaign(c, k, backends, policy, req, max) => Submit(s, c, k, backends, policy, req, max)
    case ScheduleCampaign(c) => if c in s.campaigns then Schedule(s, c) else s
    case ExecuteReadyJobs(c) => if c in s.campaigns then Execute(s, c) else s
    case RunCampaign(c, n) => if c in s.campaigns then Final(Rounds(s, c, n), c) else s
    case FailNodeOp(n) => if n in s.nodes then FailNode(s, n) else s
    case DetectStaleNodes(late) => DropStale(s, late)
  }

  /**
   * A node that is registered again, by hand or by autoscaling, must still hold what is allocated under its
   * name, and a run must be one that ends. Nothing is asked of a name that is new.
   */
  ghost predicate Legal(s: Sys, op: Op) {
    match op
    case RegisterNode(n, region, caps, cpu, mem, policy) =>
      Covers(NewNode(s, region, caps, cpu, mem, policy), s.allocations, n)
    case RunCampaign(c, n) => c in s.campaigns ==> EndsAfter(s, c, n) && RunCovers(s, c, n)
    case _ => true
  }

  ghost predicate LegalRun(s: Sys, ops: seq<Op>)
    decreases |ops|
  {
    ops == [] || (Legal(s, ops[0]) && LegalRun(Step(s, ops[0]), ops[1..]))
  }

  ghost function After(s: Sys, ops: seq<Op>): Sys
    decreases |ops|
  {
    if ops == [] then s else After(Step(s, ops[0]), ops[1..])
  }

  function Empty(policyVersion: string, threshold: int): Sys {
    Sys(policyVersion, threshold, map[], [], [], map[], map[], {})
  }

  // ---------------------------------------------------------------- any operations at all

  lemma UpdateSteady(s: Sys, c: CampaignId)
    requires Ready(s, c)
    ensures Ready(UpdateStatus(s, c), c) && Evolves(s, UpdateStatus(s, c))
  {
    var s1 := UpdateStatus(s, c);
    CampaignsOnly(s, s1);
    UpdateStatusOk(s, c);
    ElsewhereOk(s, s1, c);
  }

  lemma {:induction false} RoundsSteady(s: Sys, c: CampaignId, n: nat)
    requires Ready(s, c)
    ensures Ready(Rounds(s, c, n), c) && Evolves(s, Rounds(s, c, n))
    decreases n
  {
    hide Steady, Round, Evolves;
    if n == 0 {
      NothingHappened(s);
    } else {
      RoundStep(s, c);
      RoundsSteady(Round(s, c), c, n - 1);
      EvolvesTrans(s, Round(s, c), Rounds(s, c, n));
    }
  }

  lemma FinalSteady(s: Sys, c: CampaignId, n: nat)
    requires Ready(s, c)
    ensures Steady(Final(Rounds(s, c, n), c)) && Evolves(s, Final(Rounds(s, c, n), c))
  {
    hide Steady, Round, Rounds, Evolves, UpdateStatus;
    var last := Rounds(s, c, n);
    var next := Round(last, c);
    RoundsSteady(s, c, n);
    RoundStep(last, c);
    UpdateSteady(next, c);
    EvolvesTrans(s, last, next);
    EvolvesTrans(s, next, Final(last, c));
  }

  lemma RegisterSteady(s: Sys, n: string, node: Node)
    requires Steady(s)
    ensures Steady(Register(s, n, node)) && Evolves(s, Register(s, n, node))
  {
    hide StatusOk;
    RegisterKeepsIffCovers(s, n, node);
    NodesOnly(s, Register(s, n, node));
  }

  lemma SubmitSteady(s: Sys, c: CampaignId, k: int, backends: seq<string>, policy: string, req: Requirements, max: int)
    requires Steady(s)
    ensures var s' := Submit(s, c, k, backends, policy, req, max); Steady(s') && Evolves(s, s')
  {
    hide Submit, Settled;
    SubmitKeeps(s, c, k, backends, policy, req, max);
    SubmitStep(s, c, k, backends, policy, req, max);
  }

  lemma DropStaleSteady(s: Sys, late: set<string>)
    requires Steady(s)
    ensures Steady(DropStale(s, late)) && Evolves(s, DropStale(s, late))
  {
    hide Settled;
    MarkKeeps(s, DropStale(s, late));
    DropStaleStep(s, late);
  }

  /**
   * Any operation at all keeps ownership and the statuses right and never revives a finished job: nodes may
   * be overwritten by smaller ones, and loops cut short.
   */
  lemma StepSteady(s: Sys, op: Op)
    requires Steady(s)
    ensures Steady(Step(s, op)) && Evolves(s, Step(s, op))
  {
    hide Steady, Evolves, Final, Rounds, Schedule, Execute, FailNode, DropStale, Submit;
    NothingHappened(s);
    match op
    case RegisterNode(n, region, caps, cpu, mem, policy) =>
      RegisterSteady(s, n, NewNode(s, region, caps, cpu, mem, policy));
    case SubmitCampaign(c, k, backends, policy, req, max) => SubmitSteady(s, c, k, backends, policy, req, max);
    case ScheduleCampaign(c) => if c in s.campaigns { ScheduleStep(s, c); }
    case ExecuteReadyJobs(c) => if c in s.campaigns { ExecuteStep(s, c); }
    case RunCampaign(c, n) => if c in s.campaigns { FinalSteady(s, c, n); }
    case FailNodeOp(n) => if n in s.nodes { FailNodeStep(s, n); }
    case DetectStaleNodes(late) => DropStaleSteady(s, late);
  }

  lemma {:induction false} RunSteady(s: Sys, ops: seq<Op>)
    requires Steady(s)
    ensures Steady(After(s, ops)) && Evolves(s, After(s, ops))
    decreases |ops|
  {
    hide Steady, Step;
    if ops != [] {
      StepSteady(s, ops[0]);
      RunSteady(Step(s, ops[0]), ops[1..]);
      EvolvesTrans(s, Step(s, ops[0]), After(s, ops));
    } else {
      NothingHappened(s);
    }
  }

  lemma NothingHappened(s: Sys)
    ensures Evolves(s, s)
  {}

  // ---------------------------------------------------------------- operations that respect capacity

  /** One legal operation keeps the whole invariant. */
  lemma StepKeeps(s: Sys, op: Op)
    requires Boundary(s) && Legal(s, op)
    ensures Boundary(Step(s, op))
  {
    hide Settled, Evolves, Tracked, WithinCapacity;
    assert Consistent(s) && Steady(s);
    StepSteady(s, op);
    match op
    case RegisterNode(n, region, caps, cpu, mem, policy) =>
      RegisterKeepsIffCovers(s, n, NewNode(s, region, caps, cpu, mem, policy));
    case SubmitCampaign(c, k, backends, policy, req, max) => SubmitKeeps(s, c, k, backends, policy, req, max);
    case ScheduleCampaign(c) => if c in s.campaigns { ScheduleKeeps(s, c); }
    case ExecuteReadyJobs(c) => if c in s.campaigns { ExecuteKeeps(s, c); }
    case RunCampaign(c, n) => if c in s.campaigns { RunOutcome(s, c, n, Step(s, op)); }
    case FailNodeOp(n) => if n in s.nodes { FailNodeStep(s, n); }
    case DetectStaleNodes(late) => MarkKeeps(s, DropStale(s, late));
  }

  /** Registering under a new name is legal: nothing is allocated there. */
  lemma NewNamesAreLegal(s: Sys, op: Op)
    requires Tracked(s) && op.RegisterNode? && op.node !in s.nodes
    ensures Legal(s, op)
  {
    UnknownNodeUnused(s, op.node, Cpu);
    UnknownNodeUnused(s, op.node, Memory);
  }

  lemma {:induction false} RunKeepsBoundary(s: Sys, ops: seq<Op>)
    requires Boundary(s) && LegalRun(s, ops)
    ensures Boundary(After(s, ops))
    decreases |ops|
  {
    hide Boundary, Legal, Step;
    if ops != [] {
      StepKeeps(s, ops[0]);
      RunKeepsBoundary(Step(s, ops[0]), ops[1..]);
    }
  }

  /**
   * In every reachable state, whatever the operations were: each scheduled or running job owns exactly one
   * live allocation, on its own node and of its own size, and every other job none; no job has used more
   * attempts than its plan allows; and each campaign's terminal status tells its jobs' status. If the
   * operations were legal, no node is over-committed.
   */
  lemma ReachableStatesAreSafe(policyVersion: string, threshold: int, ops: seq<Op>)
    ensures var s := After(Empty(policyVersion, threshold), ops);
      && (forall job :: job in s.jobs && Holds(job) ==>
            job.node.Some? && job.node.value in s.nodes
            && LiveFor(s.allocations, job.id) == [NewAllocation(job, job.node.value)])
      && (forall job :: job in s.jobs && !Holds(job) ==> LiveFor(s.allocations, job.id) == [])
      && (forall job :: job in s.jobs ==> job.id.campaign in s.limits && job.attempt <= s.limits[job.id.campaign])
      && (forall c :: c in s.campaigns ==> StatusOk(s, c))
    ensures LegalRun(Empty(policyVersion, threshold), ops) ==>
      var s := After(Empty(policyVersion, threshold), ops);
      forall n, r :: n in s.nodes ==> Used(s.allocations, n, r) <= Capacity(s.nodes[n], r)
  {
    hide StatusOk, Used, LiveFor, LegalRun, After;
    var s0 := Empty(policyVersion, threshold);
    var s := After(s0, ops);
    RunSteady(s0, ops);
    forall job | job in s.jobs
      ensures JobOk(s, job) && LiveFor(s.allocations, job.id) == Owned(job)
    {
      var i :| 0 <= i < |s.jobs| && s.jobs[i] == job;
      assert JobOk(s, s.jobs[i]) && LiveFor(s.allocations, s.jobs[i].id) == Owned(s.jobs[i]);
    }
    if LegalRun(s0, ops) {
      RunKeepsBoundary(s0, ops);
      forall n, r | n in s.nodes ensures Used(s.allocations, n, r) <= Capacity(s.nodes[n], r) {
        assert Covers(s.nodes[n], s.allocations, n);
      }
    }
  }

  /**
   * Once a campaign is completed or failed, no later operation changes its status or its jobs, whatever
   * the operations are: nodes may be overwritten by smaller ones, and loops cut short.
   */
  lemma ClosedCampaignsStayClosed(policyVersion: string, threshold: int, before: seq<Op>, after: seq<Op>, c: CampaignId)
    ensures var s := After(Empty(policyVersion, threshold), before);
      var s' := After(s, after);
      c in s.campaigns && s.campaigns[c] in {CampaignCompleted, CampaignFailed} ==>
        && c in s'.campaigns && s'.campaigns[c] == s.campaigns[c]
        && forall i :: 0 <= i < |s'.jobs| && s'.jobs[i].id.campaign == c ==> i < |s.jobs| && s'.jobs[i] == s.jobs[i]
  {
    var s0 := Empty(policyVersion, threshold);
    var s := After(s0, before);
    RunSteady(s0, before);
    RunSteady(s, after);
    if c in s.campaigns && Closed(s.campaigns[c]) {
      ClosedForever(s, After(s, after), c);
    }
  }
}
