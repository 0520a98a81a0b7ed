/** Reachable clusters on which the allocator's promises fail. */
module ClusterWitnesses {
  import opened Order
  import opened Cluster
  import opened ClusterSafety
  import opened ClusterHistory
  import opened CampaignRuns
  import opened ClusterReach

  const POLICY := "v1"
  const CAMPAIGN: CampaignId := CampaignId("c", "o")
  const HOLDER: CampaignId := CampaignId("h", "o")

  lemma AfterRun(s: Sys, ops: seq<Op>, op: Op)
    ensures After(s, ops + [op]) == Step(After(s, ops), op)
    ensures LegalRun(s, ops) && Legal(After(s, ops), op) ==> LegalRun(s, ops + [op])
    decreases |ops|
  {
    hide Step, Legal;
    if ops == [] {
      assert [op][1..] == [] && After(Step(s, op), []) == Step(s, op) && ops + [op] == [op];
      assert LegalRun(Step(s, op), []);
    } else {
      assert (ops + [op])[1..] == ops[1..] + [op];
      AfterRun(Step(s, ops[0]), ops[1..], op);
    }
  }

  lemma EmptyIsBoundary(threshold: int)
    ensures Boundary(Empty(POLICY, threshold))
  {}

  // ---------------------------------------------------------------- four jobs that wait

  /** Three candidates and a verification: one job more than the default threshold. */
  function Submission(req: Requirements): Op { SubmitCampaign(CAMPAIGN, 3, [], POLICY, req, 3) }

  ghost predicate FourWait(s: Sys, req: Requirements) {
    && CAMPAIGN in s.campaigns
    && (forall job :: job in s.jobs && job.id.campaign == CAMPAIGN ==> job.requirements == req)
    && |PendingJobs(s, CAMPAIGN)| > 3
  }

  lemma NewJob(s: Sys, c: CampaignId, names: seq<JobName>, req: Requirements, k: nat) returns (i: nat)
    requires k < |names| && forall job :: job in s.jobs ==> job.id.campaign != c
    ensures var s' := AddJobs(s, c, names, req, POLICY);
      |s.jobs| <= i < |s'.jobs| && s'.jobs[i].id == JobId(c, names[k]) && IsPending(s', c, i)
  {
    AddJobsShape(s, c, names, req, POLICY);
    var s' := AddJobs(s, c, names, req, POLICY);
    assert Known(s'.jobs, JobId(c, names[k]));
    i :| 0 <= i < |s'.jobs| && s'.jobs[i].id == JobId(c, names[k]);
    forall k | 0 <= k < |s.jobs| ensures s'.jobs[k].id.campaign != c { assert s.jobs[k] in s.jobs; }
  }

  lemma SubmissionWaits(s: Sys, s': Sys, req: Requirements)
    requires Boundary(s) && CAMPAIGN !in s.campaigns && s' == Step(s, Submission(req))
    ensures Boundary(s') && FourWait(s', req)
    ensures s' == s.(jobs := s'.jobs, campaigns := s'.campaigns, limits := s'.limits)
    ensures |s.jobs| <= |s'.jobs| && forall i :: 0 <= i < |s.jobs| ==> s'.jobs[i] == s.jobs[i]
  {
    hide AddJobs, FourWait, Boundary;
    StepKeeps(s, Submission(req));
    JobsHaveCampaigns(s);
    var filed := s.(campaigns := s.campaigns[CAMPAIGN := CampaignPending], limits := s.limits[CAMPAIGN := 3]);
    assert s' == AddJobs(filed, CAMPAIGN, JobNames(3, []), req, POLICY);
    FiledWait(filed, s', req);
  }

  lemma JobsHaveCampaigns(s: Sys)
    requires Boundary(s)
    ensures forall job :: job in s.jobs ==> job.id.campaign in s.campaigns
  {
    forall job | job in s.jobs ensures job.id.campaign in s.campaigns {
      var i :| 0 <= i < |s.jobs| && s.jobs[i] == job;
      assert JobOk(s, s.jobs[i]);
    }
  }

  lemma FiledWait(s: Sys, s': Sys, req: Requirements)
    requires CAMPAIGN in s.campaigns && forall job :: job in s.jobs ==> job.id.campaign != CAMPAIGN
    requires s' == AddJobs(s, CAMPAIGN, JobNames(3, []), req, POLICY)
    ensures FourWait(s', req) && s' == s.(jobs := s'.jobs)
    ensures |s.jobs| <= |s'.jobs| && forall i :: 0 <= i < |s.jobs| ==> s'.jobs[i] == s.jobs[i]
  {
    hide AddJobs;
    var names := JobNames(3, []);
    assert names == [Candidate(0), Candidate(1), Candidate(2), Verification];
    AddJobsShape(s, CAMPAIGN, names, req, POLICY);
    var a := NewJob(s, CAMPAIGN, names, req, 0);
    var b := NewJob(s, CAMPAIGN, names, req, 1);
    var c := NewJob(s, CAMPAIGN, names, req, 2);
    var d := NewJob(s, CAMPAIGN, names, req, 3);
    FourMembers(PendingJobs(s', CAMPAIGN), a, b, c, d);
  }

  lemma FourMembers(xs: set<int>, a: int, b: int, c: int, d: int)
    requires {a, b, c, d} <= xs && a != b && a != c && a != d && b != c && b != d && c != d
    ensures |xs| > 3
  {
    SubsetSize({a, b, c, d}, xs);
  }

  lemma AllBlocked(s: Sys, req: Requirements)
    requires FourWait(s, req) && !Placeable(s, CAMPAIGN, req)
    ensures |Blocked(s, CAMPAIGN)| > 3
  {
    hide Placeable;
    forall i | i in PendingJobs(s, CAMPAIGN) ensures i in Blocked(s, CAMPAIGN) {
      assert s.jobs[i] in s.jobs;
    }
    SubsetSize(PendingJobs(s, CAMPAIGN), Blocked(s, CAMPAIGN));
  }

  // ---------------------------------------------------------------- a run that never ends

  /** Jobs for a region that neither a registered nor an autoscaled node is in. */
  const ON_MARS: Requirements := Requirements(1, 64, ["mars"], {})

  lemma NothingOnMars(s: Sys)
    requires forall n :: n in s.nodes ==> s.nodes[n].region != "mars"
    ensures !Placeable(s, CAMPAIGN, ON_MARS)
  {
    assert |AUTO_REGION| != |"mars"|;
  }

  /**
   * Four jobs that need a region nobody offers, one more than the threshold: `run_campaign` autoscales
   * for ever.
   */
  lemma MarsCampaignNeverEnds()
    ensures LegalRun(Empty(POLICY, 3), [Submission(ON_MARS)])
    ensures var s := After(Empty(POLICY, 3), [Submission(ON_MARS)]);
      Ready(s, CAMPAIGN) && |Blocked(s, CAMPAIGN)| > s.threshold && !Ends(s, CAMPAIGN)
  {
    hide Blocked, Ends, Placeable, FourWait, Steady;
    var s0 := Empty(POLICY, 3);
    var s := Step(s0, Submission(ON_MARS));
    EmptyIsBoundary(3);
    AfterRun(s0, [], Submission(ON_MARS));
    assert [] + [Submission(ON_MARS)] == [Submission(ON_MARS)];
    SubmissionWaits(s0, s, ON_MARS);
    BoundaryIsReady(s, ON_MARS);
    NothingOnMars(s);
    AllBlocked(s, ON_MARS);
    EndsIffFewBlocked(s, CAMPAIGN);
  }

  lemma BoundaryIsReady(s: Sys, req: Requirements)
    requires Boundary(s) && FourWait(s, req)
    ensures Ready(s, CAMPAIGN)
  {}

  // ---------------------------------------------------------------- a node that is held

  /** A first node, and a campaign whose jobs each ask for all of its cpu: one of them gets it. */
  function Holding(n: string, region: string, cpu: nat, memoryMb: nat): seq<Op> {
    [RegisterNode(n, region, {}, cpu, memoryMb, POLICY),
     SubmitCampaign(HOLDER, 1, [], POLICY, Requirements(cpu, 64, [], {}), 3),
     ScheduleCampaign(HOLDER)]
  }

  predicate HoldsAll(job: JobState, n: string, node: Node) {
    job.id.campaign == HOLDER && Holds(job) && job.node == Some(n) && job.requirements.cpu == node.cpuCapacity
  }

  /** `n` is the only node, and a job of the other campaign holds all of its cpu. */
  ghost predicate Held(s: Sys, n: string, node: Node) {
    && s.threshold == 3 && s.policyVersion == POLICY && s.nodes == map[n := node]
    && exists k :: 0 <= k < |s.jobs| && HoldsAll(s.jobs[k], n, node)
  }

  lemma {:induction false} DemandAtLeast(jobs: seq<JobState>, k: nat, n: string, r: Resource, skip: Option<CampaignId>)
    requires k < |jobs|
    ensures Contribution(jobs[k], n, r, skip) <= Demand(jobs, n, r, skip)
  {
    if k < |jobs| - 1 { DemandAtLeast(jobs[..|jobs| - 1], k, n, r, skip); }
  }

  lemma HeldDemand(s: Sys, n: string, node: Node, skip: Option<CampaignId>)
    requires Held(s, n, node) && skip != Some(HOLDER)
    ensures Demand(s.jobs, n, Cpu, skip) >= node.cpuCapacity
  {
    var k :| 0 <= k < |s.jobs| && HoldsAll(s.jobs[k], n, node);
    DemandAtLeast(s.jobs, k, n, Cpu, skip);
  }

  lemma HeldStays(s: Sys, s': Sys, n: string, node: Node)
    requires Held(s, n, node) && s'.nodes == s.nodes && s'.threshold == s.threshold
    requires s'.policyVersion == s.policyVersion
    requires forall k :: 0 <= k < |s.jobs| && s.jobs[k].id.campaign == HOLDER ==>
      k < |s'.jobs| && s'.jobs[k] == s.jobs[k]
    ensures Held(s', n, node)
  {
    var k :| 0 <= k < |s.jobs| && HoldsAll(s.jobs[k], n, node);
    assert HoldsAll(s'.jobs[k], n, node);
  }

  /** The cluster after the registration and the submission. */
  ghost predicate Waiting(s: Sys, n: string, node: Node) {
    && s.threshold == 3 && s.policyVersion == POLICY && s.nodes == map[n := node] && s.allocations == []
    && s.campaigns == map[HOLDER := CampaignPending]
    && (exists i: nat :: IsPending(s, HOLDER, i))
    && forall i :: 0 <= i < |s.jobs| ==> s.jobs[i].requirements == Requirements(node.cpuCapacity, 64, [], {})
  }

  lemma HolderWaits(s: Sys, s': Sys, n: string, node: Node)
    requires s == Register(Empty(POLICY, 3), n, node)
    requires s' == Submit(s, HOLDER, 1, [], POLICY, Requirements(node.cpuCapacity, 64, [], {}), 3)
    ensures Waiting(s', n, node)
  {
    var req := Requirements(node.cpuCapacity, 64, [], {});
    var filed := s.(campaigns := map[HOLDER := CampaignPending], limits := map[HOLDER := 3]);
    var names := JobNames(1, []);
    hide AddJobs;
    assert s' == AddJobs(filed, HOLDER, names, req, POLICY);
    AddJobsShape(filed, HOLDER, names, req, POLICY);
    var i := NewJob(filed, HOLDER, names, req, 0);
  }

  lemma SomeoneIsScheduled(s: Sys, n: string, node: Node)
    requires Tracked(s) && Waiting(s, n, node)
    requires node.status == Active && node.attested && node.memoryMbCapacity >= 64
    ensures SchedulePass(s, HOLDER, 0).jobs != s.jobs
  {
    var i: nat :| IsPending(s, HOLDER, i);
    hide Tracked;
    assert Fits(s, n, s.jobs[i].requirements);
    if SchedulePass(s, HOLDER, 0).jobs == s.jobs { IdlePass(s, HOLDER, 0); }
  }

  lemma HolderGetsNode(s: Sys, s': Sys, n: string, node: Node)
    requires Boundary(s) && Waiting(s, n, node) && s' == Schedule(s, HOLDER)
    requires node.status == Active && node.attested && node.memoryMbCapacity >= 64
    ensures Held(s', n, node) && s'.campaigns.Keys == {HOLDER}
  {
    hide Settled, WithinCapacity, SchedulePass;
    ScheduleFrom(s, s', HOLDER);
    assert s'.jobs != s.jobs by { SomeoneIsScheduled(s, n, node); }
    hide Tracked;
    var k :| 0 <= k < |s.jobs| && s'.jobs[k] != s.jobs[k];
    assert MayBeScheduled(s, HOLDER, k, s'.jobs[k]);
    assert HoldsAll(s'.jobs[k], n, node);
  }

  lemma HolderHolds(n: string, region: string, cpu: nat, memoryMb: nat)
    requires memoryMb >= 64
    ensures LegalRun(Empty(POLICY, 3), Holding(n, region, cpu, memoryMb))
    ensures var s := After(Empty(POLICY, 3), Holding(n, region, cpu, memoryMb));
      Boundary(s) && s.campaigns.Keys == {HOLDER}
        && Held(s, n, Node(region, {}, cpu, memoryMb, Active, true, POLICY))
  {
    hide Boundary, Held, Waiting, LegalRun, After, Schedule, Submit;
    var ops, node := Holding(n, region, cpu, memoryMb), Node(region, {}, cpu, memoryMb, Active, true, POLICY);
    var s0 := Empty(POLICY, 3);
    var s1 := Step(s0, ops[0]);
    var s2 := Step(s1, ops[1]);
    EmptyIsBoundary(3);
    BoundaryIsTracked(s0);
    NewNamesAreLegal(s0, ops[0]);
    StepKeeps(s0, ops[0]);
    StepKeeps(s1, ops[1]);
    HolderWaits(s1, s2, n, node);
    WaitingHolder(s2, n, node);
    HolderGetsNode(s2, Step(s2, ops[2]), n, node);
    StepKeeps(s2, ops[2]);
    ThreeSteps(s0, ops[0], ops[1], ops[2]);
    assert ops == [ops[0], ops[1], ops[2]];
  }

  lemma WaitingHolder(s: Sys, n: string, node: Node)
    requires Waiting(s, n, node)
    ensures HOLDER in s.campaigns
  {}

  lemma BoundaryIsTracked(s: Sys)
    requires Boundary(s)
    ensures Tracked(s)
  {}

  lemma ThreeSteps(s: Sys, a: Op, b: Op, c: Op)
    ensures After(s, [a, b, c]) == Step(Step(Step(s, a), b), c)
    ensures Legal(s, a) && Legal(Step(s, a), b) && Legal(Step(Step(s, a), b), c) ==> LegalRun(s, [a, b, c])
  {
    hide Step, Legal;
    AfterRun(s, [], a);
    AfterRun(s, [a], b);
    AfterRun(s, [a, b], c);
    assert [] + [a] == [a] && [a] + [b] == [a, b] && [a, b] + [c] == [a, b, c];
  }

  // ---------------------------------------------------------------- a node overwritten by a smaller one

  /** A node with a job on it is registered again with less capacity: the cluster is over-committed. */
  lemma OverwritingOvercommits()
    ensures LegalRun(Empty(POLICY, 3), Holding("n", "r", 2, 128))
    ensures var s := After(Empty(POLICY, 3), Holding("n", "r", 2, 128));
      var smaller := NewNode(s, "r", {}, 1, 128, POLICY);
      Consistent(s) && !Covers(smaller, s.allocations, "n") && !Consistent(Register(s, "n", smaller))
  {
    hide LegalRun, After, Settled;
    var s := After(Empty(POLICY, 3), Holding("n", "r", 2, 128));
    HolderHolds("n", "r", 2, 128);
    HeldDemand(s, "n", Node("r", {}, 2, 128, Active, true, POLICY), None);
    UsedIsDemand(s, "n", Cpu);
    RegisterKeepsIffCovers(s, "n", NewNode(s, "r", {}, 1, 128, POLICY));
  }

  // ---------------------------------------------------------------- a node under the next autoscale name

  const SECOND := "node_auto_2"

  lemma SecondIsNext(s: Sys, node: Node)
    requires s.nodes == map[SECOND := node]
    ensures NextName(s) == SECOND && NextName(s) in s.nodes
  {
    assert |s.nodes| == 1 && Decimal(2) == "2";
  }

  /** The state after four more jobs were submitted to a cluster whose only node is held. */
  lemma HeldAndFourWait(region: string, cpu: nat, memoryMb: nat, req: Requirements)
    requires memoryMb >= 64
    ensures var ops := Holding(SECOND, region, cpu, memoryMb) + [Submission(req)];
      var s := After(Empty(POLICY, 3), ops);
      && LegalRun(Empty(POLICY, 3), ops) && Boundary(s) && Ready(s, CAMPAIGN) && FourWait(s, req)
      && Held(s, SECOND, Node(region, {}, cpu, memoryMb, Active, true, POLICY))
  {
    hide LegalRun, After, Boundary, Step, Held;
    var ops, s0 := Holding(SECOND, region, cpu, memoryMb), Empty(POLICY, 3);
    HolderHolds(SECOND, region, cpu, memoryMb);
    var s := After(s0, ops);
    var s' := Step(s, Submission(req));
    AfterRun(s0, ops, Submission(req));
    SubmissionWaits(s, s', req);
    HeldStays(s, s', SECOND, Node(region, {}, cpu, memoryMb, Active, true, POLICY));
    BoundaryIsReady(s', req);
  }

  const SMALL: Requirements := Requirements(1, 64, [], {})

  /**
   * The first node was registered by hand under the name autoscaling comes to first, just like an autoscaled
   * one, and another campaign holds it. Four jobs that any empty autoscaled node would take wait for ever:
   * autoscaling registers the same node again and again.
   */
  lemma TakenNameNeverEnds()
    ensures var ops := Holding(SECOND, AUTO_REGION, AUTO_CPU, AUTO_MEMORY) + [Submission(SMALL)];
      var s := After(Empty(POLICY, 3), ops);
      && LegalRun(Empty(POLICY, 3), ops) && Ready(s, CAMPAIGN)
      && (forall job :: job in s.jobs && job.id.campaign == CAMPAIGN ==> AutoFits(s, job.requirements))
      && NextName(s) in s.nodes && s.nodes[NextName(s)] == AutoNode(s)
      && !Ends(s, CAMPAIGN)
  {
    hide LegalRun, After, Ends, Blocked, Boundary;
    var ops := Holding(SECOND, AUTO_REGION, AUTO_CPU, AUTO_MEMORY) + [Submission(SMALL)];
    var s := After(Empty(POLICY, 3), ops);
    var node := Node(AUTO_REGION, {}, AUTO_CPU, AUTO_MEMORY, Active, true, POLICY);
    HeldAndFourWait(AUTO_REGION, AUTO_CPU, AUTO_MEMORY, SMALL);
    SecondIsNext(s, node);
    HeldDemand(s, SECOND, node, Some(CAMPAIGN));
    assert !Placeable(s, CAMPAIGN, SMALL);
    AllBlocked(s, SMALL);
    EndsIffFewBlocked(s, CAMPAIGN);
  }

  /**
   * A larger node under the name autoscaling comes to first, held by another campaign: one turn of
   * `run_campaign` replaces it by a smaller one, and the cluster is over-committed.
   */
  lemma AutoscalingOvercommits()
    ensures var ops := Holding(SECOND, "r", 16, 16384) + [Submission(ON_MARS)];
      var s := After(Empty(POLICY, 3), ops);
      && LegalRun(Empty(POLICY, 3), ops) && Ready(s, CAMPAIGN) && Consistent(s)
      && !AutoscaleCovers(s, CAMPAIGN) && !Consistent(Round(s, CAMPAIGN))
  {
    hide LegalRun, After, Settled, AutoscaleCovers, Round, Tracked, Blocked;
    var ops := Holding(SECOND, "r", 16, 16384) + [Submission(ON_MARS)];
    var s := After(Empty(POLICY, 3), ops);
    var node := Node("r", {}, 16, 16384, Active, true, POLICY);
    HeldAndFourWait("r", 16, 16384, ON_MARS);
    assert |"r"| != |"mars"|;
    NothingOnMars(s);
    AllBlocked(s, ON_MARS);
    HeldIsNotCovered(s, node);
    RoundKeepsIffCovers(s, CAMPAIGN);
  }

  lemma HeldIsNotCovered(s: Sys, node: Node)
    requires Ready(s, CAMPAIGN) && Held(s, SECOND, node) && node.cpuCapacity > AUTO_CPU
    requires |Blocked(s, CAMPAIGN)| > 3
    ensures !AutoscaleCovers(s, CAMPAIGN)
  {
    hide Settled, Blocked, Schedule, Execute;
    var s1 := Schedule(s, CAMPAIGN);
    var s2 := Execute(s1, CAMPAIGN);
    RoundTurn(s, s1, s2, CAMPAIGN);
    ManyStayPending(s, s1, s2);
    SameElsewhereTrans(s, s1, s2, CAMPAIGN);
    HeldStays(s, s2, SECOND, node);
    SecondIsNext(s2, node);
    HeldDemand(s2, SECOND, node, None);
    ScheduleKeeps(s, CAMPAIGN);
    ExecuteKeeps(s1, CAMPAIGN);
    UsedIsDemand(s2, SECOND, Cpu);
  }

  lemma ManyStayPending(s: Sys, s1: Sys, s2: Sys)
    requires Turn(s, s1, s2, CAMPAIGN) && |Blocked(s, CAMPAIGN)| > 3
    ensures |PendingJobs(s2, CAMPAIGN)| > 3
  {
    forall i | i in Blocked(s, CAMPAIGN) ensures i in PendingJobs(s2, CAMPAIGN) {
      StaysBlocked(s, s1, s2, CAMPAIGN, i);
    }
    SubsetSize(Blocked(s, CAMPAIGN), PendingJobs(s2, CAMPAIGN));
  }
}
