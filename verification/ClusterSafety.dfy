/**
 * The allocation invariant of the distributed evolution cloud: jobs that hold a node and live
 * allocations correspond one to one, and no node is ever over-committed.
 */
module ClusterSafety {
  import opened Order
  import opened Cluster

  predicate Holds(job: JobState) { job.status == Scheduled || job.status == Running }

  /** The allocations a job is entitled to: one on its own node while it holds a node, none otherwise. */
  function Owned(job: JobState): seq<Allocation> {
    if Holds(job) && job.node.Some? then [NewAllocation(job, job.node.value)] else []
  }

  function LiveFor(allocations: seq<Allocation>, id: JobId): seq<Allocation> {
    if allocations == [] then []
    else
      var last := allocations[|allocations| - 1];
      LiveFor(allocations[..|allocations| - 1], id) + (if last.live && last.job == id then [last] else [])
  }

  predicate DistinctIds(jobs: seq<JobState>) {
    forall i, j :: 0 <= i < j < |jobs| ==> jobs[i].id != jobs[j].id
  }

  ghost predicate Known(jobs: seq<JobState>, id: JobId) {
    exists i :: 0 <= i < |jobs| && jobs[i].id == id
  }

  ghost predicate NoOrphans(s: Sys) {
    forall a {:trigger Known(s.jobs, a.job)} :: a in s.allocations && a.live ==> Known(s.jobs, a.job)
  }

  ghost predicate Matched(s: Sys) {
    forall i {:trigger LiveFor(s.allocations, s.jobs[i].id)} ::
      0 <= i < |s.jobs| ==> LiveFor(s.allocations, s.jobs[i].id) == Owned(s.jobs[i])
  }

  ghost predicate JobOk(s: Sys, job: JobState) {
    && job.id.campaign in s.campaigns
    && job.id.campaign in s.limits
    && job.attempt <= s.limits[job.id.campaign]
    && (Holds(job) ==> job.node.Some? && job.node.value in s.nodes)
  }

  ghost predicate JobsOk(s: Sys) {
    forall i {:trigger JobOk(s, s.jobs[i])} :: 0 <= i < |s.jobs| ==> JobOk(s, s.jobs[i])
  }

  predicate Covers(node: Node, allocations: seq<Allocation>, n: string) {
    && Used(allocations, n, Cpu) <= node.cpuCapacity
    && Used(allocations, n, Memory) <= node.memoryMbCapacity
  }

  ghost predicate WithinCapacity(s: Sys) {
    forall n {:trigger Covers(s.nodes[n], s.allocations, n)} :: n in s.nodes ==> Covers(s.nodes[n], s.allocations, n)
  }

  /** Live allocations and jobs that hold a node match one to one. */
  ghost predicate Tracked(s: Sys) {
    DistinctIds(s.jobs) && JobsOk(s) && Matched(s) && NoOrphans(s)
  }

  ghost predicate Consistent(s: Sys) {
    Tracked(s) && WithinCapacity(s)
  }

  // ---------------------------------------------------------------- demand of the jobs

  /** What a job takes of node `n`; jobs of campaign `skip` are left out. */
  function Contribution(job: JobState, n: string, r: Resource, skip: Option<CampaignId>): nat {
    if Holds(job) && job.node == Some(n) && Some(job.id.campaign) != skip then Need(job.requirements, r) else 0
  }

  function Demand(jobs: seq<JobState>, n: string, r: Resource, skip: Option<CampaignId>): nat {
    if jobs == [] then 0
    else Demand(jobs[..|jobs| - 1], n, r, skip) + Contribution(jobs[|jobs| - 1], n, r, skip)
  }

  lemma {:induction false} DemandUpdate(jobs: seq<JobState>, i: nat, job: JobState, n: string, r: Resource,
                                        skip: Option<CampaignId>)
    requires i < |jobs|
    ensures Demand(jobs[i := job], n, r, skip) + Contribution(jobs[i], n, r, skip)
         == Demand(jobs, n, r, skip) + Contribution(job, n, r, skip)
  {
    var last := |jobs| - 1;
    if i == last {
      assert jobs[i := job][..last] == jobs[..last];
    } else {
      assert jobs[i := job][..last] == jobs[..last][i := job];
      DemandUpdate(jobs[..last], i, job, n, r, skip);
    }
  }

  lemma {:induction false} DemandSkip(jobs: seq<JobState>, n: string, r: Resource, skip: Option<CampaignId>)
    ensures Demand(jobs, n, r, skip) <= Demand(jobs, n, r, None)
    ensures (forall i :: 0 <= i < |jobs| && Holds(jobs[i]) ==> Some(jobs[i].id.campaign) != skip)
            ==> Demand(jobs, n, r, skip) == Demand(jobs, n, r, None)
  {
    if jobs != [] {
      DemandSkip(jobs[..|jobs| - 1], n, r, skip);
    }
  }

  lemma {:induction false} DemandPointwise(jobs: seq<JobState>, jobs': seq<JobState>, n: string, r: Resource,
                                           skip: Option<CampaignId>)
    requires |jobs| == |jobs'|
    requires forall i :: 0 <= i < |jobs| ==> Contribution(jobs[i], n, r, skip) == Contribution(jobs'[i], n, r, skip)
    ensures Demand(jobs, n, r, skip) == Demand(jobs', n, r, skip)
  {
    if jobs != [] {
      DemandPointwise(jobs[..|jobs| - 1], jobs'[..|jobs| - 1], n, r, skip);
    }
  }

  /** The live allocations summed job by job. */
  ghost function SumByJob(allocations: seq<Allocation>, jobs: seq<JobState>, n: string, r: Resource): nat {
    if jobs == [] then 0
    else SumByJob(allocations, jobs[..|jobs| - 1], n, r) + Used(LiveFor(allocations, jobs[|jobs| - 1].id), n, r)
  }

  lemma UsedAppend(allocations: seq<Allocation>, a: Allocation, n: string, r: Resource)
    ensures Used(allocations + [a], n, r) == Used(allocations, n, r) + Share(a, n, r)
  {
    assert (allocations + [a])[..|allocations|] == allocations;
  }

  lemma LiveForAppend(allocations: seq<Allocation>, a: Allocation, id: JobId)
    ensures LiveFor(allocations + [a], id)
      == if a.live && a.job == id then LiveFor(allocations, id) + [a] else LiveFor(allocations, id)
  {
    assert (allocations + [a])[..|allocations|] == allocations;
  }

  lemma {:induction false} SumByJobAppend(allocations: seq<Allocation>, a: Allocation, jobs: seq<JobState>, n: string,
                                          r: Resource)
    requires DistinctIds(jobs)
    ensures SumByJob(allocations + [a], jobs, n, r)
         == SumByJob(allocations, jobs, n, r) + (if Known(jobs, a.job) then Share(a, n, r) else 0)
  {
    hide Used, LiveFor;
    if jobs != [] {
      var front, last := jobs[..|jobs| - 1], jobs[|jobs| - 1];
      SumByJobAppend(allocations, a, front, n, r);
      LiveForAppend(allocations, a, last.id);
      UsedAppend(LiveFor(allocations, last.id), a, n, r);
      if a.job == last.id {
        assert jobs[|jobs| - 1].id == a.job;
        assert !Known(front, a.job);
      } else if Known(front, a.job) {
        var i :| 0 <= i < |front| && front[i].id == a.job;
        assert jobs[i].id == a.job;
      }
    }
  }

  lemma {:induction false} SumByJobNothing(jobs: seq<JobState>, n: string, r: Resource)
    ensures SumByJob([], jobs, n, r) == 0
  {
    if jobs != [] { SumByJobNothing(jobs[..|jobs| - 1], n, r); }
  }

  lemma {:induction false} UsedIsSumByJob(allocations: seq<Allocation>, jobs: seq<JobState>, n: string, r: Resource)
    requires DistinctIds(jobs)
    requires forall a :: a in allocations && a.live ==> Known(jobs, a.job)
    ensures Used(allocations, n, r) == SumByJob(allocations, jobs, n, r)
  {
    if allocations == [] {
      SumByJobNothing(jobs, n, r);
    } else {
      var front, last := allocations[..|allocations| - 1], allocations[|allocations| - 1];
      assert allocations == front + [last];
      UsedIsSumByJob(front, jobs, n, r);
      SumByJobAppend(front, last, jobs, n, r);
    }
  }

  lemma {:induction false} SumByJobIsDemand(allocations: seq<Allocation>, jobs: seq<JobState>, n: string, r: Resource)
    requires forall i :: 0 <= i < |jobs| ==> LiveFor(allocations, jobs[i].id) == Owned(jobs[i])
    ensures SumByJob(allocations, jobs, n, r) == Demand(jobs, n, r, None)
  {
    if jobs != [] {
      SumByJobIsDemand(allocations, jobs[..|jobs| - 1], n, r);
      var job := jobs[|jobs| - 1];
      assert LiveFor(allocations, job.id) == Owned(job);
      if Holds(job) && job.node.Some? {
        UsedAppend([], NewAllocation(job, job.node.value), n, r);
        assert [] + Owned(job) == Owned(job);
      }
    }
  }

  /** The capacity the allocation table charges to a node is what the jobs on that node asked for. */
  lemma UsedIsDemand(s: Sys, n: string, r: Resource)
    requires DistinctIds(s.jobs) && Matched(s) && NoOrphans(s)
    ensures Used(s.allocations, n, r) == Demand(s.jobs, n, r, None)
  {
    UsedIsSumByJob(s.allocations, s.jobs, n, r);
    SumByJobIsDemand(s.allocations, s.jobs, n, r);
  }

  // ---------------------------------------------------------------- every step keeps the invariant

  lemma AssignFitsCapacity(s: Sys, i: nat, n: string, m: string)
    requires i < |s.jobs| && Fits(s, n, s.jobs[i].requirements)
    requires m in s.nodes && Covers(s.nodes[m], s.allocations, m)
    ensures Covers(s.nodes[m], s.allocations + [NewAllocation(s.jobs[i], n)], m)
  {
    UsedAppend(s.allocations, NewAllocation(s.jobs[i], n), m, Cpu);
    UsedAppend(s.allocations, NewAllocation(s.jobs[i], n), m, Memory);
  }

  lemma AssignMatched(s: Sys, i: nat, n: string)
    requires DistinctIds(s.jobs) && Matched(s) && NoOrphans(s)
    requires i < |s.jobs| && s.jobs[i].status == Pending
    ensures Matched(Assign(s, i, n)) && NoOrphans(Assign(s, i, n))
  {
    var s', a := Assign(s, i, n), NewAllocation(s.jobs[i], n);
    forall j | 0 <= j < |s'.jobs|
      ensures LiveFor(s'.allocations, s'.jobs[j].id) == Owned(s'.jobs[j])
    {
      LiveForAppend(s.allocations, a, s.jobs[j].id);
      assert LiveFor(s.allocations, s.jobs[j].id) == Owned(s.jobs[j]);
    }
    forall b | b in s'.allocations && b.live ensures Known(s'.jobs, b.job) {
      KnownStays(s.jobs, i, s'.jobs[i], b.job);
      if b == a { assert s'.jobs[i].id == b.job; }
    }
  }

  lemma AssignKeeps(s: Sys, i: nat, n: string)
    requires Tracked(s) && i < |s.jobs| && s.jobs[i].status == Pending
    requires Fits(s, n, s.jobs[i].requirements)
    ensures Tracked(Assign(s, i, n)) && (Consistent(s) ==> Consistent(Assign(s, i, n)))
  {
    hide Used, LiveFor, Owned;
    var s' := Assign(s, i, n);
    AssignMatched(s, i, n);
    forall j | 0 <= j < |s'.jobs| ensures JobOk(s', s'.jobs[j]) {
      assert JobOk(s, s.jobs[j]);
    }
    if Consistent(s) {
      forall m | m in s'.nodes ensures Covers(s'.nodes[m], s'.allocations, m) {
        AssignFitsCapacity(s, i, n, m);
      }
    }
  }

  lemma KnownStays(jobs: seq<JobState>, i: nat, job: JobState, id: JobId)
    requires i < |jobs| && job.id == jobs[i].id
    ensures Known(jobs[i := job], id) <==> Known(jobs, id)
  {
    if Known(jobs, id) {
      var k :| 0 <= k < |jobs| && jobs[k].id == id;
      assert jobs[i := job][k].id == id;
    }
  }

  lemma {:induction false} LiveForRelease(allocations: seq<Allocation>, id: JobId, other: JobId)
    ensures LiveFor(Release(allocations, id), other) == if other == id then [] else LiveFor(allocations, other)
  {
    if allocations != [] {
      var front := allocations[..|allocations| - 1];
      assert Release(allocations, id)[..|front|] == Release(front, id);
      LiveForRelease(front, id, other);
    }
  }

  lemma {:induction false} UsedRelease(allocations: seq<Allocation>, id: JobId, n: string, r: Resource)
    ensures Used(Release(allocations, id), n, r) <= Used(allocations, n, r)
  {
    if allocations != [] {
      var front := allocations[..|allocations| - 1];
      assert Release(allocations, id)[..|front|] == Release(front, id);
      UsedRelease(front, id, n, r);
    }
  }

  /** A job that gives up its node: its allocations are released and its record is replaced. */
  lemma ReleaseKeeps(s: Sys, s': Sys, i: nat, job: JobState)
    requires Tracked(s) && i < |s.jobs|
    requires s'.allocations == Release(s.allocations, s.jobs[i].id) && s'.jobs == s.jobs[i := job]
    requires s'.nodes == s.nodes && s'.limits == s.limits && s.campaigns.Keys <= s'.campaigns.Keys
    requires job.id == s.jobs[i].id && !Holds(job) && job.id.campaign in s.limits
    requires job.attempt <= s.limits[job.id.campaign]
    ensures Tracked(s') && (Consistent(s) ==> Consistent(s'))
  {
    forall j | 0 <= j < |s'.jobs|
      ensures LiveFor(s'.allocations, s'.jobs[j].id) == Owned(s'.jobs[j]) && JobOk(s', s'.jobs[j])
    {
      LiveForRelease(s.allocations, job.id, s.jobs[j].id);
      assert LiveFor(s.allocations, s.jobs[j].id) == Owned(s.jobs[j]);
      assert JobOk(s, s.jobs[j]);
    }
    forall b | b in s'.allocations && b.live ensures Known(s'.jobs, b.job) {
      var k :| 0 <= k < |s'.allocations| && s'.allocations[k] == b;
      assert s.allocations[k] in s.allocations;
      KnownStays(s.jobs, i, job, b.job);
    }
    if Consistent(s) {
      forall m | m in s'.nodes ensures Covers(s'.nodes[m], s'.allocations, m) {
        UsedRelease(s.allocations, job.id, m, Cpu);
        UsedRelease(s.allocations, job.id, m, Memory);
        assert Covers(s.nodes[m], s.allocations, m);
      }
    }
  }

  lemma SettleKeeps(s: Sys, i: nat, outcome: Outcome)
    requires Tracked(s) && i < |s.jobs|
    ensures Tracked(Settle(s, i, outcome))
    ensures Consistent(s) ==> Consistent(Settle(s, i, outcome))
  {
    var s', c := Settle(s, i, outcome), s.jobs[i].id.campaign;
    assert JobOk(s, s.jobs[i]);
    assert s.limits[c := Limit(s, c)] == s.limits;
    ReleaseKeeps(s, s', i, s'.jobs[i]);
  }

  lemma ScheduleOneKeeps(s: Sys, c: CampaignId, i: nat)
    requires Tracked(s) && i < |s.jobs|
    ensures Tracked(ScheduleOne(s, c, i))
    ensures Consistent(s) ==> Consistent(ScheduleOne(s, c, i))
  {
    if IsPending(s, c, i) && Place(s, s.jobs[i].requirements).Some? {
      AssignKeeps(s, i, Place(s, s.jobs[i].requirements).value);
    }
  }

  lemma {:induction false} SchedulePassKeeps(s: Sys, c: CampaignId, i: nat)
    requires Tracked(s) && i <= |s.jobs|
    ensures Tracked(SchedulePass(s, c, i))
    ensures Consistent(s) ==> Consistent(SchedulePass(s, c, i))
    decreases |s.jobs| - i
  {
    if i < |s.jobs| {
      ScheduleOneKeeps(s, c, i);
      SchedulePassKeeps(ScheduleOne(s, c, i), c, i + 1);
    }
  }

  lemma {:induction false} ExecutePassKeeps(s: Sys, c: CampaignId, i: nat)
    requires Tracked(s) && i <= |s.jobs|
    ensures Tracked(ExecutePass(s, c, i))
    ensures Consistent(s) ==> Consistent(ExecutePass(s, c, i))
    decreases |s.jobs| - i
  {
    if i < |s.jobs| {
      if IsScheduled(s, c, i) { SettleKeeps(s, i, Execution(s, s.jobs[i])); }
      ExecutePassKeeps(ExecuteOne(s, c, i), c, i + 1);
    }
  }

  lemma {:induction false} FailPassKeeps(s: Sys, n: string, i: nat)
    requires Tracked(s) && i <= |s.jobs|
    ensures Tracked(FailPass(s, n, i))
    ensures Consistent(s) ==> Consistent(FailPass(s, n, i))
    decreases |s.jobs| - i
  {
    if i < |s.jobs| {
      SettleKeeps(s, i, Transient);
      FailPassKeeps(FailOne(s, n, i), n, i + 1);
    }
  }

  /**
   * Registering a node keeps the invariant exactly when the new capacity covers what is still
   * allocated on that id: registration overwrites an existing node without looking at it.
   */
  lemma RegisterKeepsIffCovers(s: Sys, n: string, node: Node)
    requires Tracked(s)
    ensures Tracked(Register(s, n, node))
    ensures Consistent(s) ==> (Consistent(Register(s, n, node)) <==> Covers(node, s.allocations, n))
  {
    var s' := Register(s, n, node);
    assert n in s'.nodes && s'.nodes[n] == node;
    forall i | 0 <= i < |s.jobs| ensures JobOk(s', s'.jobs[i]) {
      assert JobOk(s, s.jobs[i]);
    }
    if Consistent(s) && Covers(node, s.allocations, n) {
      forall m | m in s'.nodes ensures Covers(s'.nodes[m], s'.allocations, m) {
        if m != n { assert Covers(s.nodes[m], s.allocations, m); }
      }
    }
  }

  /** Nothing is allocated on a node id that was never registered. */
  lemma {:induction false} UnknownNodeUnused(s: Sys, n: string, r: Resource)
    requires Tracked(s) && n !in s.nodes
    ensures Used(s.allocations, n, r) == 0
  {
    UsedIsDemand(s, n, r);
    NoDemand(s, s.jobs, n, r);
  }

  lemma {:induction false} NoDemand(s: Sys, jobs: seq<JobState>, n: string, r: Resource)
    requires n !in s.nodes
    requires forall i :: 0 <= i < |jobs| ==> JobOk(s, jobs[i])
    ensures Demand(jobs, n, r, None) == 0
  {
    if jobs != [] {
      NoDemand(s, jobs[..|jobs| - 1], n, r);
      assert JobOk(s, jobs[|jobs| - 1]);
    }
  }

  lemma MarkKeeps(s: Sys, s': Sys)
    requires Tracked(s) && s' == s.(nodes := s'.nodes) && s'.nodes.Keys == s.nodes.Keys
    requires forall n :: n in s.nodes ==> s'.nodes[n] == s.nodes[n].(status := s'.nodes[n].status)
    ensures Tracked(s') && (Consistent(s) ==> Consistent(s'))
  {
    forall i | 0 <= i < |s.jobs| ensures JobOk(s', s'.jobs[i]) {
      assert JobOk(s, s.jobs[i]);
    }
    if Consistent(s) {
      forall n | n in s'.nodes ensures Covers(s'.nodes[n], s'.allocations, n) {
        assert n in s.nodes && Covers(s.nodes[n], s.allocations, n);
      }
    }
  }

  lemma {:induction false} NoLive(allocations: seq<Allocation>, id: JobId)
    requires forall a :: a in allocations && a.live ==> a.job != id
    ensures LiveFor(allocations, id) == []
  {
    if allocations != [] {
      assert allocations[|allocations| - 1] in allocations;
      NoLive(allocations[..|allocations| - 1], id);
    }
  }

  lemma AddJobKeeps(s: Sys, id: JobId, req: Requirements, policyVersion: string)
    requires Tracked(s) && id.campaign in s.campaigns && id.campaign in s.limits
    ensures Tracked(AddJob(s, id, req, policyVersion))
    ensures Consistent(s) ==> Consistent(AddJob(s, id, req, policyVersion))
  {
    if !exists i :: 0 <= i < |s.jobs| && s.jobs[i].id == id {
      var s' := AddJob(s, id, req, policyVersion);
      assert !Known(s.jobs, id);
      NoLive(s.allocations, id);
      forall i | 0 <= i < |s'.jobs|
        ensures JobOk(s', s'.jobs[i]) && LiveFor(s'.allocations, s'.jobs[i].id) == Owned(s'.jobs[i])
      {
        if i < |s.jobs| {
          assert JobOk(s, s.jobs[i]) && LiveFor(s.allocations, s.jobs[i].id) == Owned(s.jobs[i]);
        }
      }
      forall a | a in s'.allocations && a.live ensures Known(s'.jobs, a.job) {
        assert Known(s.jobs, a.job);
        var k :| 0 <= k < |s.jobs| && s.jobs[k].id == a.job;
        assert s'.jobs[k].id == a.job;
      }
    }
  }

  lemma {:induction false} AddJobsKeeps(s: Sys, c: CampaignId, names: seq<JobName>, req: Requirements,
                                        policyVersion: string)
    requires Tracked(s) && c in s.campaigns && c in s.limits
    ensures Tracked(AddJobs(s, c, names, req, policyVersion))
    ensures Consistent(s) ==> Consistent(AddJobs(s, c, names, req, policyVersion))
    decreases |names|
  {
    if names != [] {
      AddJobKeeps(s, JobId(c, names[0]), req, policyVersion);
      AddJobsKeeps(AddJob(s, JobId(c, names[0]), req, policyVersion), c, names[1..], req, policyVersion);
    }
  }

  lemma MoreCampaigns(s: Sys, s': Sys)
    requires Tracked(s) && s' == s.(campaigns := s'.campaigns, limits := s'.limits)
    requires s.campaigns.Keys <= s'.campaigns.Keys
    requires forall d :: d in s.campaigns && d in s.limits ==> d in s'.limits && s'.limits[d] == s.limits[d]
    ensures Tracked(s') && (Consistent(s) ==> Consistent(s'))
  {
    forall i | 0 <= i < |s'.jobs| ensures JobOk(s', s'.jobs[i]) {
      assert JobOk(s, s.jobs[i]);
    }
    if Consistent(s) {
      forall n | n in s'.nodes ensures Covers(s'.nodes[n], s'.allocations, n) {
        assert Covers(s.nodes[n], s.allocations, n);
      }
    }
  }

  lemma SubmitKeeps(s: Sys, c: CampaignId, candidates: int, backends: seq<string>, policyVersion: string,
                    req: Requirements, maxAttempts: int)
    requires Tracked(s)
    ensures Tracked(Submit(s, c, candidates, backends, policyVersion, req, maxAttempts))
    ensures Consistent(s) ==> Consistent(Submit(s, c, candidates, backends, policyVersion, req, maxAttempts))
  {
    if c !in s.campaigns && candidates >= 1 {
      var stored := s.(campaigns := s.campaigns[c := CampaignPending]);
      MoreCampaigns(s, stored);
      if maxAttempts >= 1 {
        var planned := stored.(limits := s.limits[c := maxAttempts]);
        MoreCampaigns(s, planned);
        AddJobsKeeps(planned, c, JobNames(candidates, backends), req, policyVersion);
      }
    }
  }
}
