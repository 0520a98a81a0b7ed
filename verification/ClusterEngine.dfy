/**
 * The engine objects themselves, with the fields and loops of the program. Each method is proved
 * against the state functions of `Cluster`; the invariants proved about those then hold of the objects.
 */
module ClusterEngine {
  import opened Order
  import opened Cluster
  import opened ClusterSafety
  import opened ClusterHistory
  import opened CampaignRuns

  class Job {
    const id: JobId
    const requirements: Requirements
    const policyVersion: string
    const inputs: seq<ContentHash>
    var status: JobStatus
    var attempt: nat
    var node: Option<string>

    constructor (id: JobId, requirements: Requirements, policyVersion: string)
      ensures State() == JobState(id, requirements, policyVersion, [], Pending, 0, None)
    {
      this.id, this.requirements, this.policyVersion, this.inputs := id, requirements, policyVersion, [];
      status, attempt, node := Pending, 0, None;
    }

    function State(): JobState
      reads this
    {
      JobState(id, requirements, policyVersion, inputs, status, attempt, node)
    }
  }

  class ResourceManager {
    const policyVersion: string
    var nodes: map<string, Node>
    var allocations: seq<Allocation>

    constructor (policyVersion: string)
      ensures View() == Sys(policyVersion, 0, map[], [], [], map[], map[], {})
    {
      this.policyVersion := policyVersion;
      nodes, allocations := map[], [];
    }

    /** The capacity side of the cluster's state. */
    function View(): Sys
      reads this
    {
      Sys(policyVersion, 0, nodes, allocations, [], map[], map[], {})
    }

    method RegisterNode(n: string, region: string, capabilities: set<string>, cpu: nat, memoryMb: nat, version: string)
      modifies this`nodes
      ensures nodes == old(nodes)[n := NewNode(old(View()), region, capabilities, cpu, memoryMb, version)]
    {
      var attested := version == policyVersion;
      var status := if attested then Active else Suspended;
      nodes := nodes[n := Node(region, capabilities, cpu, memoryMb, status, attested, version)];
    }

    method MarkFailed(n: string) returns (found: bool)
      modifies this`nodes
      ensures found <==> n in old(nodes)
      ensures nodes == if found then MarkDown(old(View()), n).nodes else old(nodes)
    {
      found := n in nodes;
      if found {
        nodes := nodes[n := nodes[n].(status := Down)];
      }
    }

    method DetectStaleNodes(late: set<string>)
      modifies this`nodes
      ensures nodes == DropStale(old(View()), late).nodes
    {
      var todo := nodes.Keys;
      ghost var before := nodes;
      while todo != {}
        invariant todo <= before.Keys && nodes.Keys == before.Keys
        invariant forall n :: n in before ==>
          nodes[n] == (if n !in todo && n in late && before[n].status == Active
                       then before[n].(status := Down) else before[n])
        decreases todo
      {
        var n :| n in todo;
        todo := todo - {n};
        if nodes[n].status == Active && n in late {
          nodes := nodes[n := nodes[n].(status := Down)];
        }
      }
    }

    method AvailableCapacity(n: string) returns (free: Option<(nat, nat)>)
      ensures free == if n in nodes then Some((Free(View(), n, Cpu), Free(View(), n, Memory))) else None
    {
      if n !in nodes { return None; }
      var cpu, memory := 0, 0;
      for i := 0 to |allocations|
        invariant cpu == Used(allocations[..i], n, Cpu) && memory == Used(allocations[..i], n, Memory)
      {
        var a := allocations[i];
        assert allocations[..i + 1][..i] == allocations[..i];
        if a.node == n && a.live {
          cpu, memory := cpu + a.cpu, memory + a.memoryMb;
        }
      }
      assert allocations[..|allocations|] == allocations;
      var cpuFree, memoryFree := nodes[n].cpuCapacity - cpu, nodes[n].memoryMbCapacity - memory;
      return Some((if cpuFree >= 0 then cpuFree else 0, if memoryFree >= 0 then memoryFree else 0));
    }

    /** Returns false where the program raises an error: unknown node or insufficient capacity. */
    method Allocate(job: JobId, n: string, cpu: nat, memoryMb: nat) returns (ok: bool)
      modifies this`allocations
      ensures ok <==> n in nodes && cpu <= old(Free(View(), n, Cpu)) && memoryMb <= old(Free(View(), n, Memory))
      ensures allocations == old(allocations) + if ok then [Allocation(job, n, cpu, memoryMb, true)] else []
    {
      var free := AvailableCapacity(n);
      if free.None? || free.value.0 < cpu || free.value.1 < memoryMb { return false; }
      allocations := allocations + [Allocation(job, n, cpu, memoryMb, true)];
      return true;
    }

    method ReleaseAllocationsForJob(job: JobId) returns (released: nat)
      modifies this`allocations
      ensures allocations == Release(old(allocations), job)
      ensures released == |LiveFor(old(allocations), job)|
    {
      ghost var before := allocations;
      released := 0;
      for i := 0 to |allocations|
        invariant |allocations| == |before|
        invariant forall k :: 0 <= k < i ==> allocations[k] == Release(before, job)[k]
        invariant forall k :: i <= k < |before| ==> allocations[k] == before[k]
        invariant released == |LiveFor(before[..i], job)|
      {
        assert before[..i + 1][..i] == before[..i];
        if allocations[i].job == job && allocations[i].live {
          allocations := allocations[i := allocations[i].(live := false)];
          released := released + 1;
        }
      }
      assert before[..|before|] == before;
    }

    method NodesMatching(req: Requirements) returns (matching: set<string>)
      ensures forall n :: n in matching <==> Fits(View(), n, req)
    {
      matching := {};
      var todo := nodes.Keys;
      while todo != {}
        invariant todo <= nodes.Keys
        invariant forall n :: n in matching <==> n !in todo && Fits(View(), n, req)
        decreases todo
      {
        var n :| n in todo;
        todo := todo - {n};
        var node := nodes[n];
        if node.status == Active && node.attested
           && (req.regions == [] || node.region in req.regions) && req.capabilities <= node.capabilities
        {
          var free := AvailableCapacity(n);
          if free.value.0 >= req.cpu && free.value.1 >= req.memoryMb {
            matching := matching + {n};
          }
        }
      }
    }

    method AutoscaleNodes(pending: nat, threshold: int) returns (added: Option<string>)
      modifies this`nodes
      ensures nodes == Autoscale(old(View()).(threshold := threshold), pending).nodes
      ensures added.Some? <==> pending > threshold
    {
      if pending <= threshold { return None; }
      var n := AutoId(|nodes| + 1);
      RegisterNode(n, AUTO_REGION, {}, AUTO_CPU, AUTO_MEMORY, policyVersion);
      return Some(n);
    }
  }

  class Scheduler {
    const resources: ResourceManager

    constructor (resources: ResourceManager)
      ensures this.resources == resources
    {
      this.resources := resources;
    }

    /**
     * Puts a pending job on the first matching node by region and id. The allocation cannot fail
     * for lack of capacity: matching already checked it.
     */
    method ScheduleJob(job: Job) returns (r: Option<string>)
      modifies job`status, job`node, resources`allocations
      ensures r == if old(job.status) == Pending then old(Place(resources.View(), job.requirements)) else None
      ensures job.State() == if r.Some? then old(job.State()).(status := Scheduled, node := r) else old(job.State())
      ensures resources.allocations == old(resources.allocations)
        + if r.Some? then [NewAllocation(job.State(), r.value)] else []
    {
      if job.status != Pending { return None; }
      var candidates := resources.NodesMatching(job.requirements);
      ghost var s := resources.View();
      if candidates == {} { return None; }
      var best :| best in candidates;
      var todo := candidates;
      while todo != {}
        invariant todo <= candidates && best in candidates
        invariant forall m :: m in candidates && m !in todo ==> NodeLe(resources.nodes, best, m)
        invariant resources.View() == s
        decreases todo
      {
        hide NodeLe, Fits;
        var m :| m in todo;
        todo := todo - {m};
        NodeLeLaws(resources.nodes, m, best, m);
        NodeLeLaws(resources.nodes, m, m, m);
        if NodeLe(resources.nodes, m, best) {
          forall x | x in candidates && x !in todo ensures NodeLe(resources.nodes, m, x) {
            if x != m { NodeLeLaws(resources.nodes, m, best, x); }
          }
          best := m;
        }
      }
      assert IsPlacement(s, job.requirements, best);
      PlacementUnique(s, job.requirements, best, Place(s, job.requirements).value);
      var ok := resources.Allocate(job.id, best, job.requirements.cpu, job.requirements.memoryMb);
      assert ok;
      job.status, job.node := Scheduled, Some(best);
      return Some(best);
    }
  }

  class FaultTolerance {
    var plans: map<CampaignId, nat>

    constructor ()
      ensures plans == map[]
    {
      plans := map[];
    }

    /** Returns false where the program raises: a plan allows at least one attempt. */
    method CreateRecoveryPlan(c: CampaignId, maxAttempts: int) returns (ok: bool)
      modifies this
      ensures ok <==> maxAttempts >= 1
      ensures plans == if ok then old(plans)[c := maxAttempts] else old(plans)
    {
      ok := maxAttempts >= 1;
      if ok { plans := plans[c := maxAttempts]; }
    }

    method GetRecoveryPlan(c: CampaignId) returns (limit: nat)
      modifies this
      ensures limit == if c in old(plans) then old(plans)[c] else DEFAULT_ATTEMPTS
      ensures plans == old(plans)[c := limit]
    {
      if c !in plans { var _ := CreateRecoveryPlan(c, DEFAULT_ATTEMPTS); }
      return plans[c];
    }

    method RecoverJob(job: Job, limit: nat) returns (recovered: bool)
      modifies job`status, job`attempt, job`node
      ensures job.State() == Retry(old(job.State()), limit)
      ensures recovered <==> old(job.attempt) < limit
    {
      if job.attempt >= limit {
        job.status := Failed;
        return false;
      }
      job.attempt, job.status, job.node := job.attempt + 1, Pending, None;
      return true;
    }
  }

  class Engine {
    const resources: ResourceManager
    const scheduler: Scheduler
    const fault: FaultTolerance
    var threshold: int
    var campaigns: map<CampaignId, CampaignStatus>
    var jobs: seq<Job>
    var artifacts: set<ContentHash>

    constructor (policyVersion: string)
      ensures Valid() && State() == Sys(policyVersion, 3, map[], [], [], map[], map[], {})
    {
      var r := new ResourceManager(policyVersion);
      var s := new Scheduler(r);
      var f := new FaultTolerance();
      resources, scheduler, fault := r, s, f;
      threshold, campaigns, jobs, artifacts := 3, map[], [], {};
    }

    ghost predicate Valid()
      reads this`jobs
    {
      scheduler.resources == resources && forall i, j :: 0 <= i < j < |jobs| ==> jobs[i] != jobs[j]
    }

    function Records(): (r: seq<JobState>)
      reads this`jobs, jobs
      ensures |r| == |jobs| && forall i :: 0 <= i < |jobs| ==> r[i] == jobs[i].State()
    {
      var all := jobs;
      seq(|all|, i requires 0 <= i < |all| reads all => all[i].State())
    }

    function State(): (s: Sys)
      reads this, jobs, resources, fault
      ensures |s.jobs| == |jobs| && s.campaigns == campaigns
      ensures forall i :: 0 <= i < |jobs| ==> s.jobs[i] == jobs[i].State()
    {
      Sys(resources.policyVersion, threshold, resources.nodes, resources.allocations,
          Records(), campaigns, fault.plans, artifacts)
    }

    method UpdateCampaignStatus(c: CampaignId)
      modifies this`campaigns
      ensures campaigns == old(campaigns)[c := StatusOf(Records(), c)]
      ensures State() == UpdateStatus(old(State()), c)
    {
      var records := Records();
      campaigns := campaigns[c := StatusOf(records, c)];
    }

    method CountPending(c: CampaignId) returns (n: nat)
      ensures n == |PendingJobs(State(), c)|
    {
      var pending: set<int> := {};
      for i := 0 to |jobs|
        invariant pending == set k | 0 <= k < i && IsPending(State(), c, k)
      {
        if jobs[i].id.campaign == c && jobs[i].status == Pending { pending := pending + {i}; }
      }
      assert pending == PendingJobs(State(), c);
      return |pending|;
    }

    method TrySchedule(job: Job, ghost c: CampaignId, ghost i: nat) returns (node: Option<string>)
      requires Valid() && i < |jobs| && jobs[i] == job && IsPending(State(), c, i)
      modifies job`status, job`node, resources`allocations
      ensures State() == ScheduleOne(old(State()), c, i)
      ensures node.Some? <==> job.State() != old(job.State())
      ensures Records() == old(Records())[i := job.State()]
    {
      hide Fits, Place;
      ghost var before := State();
      node := scheduler.ScheduleJob(job);
      SamePlace(before, old(resources.View()), job.requirements);
      assert Records() == before.jobs[i := job.State()];
    }

    /** Returns None for an unknown campaign, else the ids of the jobs it scheduled. */
    method ScheduleCampaign(c: CampaignId) returns (r: Option<seq<JobId>>)
      requires Valid()
      modifies this`campaigns, jobs, resources`allocations
      ensures Valid()
      ensures r.None? <==> c !in old(campaigns)
      ensures State() == if r.None? then old(State()) else Schedule(old(State()), c)
      ensures r.Some? ==> (r.value == [] <==> State().jobs == old(State()).jobs)
    {
      hide SchedulePass;
      if c !in campaigns { return None; }
      if Closed(campaigns[c]) { return Some([]); }
      var scheduled := SchedulePending(c);
      if scheduled != [] && campaigns[c] == CampaignPending {
        campaigns := campaigns[c := CampaignRunning];
      }
      return Some(scheduled);
    }

    method ScheduleAt(job: Job, c: CampaignId, ghost i: nat) returns (node: Option<string>)
      requires Valid() && i < |jobs| && jobs[i] == job
      modifies job`status, job`node, resources`allocations
      ensures State() == ScheduleOne(old(State()), c, i)
      ensures node.Some? <==> State().jobs[i] != old(State()).jobs[i]
      ensures State().jobs == old(State()).jobs[i := State().jobs[i]]
    {
      node := None;
      if job.id.campaign == c && job.status == Pending {
        node := TrySchedule(job, c, i);
      } else {
        ScheduleOneSkips(State(), c, i);
      }
    }

    /** Tries each pending job of the campaign in turn. */
    method SchedulePending(c: CampaignId) returns (scheduled: seq<JobId>)
      requires Valid()
      modifies jobs, resources`allocations
      ensures Valid() && State() == SchedulePass(old(State()), c, 0)
      ensures scheduled == [] <==> State().jobs == old(State()).jobs
    {
      hide SchedulePass, ScheduleOne, Records, State;
      scheduled := [];
      ghost var s, now := State(), State();
      for i := 0 to |jobs|
        invariant State() == now && SchedulePass(now, c, i) == SchedulePass(s, c, 0)
        invariant |now.jobs| == |s.jobs| && forall k :: i <= k < |s.jobs| ==> now.jobs[k] == s.jobs[k]
        invariant scheduled == [] <==> now.jobs == s.jobs
      {
        SchedulePassNext(now, c, i);
        var job := jobs[i];
        var node := ScheduleAt(job, c, i);
        OneJobChanged(now.jobs, State().jobs, s.jobs, i);
        now := State();
        if node.Some? { scheduled := scheduled + [job.id]; }
      }
      SchedulePassNext(now, c, |jobs|);
    }

    /** Runs one job on its node; the outcome is an error class where the program raises. */
    method ExecuteJob(job: Job, ghost i: nat) returns (outcome: Outcome)
      requires Valid() && i < |jobs| && jobs[i] == job
      modifies job`status, resources`allocations, this`artifacts
      ensures outcome == Execution(old(State()), old(job.State()))
      ensures outcome == Success ==> State() == Settle(old(State()), i, Success)
      ensures outcome != Success ==> State() == old(State())
    {
      var n := if job.node.Some? then job.node.value else "";
      if n !in resources.nodes || resources.nodes[n].status != Active { return Transient; }
      var node := resources.nodes[n];
      if !node.attested { return Permanent; }
      if node.policyVersion != job.policyVersion { return Permanent; }
      for k := 0 to |job.inputs|
        invariant forall h :: h in job.inputs[..k] ==> h in artifacts
      {
        if job.inputs[k] !in artifacts { return Permanent; }
      }
      assert job.inputs[..|job.inputs|] == job.inputs;
      ghost var before := State();
      artifacts := artifacts + {Output(job.id)};
      job.status := Completed;
      var released := resources.ReleaseAllocationsForJob(job.id);
      assert Records() == before.jobs[i := job.State()];
      return Success;
    }

    method HandleJobFailure(job: Job, permanent: bool, ghost i: nat)
      requires Valid() && i < |jobs| && jobs[i] == job
      modifies job`status, job`attempt, job`node, resources`allocations, fault, this`campaigns
      ensures State() == Settle(old(State()), i, if permanent then Permanent else Transient)
    {
      hide StatusOf, Release, Settle, Limit;
      ghost var before := State();
      var released := resources.ReleaseAllocationsForJob(job.id);
      var limit := fault.GetRecoveryPlan(job.id.campaign);
      RetryOrFail(job, permanent, limit);
      assert Records() == before.jobs[i := job.State()];
      assert limit == Limit(before, job.id.campaign) by { LimitIs(before, job.id.campaign); }
      UpdateCampaignStatus(job.id.campaign);
      SettleParts(before, i, if permanent then Permanent else Transient, job.State());
    }

    method RetryOrFail(job: Job, permanent: bool, limit: nat)
      modifies job`status, job`attempt, job`node
      ensures job.State() == if permanent then old(job.State()).(status := Failed) else Retry(old(job.State()), limit)
    {
      if permanent || job.attempt >= limit {
        job.status := Failed;
      } else {
        job.attempt, job.status, job.node := job.attempt + 1, Pending, None;
      }
    }

    method RunJob(job: Job, ghost c: CampaignId, ghost i: nat)
      requires Valid() && i < |jobs| && jobs[i] == job && IsScheduled(State(), c, i)
      modifies job`status, job`attempt, job`node, resources`allocations, fault, this`campaigns, this`artifacts
      ensures State() == ExecuteOne(old(State()), c, i)
      ensures Records() == old(Records())[i := job.State()]
    {
      hide Settle, Execution;
      ghost var before := State();
      job.status := Running;
      assert Records() == before.jobs[i := job.State()];
      assert job.State() == before.jobs[i].(status := Running);
      assert State() == before.(jobs := before.jobs[i := before.jobs[i].(status := Running)]);
      RunningExecutesAlike(before, i);
      var outcome := ExecuteJob(job, i);
      if outcome != Success { HandleJobFailure(job, outcome == Permanent, i); }
      RunningIsTransitory(before, i, outcome);
      assert Records() == before.jobs[i := job.State()];
    }

    method ExecuteAt(job: Job, c: CampaignId, ghost i: nat) returns (ran: bool)
      requires Valid() && i < |jobs| && jobs[i] == job
      modifies job`status, job`attempt, job`node, resources`allocations, fault, this`campaigns, this`artifacts
      ensures State() == ExecuteOne(old(State()), c, i) && (ran <==> IsScheduled(old(State()), c, i))
      ensures State().jobs == old(State()).jobs[i := State().jobs[i]]
    {
      ran := job.id.campaign == c && job.status == Scheduled;
      if ran {
        RunJob(job, c, i);
      } else {
        ExecuteOneSkips(State(), c, i);
      }
    }

    /** Returns None for an unknown campaign, else whether any job was executed. */
    method ExecuteReadyJobs(c: CampaignId) returns (r: Option<bool>)
      requires Valid()
      modifies this`campaigns, this`artifacts, jobs, resources`allocations, fault
      ensures Valid()
      ensures r.None? <==> c !in old(campaigns)
      ensures State() == if r.None? then old(State()) else Execute(old(State()), c)
      ensures r.Some? ==> (r.value <==> !Closed(old(campaigns)[c]) && HasScheduled(old(State()), c))
    {
      hide ExecutePass, StatusOf;
      if c !in campaigns { return None; }
      if Closed(campaigns[c]) { return Some(false); }
      var executed := ExecuteScheduled(c);
      UpdateCampaignStatus(c);
      return Some(executed);
    }

    /** Runs each scheduled job of the campaign in turn. */
    method ExecuteScheduled(c: CampaignId) returns (executed: bool)
      requires Valid()
      modifies this`campaigns, this`artifacts, jobs, resources`allocations, fault
      ensures Valid() && State() == ExecutePass(old(State()), c, 0) && (executed <==> HasScheduled(old(State()), c))
    {
      hide ExecutePass, ExecuteOne, Records, State;
      executed := false;
      ghost var s, now := State(), State();
      for i := 0 to |jobs|
        invariant State() == now && ExecutePass(now, c, i) == ExecutePass(s, c, 0)
        invariant |now.jobs| == |s.jobs| && forall k :: i <= k < |s.jobs| ==> now.jobs[k] == s.jobs[k]
        invariant executed <==> exists k :: 0 <= k < i && IsScheduled(s, c, k)
      {
        ExecutePassNext(now, c, i);
        var ran := ExecuteAt(jobs[i], c, i);
        OneJobChanged(now.jobs, State().jobs, s.jobs, i);
        assert ran <==> IsScheduled(s, c, i);
        now := State();
        executed := executed || ran;
      }
      ExecutePassNext(now, c, |jobs|);
    }

    method ScheduleAndExecute(c: CampaignId) returns (worked: bool)
      requires Valid() && c in campaigns
      modifies this`campaigns, this`artifacts, jobs, resources`allocations, fault
      ensures Valid() && threshold == old(threshold)
      ensures var s1 := Schedule(old(State()), c);
        && State() == Execute(s1, c)
        && (worked <==> s1.jobs != old(State()).jobs || (!Closed(s1.campaigns[c]) && HasScheduled(s1, c)))
    {
      hide Schedule, Execute, HasScheduled;
      worked := false;
      var scheduled := ScheduleCampaign(c);
      if scheduled.value != [] { worked := true; }
      var executed := ExecuteReadyJobs(c);
      if executed.value { worked := true; }
    }

    /** One turn of the driver loop; returns whether it made progress. */
    method DriveOnce(c: CampaignId) returns (progress: bool)
      requires Valid() && c in campaigns
      modifies this`campaigns, this`artifacts, jobs, resources, fault
      ensures Valid() && threshold == old(threshold)
      ensures State() == Round(old(State()), c)
      ensures progress <==> Progress(old(State()), c)
    {
      hide Schedule, Execute, PendingJobs, HasScheduled, Autoscale, Round, Progress;
      ghost var s := State();
      progress := ScheduleAndExecute(c);
      ghost var s2 := State();
      var pending := CountPending(c);
      var added := resources.AutoscaleNodes(pending, threshold);
      if added.Some? { progress := true; }
      AutoscaleView(s2, resources.policyVersion, pending);
      DriveStep(s, Schedule(s, c), s2, c);
    }

    /**
     * Drives a campaign to rest, and reports an unknown one. It may be called whenever the loop ends, for
     * which `CampaignRuns` gives the conditions; the result is the state of that loop's last turn.
     */
    method RunCampaign(c: CampaignId) returns (known: bool, ghost turns: nat)
      requires Valid() && Steady(State()) && (c in campaigns ==> Ends(State(), c))
      modifies this`campaigns, this`artifacts, jobs, resources, fault
      ensures Valid() && Steady(State())
      ensures known <==> c in old(campaigns)
      ensures if known then RunResult(old(State()), c, turns, State()) else State() == old(State())
      ensures known ==> |PendingJobs(State(), c)| <= threshold
      ensures known ==>
        forall i: nat, m: string :: IsPending(State(), c, i) ==> !Fits(State(), m, State().jobs[i].requirements)
      ensures known ==> forall i :: 0 <= i < |State().jobs| && State().jobs[i].id.campaign == c ==>
        State().jobs[i].status == Pending || Done(State().jobs[i].status)
      ensures known && Consistent(old(State())) && RunCovers(old(State()), c, turns) ==> Consistent(State())
    {
      hide Steady, Consistent, Round, Rounds, Progress, Fits, PendingJobs, StatusOf, RunCovers, EndsAfter, SafeSeat,
        Evolves, SameElsewhere, Blocked, Doubtful, Distance;
      known, turns := c in campaigns, 0;
      if !known { return; }
      ghost var s0 := State();
      turns :| EndsAfter(s0, c, turns);
      ghost var left, last := turns, s0;
      var progress := true;
      while progress
        invariant Valid() && Ready(State(), c) && Ready(last, c) && threshold == s0.threshold
        invariant progress ==> last == State() && EndsAfter(last, c, left)
        invariant !progress ==> State() == Round(last, c) && left == 0
        invariant Rounds(last, c, left) == Rounds(s0, c, turns)
        decreases if progress then left + 1 else 0
      {
        LeftIsProgress(last, c, left);
        progress := DriveOnce(c);
        NextTurn(last, State(), c);
        if progress {
          OneMoreTurn(last, State(), c, left - 1);
          left, last := left - 1, State();
        }
      }
      UpdateCampaignStatus(c);
      LastState(s0, c, turns, last, State());
      RunOutcome(s0, c, turns, State());
    }

    method Recover(job: Job, ghost n: string, ghost i: nat) returns (again: bool)
      requires Valid() && i < |jobs| && jobs[i] == job && job.node == Some(n) && Holds(job.State())
      modifies job`status, job`attempt, job`node, resources`allocations, fault, this`campaigns
      ensures State() == FailOne(old(State()), n, i)
      ensures Records() == old(Records())[i := job.State()]
      ensures again <==> old(job.attempt) < Limit(old(State()), job.id.campaign)
    {
      hide StatusOf, Release, Settle;
      ghost var before := State();
      var released := resources.ReleaseAllocationsForJob(job.id);
      var limit := fault.GetRecoveryPlan(job.id.campaign);
      again := fault.RecoverJob(job, limit);
      assert Records() == before.jobs[i := job.State()];
      UpdateCampaignStatus(job.id.campaign);
      SettleParts(before, i, Transient, job.State());
    }

    /** Returns None for an unknown node, else the ids of the jobs put back for another attempt. */
    method FailNodeAndRecover(n: string) returns (r: Option<seq<JobId>>)
      requires Valid()
      modifies this`campaigns, jobs, resources, fault
      ensures Valid()
      ensures r.None? <==> n !in old(resources.nodes)
      ensures State() == if r.None? then old(State()) else FailNode(old(State()), n)
      ensures r.Some? ==> forall id :: id in r.value <==> RecoveredBefore(old(State()), n, |old(jobs)|, id)
    {
      hide FailPass, FailOne;
      ghost var s := State();
      var found := resources.MarkFailed(n);
      if !found { return None; }
      assert State() == MarkDown(s, n);
      var recovered := RecoverAll(n);
      SameRecovered(s, MarkDown(s, n), n);
      return Some(recovered);
    }

    /** Recovers each job that holds the node in turn. */
    method RecoverAll(n: string) returns (recovered: seq<JobId>)
      requires Valid()
      modifies this`campaigns, jobs, resources`allocations, fault
      ensures Valid() && State() == FailPass(old(State()), n, 0)
      ensures forall id :: id in recovered <==> RecoveredBefore(old(State()), n, |old(jobs)|, id)
    {
      hide FailPass, FailOne, Records, State, Limit, Recovered;
      recovered := [];
      ghost var s, now := State(), State();
      for i := 0 to |jobs|
        invariant State() == now && FailPass(now, n, i) == FailPass(s, n, 0)
        invariant |now.jobs| == |s.jobs| && forall k :: i <= k < |s.jobs| ==> now.jobs[k] == s.jobs[k]
        invariant forall c :: Limit(now, c) == Limit(s, c)
        invariant forall id :: id in recovered <==> RecoveredBefore(s, n, i, id)
      {
        FailPassNext(now, n, i);
        var job := jobs[i];
        var again := RecoverAt(job, n, i);
        OneJobChanged(now.jobs, State().jobs, s.jobs, i);
        assert again <==> Recovered(s, n, s.jobs[i]) by { SameLimit(s, now, n, s.jobs[i]); }
        now := State();
        if again { recovered := recovered + [job.id]; }
      }
      FailPassNext(now, n, |jobs|);
    }

    method RecoverAt(job: Job, n: string, ghost i: nat) returns (again: bool)
      requires Valid() && i < |jobs| && jobs[i] == job
      modifies job`status, job`attempt, job`node, resources`allocations, fault, this`campaigns
      ensures State() == FailOne(old(State()), n, i) && (again <==> Recovered(old(State()), n, old(State()).jobs[i]))
      ensures State().jobs == old(State()).jobs[i := State().jobs[i]]
      ensures forall c :: Limit(State(), c) == Limit(old(State()), c)
    {
      again := false;
      ghost var before := State();
      if job.node == Some(n) && (job.status == Scheduled || job.status == Running) {
        again := Recover(job, n, i);
        FailOneLimit(before, n, i);
      } else {
        FailOneSkips(State(), n, i);
      }
    }

    method CreateJob(id: JobId, requirements: Requirements, policyVersion: string)
      requires Valid()
      modifies this`jobs
      ensures Valid() && State() == AddJob(old(State()), id, requirements, policyVersion)
      ensures forall j :: j in jobs ==> j in old(jobs) || fresh(j)
    {
      var records := Records();
      if exists i :: 0 <= i < |records| && records[i].id == id { return; }
      var job := new Job(id, requirements, policyVersion);
      ghost var before := State();
      jobs := jobs + [job];
      assert Records() == before.jobs + [job.State()];
    }

    /** Returns false where the program raises; a campaign whose plan is refused is stored by then. */
    method SubmitCampaign(c: CampaignId, candidates: int, backends: seq<string>, policyVersion: string,
                          requirements: Requirements, maxAttempts: int) returns (ok: bool)
      requires Valid()
      modifies this`jobs, this`campaigns, fault
      ensures Valid()
      ensures ok <==> c in old(campaigns) || (candidates >= 1 && maxAttempts >= 1)
      ensures State() == Submit(old(State()), c, candidates, backends, policyVersion, requirements, maxAttempts)
    {
      if c in campaigns { return true; }
      if candidates < 1 { return false; }
      campaigns := campaigns[c := CampaignPending];
      ok := fault.CreateRecoveryPlan(c, maxAttempts);
      if ok { CreateJobs(c, candidates, backends, policyVersion, requirements); }
    }

    /** One job for each candidate, one for each backend, and the verification job. */
    method CreateJobs(c: CampaignId, candidates: nat, backends: seq<string>, policyVersion: string,
                      requirements: Requirements)
      requires Valid()
      modifies this`jobs
      ensures Valid()
      ensures State() == AddJobs(old(State()), c, JobNames(candidates, backends), requirements, policyVersion)
    {
      hide AddJob, AddFrom, Records, State;
      ghost var names := JobNames(candidates, backends);
      ghost var target := AddFrom(State(), c, names, 0, requirements, policyVersion);
      AddFromEnds(State(), c, names, requirements, policyVersion);
      for k := 0 to candidates
        invariant Valid() && AddFrom(State(), c, names, k, requirements, policyVersion) == target
      {
        AddFromNext(State(), c, names, k, requirements, policyVersion);
        CreateJob(JobId(c, Candidate(k)), requirements, policyVersion);
      }
      for k := 0 to |backends|
        invariant Valid() && AddFrom(State(), c, names, candidates + k, requirements, policyVersion) == target
      {
        AddFromNext(State(), c, names, candidates + k, requirements, policyVersion);
        CreateJob(JobId(c, Compile(backends[k])), requirements, policyVersion);
      }
      AddFromNext(State(), c, names, |names| - 1, requirements, policyVersion);
      CreateJob(JobId(c, Verification), requirements, policyVersion);
      AddFromEnds(State(), c, names, requirements, policyVersion);
    }
  }

  function AddFrom(s: Sys, c: CampaignId, names: seq<JobName>, k: nat, req: Requirements, policyVersion: string): Sys
    requires k <= |names|
  {
    AddJobs(s, c, names[k..], req, policyVersion)
  }

  lemma AddFromNext(s: Sys, c: CampaignId, names: seq<JobName>, k: nat, req: Requirements, policyVersion: string)
    requires k < |names|
    ensures AddFrom(s, c, names, k, req, policyVersion)
         == AddFrom(AddJob(s, JobId(c, names[k]), req, policyVersion), c, names, k + 1, req, policyVersion)
  {
    assert names[k..][1..] == names[k + 1..];
  }

  lemma AddFromEnds(s: Sys, c: CampaignId, names: seq<JobName>, req: Requirements, policyVersion: string)
    ensures AddFrom(s, c, names, 0, req, policyVersion) == AddJobs(s, c, names, req, policyVersion)
    ensures AddFrom(s, c, names, |names|, req, policyVersion) == s
  {
    assert names[0..] == names && names[|names|..] == [];
  }

  lemma AutoscaleView(s: Sys, policyVersion: string, pending: nat)
    requires policyVersion == s.policyVersion
    ensures var view := Sys(policyVersion, s.threshold, s.nodes, s.allocations, [], map[], map[], {});
      Autoscale(s, pending) == s.(nodes := Autoscale(view, pending).nodes)
  {}

  lemma DriveStep(s: Sys, s1: Sys, s2: Sys, c: CampaignId)
    requires c in s.campaigns && s1 == Schedule(s, c) && s2 == Execute(s1, c)
    ensures Round(s, c) == Autoscale(s2, |PendingJobs(s2, c)|)
    ensures Progress(s, c) <==>
      (s1.jobs != s.jobs || (!Closed(s1.campaigns[c]) && HasScheduled(s1, c)) || |PendingJobs(s2, c)| > s.threshold)
  {}

  lemma SettleParts(s: Sys, i: nat, outcome: Outcome, job: JobState)
    requires i < |s.jobs| && outcome != Success
    requires job == if outcome == Permanent then s.jobs[i].(status := Failed)
                    else Retry(s.jobs[i], Limit(s, s.jobs[i].id.campaign))
    ensures var c := s.jobs[i].id.campaign;
      Settle(s, i, outcome) == s.(allocations := Release(s.allocations, s.jobs[i].id), jobs := s.jobs[i := job],
                                  limits := s.limits[c := Limit(s, c)],
                                  campaigns := s.campaigns[c := StatusOf(s.jobs[i := job], c)])
  {}

  /** `job` held the lost node and has attempts left. */
  predicate Recovered(s: Sys, n: string, job: JobState) {
    job.node == Some(n) && Holds(job) && job.attempt < Limit(s, job.id.campaign)
  }

  ghost predicate RecoveredBefore(s: Sys, n: string, i: nat, id: JobId)
    requires i <= |s.jobs|
  {
    exists k :: 0 <= k < i && s.jobs[k].id == id && Recovered(s, n, s.jobs[k])
  }

  lemma LimitIs(s: Sys, c: CampaignId)
    ensures Limit(s, c) == if c in s.limits then s.limits[c] else DEFAULT_ATTEMPTS
  {}

  lemma SameLimit(s: Sys, s': Sys, n: string, job: JobState)
    requires forall c :: Limit(s', c) == Limit(s, c)
    ensures Recovered(s', n, job) <==> Recovered(s, n, job)
  {}

  lemma SameRecovered(s: Sys, s': Sys, n: string)
    requires s'.jobs == s.jobs && s'.limits == s.limits
    ensures forall id :: RecoveredBefore(s', n, |s.jobs|, id) <==> RecoveredBefore(s, n, |s.jobs|, id)
  {}

  lemma FailOneLimit(s: Sys, n: string, i: nat)
    requires i < |s.jobs|
    ensures forall c :: Limit(FailOne(s, n, i), c) == Limit(s, c)
  {
    hide StatusOf, Release;
  }

  /** A loop over the jobs has come to job `i`, and only that one may have changed. */
  lemma OneJobChanged(before: seq<JobState>, after: seq<JobState>, start: seq<JobState>, i: nat)
    requires |before| == |start| && i < |start| && |after| == |before| && after == before[i := after[i]]
    requires forall k :: i <= k < |start| ==> before[k] == start[k]
    ensures forall k :: i < k < |start| ==> after[k] == start[k]
    ensures after == start <==> before == start && after[i] == before[i]
  {
    if after == start { assert forall k :: 0 <= k < |start| ==> before[k] == start[k]; }
  }

  lemma ScheduleOneSkips(s: Sys, c: CampaignId, i: nat)
    requires i < |s.jobs| && !IsPending(s, c, i)
    ensures ScheduleOne(s, c, i) == s
  {}

  lemma ExecuteOneSkips(s: Sys, c: CampaignId, i: nat)
    requires i < |s.jobs| && !IsScheduled(s, c, i)
    ensures ExecuteOne(s, c, i) == s
  {}

  lemma FailOneSkips(s: Sys, n: string, i: nat)
    requires i < |s.jobs| && !(s.jobs[i].node == Some(n) && Holds(s.jobs[i]))
    ensures FailOne(s, n, i) == s
  {}

  lemma SamePlace(s: Sys, s': Sys, req: Requirements)
    requires s.nodes == s'.nodes && s.allocations == s'.allocations
    ensures Place(s, req) == Place(s', req)
  {
    forall n ensures Fits(s, n, req) <==> Fits(s', n, req) {}
    var p, p' := Place(s, req), Place(s', req);
    if p.Some? && p'.Some? {
      assert IsPlacement(s', req, p.value);
      PlacementUnique(s', req, p.value, p'.value);
    }
  }

  /** Marking a job running before executing it makes no difference to what executing it leaves. */
  lemma RunningIsTransitory(s: Sys, i: nat, outcome: Outcome)
    requires i < |s.jobs|
    ensures Settle(s.(jobs := s.jobs[i := s.jobs[i].(status := Running)]), i, outcome) == Settle(s, i, outcome)
  {
    var s' := s.(jobs := s.jobs[i := s.jobs[i].(status := Running)]);
    var done, retried := s.jobs[i].(status := Completed), Retry(s.jobs[i], Limit(s, s.jobs[i].id.campaign));
    assert s'.jobs[i := done] == s.jobs[i := done];
    assert s'.jobs[i := retried] == s.jobs[i := retried];
    assert s'.jobs[i := s.jobs[i].(status := Failed)] == s.jobs[i := s.jobs[i].(status := Failed)];
  }

  lemma RunningExecutesAlike(s: Sys, i: nat)
    requires i < |s.jobs|
    ensures var job := s.jobs[i].(status := Running);
      Execution(s.(jobs := s.jobs[i := job]), job) == Execution(s, s.jobs[i])
  {}

  lemma LastState(s: Sys, c: CampaignId, n: nat, last: Sys, s': Sys)
    requires c in s.campaigns && c in last.campaigns && EndsAfter(s, c, n) && Rounds(last, c, 0) == Rounds(s, c, n)
    requires s' == UpdateStatus(Round(last, c), c)
    ensures RunResult(s, c, n, s')
  {}

  lemma LeftIsProgress(s: Sys, c: CampaignId, n: nat)
    requires c in s.campaigns && EndsAfter(s, c, n)
    ensures Progress(s, c) <==> n > 0
  {
    hide Progress, Round;
  }
}
