/**
 * What becomes of jobs, told on the fields of jobs and nodes alone: where scheduling places them, what
 * executing makes of them, and what a whole run leaves of a campaign.
 */
module CampaignOutcomes {
  import opened Order
  import opened Cluster
  import opened ClusterSafety
  import opened ClusterHistory
  import opened CampaignRuns
  import opened ClusterReach

  // ---------------------------------------------------------------- placing jobs

  /** `n` has `need` of a resource left beside what the jobs on it asked for; nothing is always left. */
  predicate HasRoom(s: Sys, n: string, r: Resource, capacity: nat, need: nat) {
    need == 0 || Demand(s.jobs, n, r, None) + need <= capacity
  }

  /** What a requirement asks of a node, and room for it. */
  predicate Suits(s: Sys, n: string, req: Requirements) {
    && n in s.nodes
    && var node := s.nodes[n];
       && node.status == Active && node.attested
       && (|req.regions| > 0 ==> node.region in req.regions)
       && (forall x :: x in req.capabilities ==> x in node.capabilities)
       && HasRoom(s, n, Cpu, node.cpuCapacity, req.cpu) && HasRoom(s, n, Memory, node.memoryMbCapacity, req.memoryMb)
  }

  lemma FitsIsSuits(s: Sys, n: string, req: Requirements)
    requires Tracked(s)
    ensures Fits(s, n, req) <==> Suits(s, n, req)
  {
    UsedIsDemand(s, n, Cpu);
    UsedIsDemand(s, n, Memory);
  }

  /** The scheduler takes the first suitable node: by region, then by id. */
  lemma PlacedFirst(s: Sys, req: Requirements, m: string)
    requires Tracked(s) && Suits(s, m, req)
    ensures var place := Place(s, req);
      && place.Some? && Suits(s, place.value, req)
      && StrLe(s.nodes[place.value].region, s.nodes[m].region)
      && (s.nodes[place.value].region == s.nodes[m].region ==> StrLe(place.value, m))
  {
    FitsIsSuits(s, m, req);
    var place := Place(s, req);
    FitsIsSuits(s, place.value, req);
    StrLeIsTotalOrder();
  }

  lemma FitsShrinks(s: Sys, s': Sys, n: string, req: Requirements)
    requires s'.nodes == s.nodes && s.allocations <= s'.allocations && Fits(s', n, req)
    ensures Fits(s, n, req)
  {
    UsedGrows(s.allocations, s'.allocations, n, Cpu);
    UsedGrows(s.allocations, s'.allocations, n, Memory);
  }

  lemma {:induction false} UsedGrows(xs: seq<Allocation>, ys: seq<Allocation>, n: string, r: Resource)
    requires xs <= ys
    ensures Used(xs, n, r) <= Used(ys, n, r)
    decreases |ys|
  {
    if xs != ys { UsedGrows(xs, ys[..|ys| - 1], n, r); }
  }

  /** A pass leaves a job pending only if no node is left that fits it, and places jobs on nodes that fit. */
  lemma {:induction false} PassPlaces(s: Sys, c: CampaignId, i: nat)
    requires Tracked(s) && i <= |s.jobs|
    ensures var s' := SchedulePass(s, c, i);
      && s'.nodes == s.nodes && s.allocations <= s'.allocations
      && (forall k, n :: i <= k < |s.jobs| && IsPending(s', c, k) ==> !Fits(s', n, s'.jobs[k].requirements))
    decreases |s.jobs| - i
  {
    if i < |s.jobs| {
      hide Fits;
      var s1, s' := ScheduleOne(s, c, i), SchedulePass(s, c, i);
      ScheduleOneKeeps(s, c, i);
      ScheduleOneShape(s, c, i);
      SchedulePassFrame(s1, c, i + 1);
      PassPlaces(s1, c, i + 1);
      if IsPending(s', c, i) {
        assert s'.jobs[i] == s1.jobs[i];
        forall n ensures !Fits(s', n, s'.jobs[i].requirements) {
          if Fits(s', n, s'.jobs[i].requirements) { FitsShrinks(s1, s', n, s'.jobs[i].requirements); }
        }
      }
    }
  }

  /**
   * `schedule_campaign` on an open campaign: each job that it takes goes to an active, attested node in a region
   * and with the capabilities it asks for, and is otherwise unchanged; each job that it leaves pending suits no node.
   */
  lemma ScheduledWell(s: Sys, c: CampaignId, k: nat)
    requires Tracked(s) && c in s.campaigns && !Closed(s.campaigns[c]) && IsPending(s, c, k)
    ensures var s', job := Schedule(s, c), s.jobs[k];
      if s'.jobs[k] == job then forall n :: !Suits(s', n, job.requirements)
      else
        && s'.jobs[k].node.Some? && s'.jobs[k] == job.(status := Scheduled, node := s'.jobs[k].node)
        && s'.jobs[k].node.value in s.nodes
        && var node := s.nodes[s'.jobs[k].node.value];
           && node.status == Active && node.attested
           && (|job.requirements.regions| > 0 ==> node.region in job.requirements.regions)
           && (forall x :: x in job.requirements.capabilities ==> x in node.capabilities)
  {
    var pass, s' := SchedulePass(s, c, 0), Schedule(s, c);
    ScheduleFrom(s, s', c);
    ScheduleKeeps(s, c);
    assert MayBeScheduled(s, c, k, s'.jobs[k]);
    if s'.jobs[k] == s.jobs[k] {
      PassPlaces(s, c, 0);
      assert IsPending(pass, c, k);
      forall n ensures !Suits(s', n, s.jobs[k].requirements) {
        FitsIsSuits(s', n, s.jobs[k].requirements);
        assert Fits(s', n, s.jobs[k].requirements) <==> Fits(pass, n, s.jobs[k].requirements);
      }
    }
  }

  /** A pending campaign becomes running exactly when scheduling takes one of its jobs; no other status changes. */
  lemma ScheduledStatus(s: Sys, c: CampaignId)
    requires Tracked(s) && c in s.campaigns
    ensures var s' := Schedule(s, c);
      s'.campaigns == if s.campaigns[c] == CampaignPending && s'.jobs != s.jobs
                      then s.campaigns[c := CampaignRunning] else s.campaigns
  {}

  // ---------------------------------------------------------------- executing jobs

  predicate OnActiveNode(s: Sys, job: JobState) {
    job.node.Some? && job.node.value in s.nodes && s.nodes[job.node.value].status == Active
  }

  /** Job `k` was executed between `s` and `after`, and made `h`. */
  predicate Made(s: Sys, after: Sys, c: CampaignId, k: nat, h: ContentHash) {
    && IsScheduled(s, c, k) && k < |after.jobs| && after.jobs[k].status == Completed
    && h == Output(s.jobs[k].id)
  }

  /** `h` was an artifact in `s`, or one of the jobs from `from` up to `to` made it. */
  ghost predicate Stored(s: Sys, after: Sys, c: CampaignId, from: nat, to: nat, h: ContentHash) {
    h in s.artifacts || exists k :: from <= k < to && Made(s, after, c, k, h)
  }

  /** Everything is as a job demands of the node it is on, and of the artifacts there are when it is its turn. */
  ghost predicate Succeeds(s: Sys, after: Sys, c: CampaignId, from: nat, i: nat)
    requires i < |s.jobs|
  {
    var job := s.jobs[i];
    && OnActiveNode(s, job)
    && s.nodes[job.node.value].attested && s.nodes[job.node.value].policyVersion == job.policyVersion
    && forall h :: h in job.inputs ==> Stored(s, after, c, from, i, h)
  }

  /** A job that was scheduled: completed, failed for good, or lost with its node. */
  ghost predicate Ran(s: Sys, after: Sys, c: CampaignId, from: nat, i: nat)
    requires i < |s.jobs| && |after.jobs| == |s.jobs|
  {
    var job, job' := s.jobs[i], after.jobs[i];
    if OnActiveNode(s, job) then job' == job.(status := if Succeeds(s, after, c, from, i) then Completed else Failed)
    else if job.id.campaign in s.limits && job.attempt < s.limits[job.id.campaign]
    then job' == job.(status := Pending, attempt := job.attempt + 1, node := None)
    else job' == job.(status := Failed)
  }

  lemma ExecuteOneRuns(s: Sys, c: CampaignId, i: nat)
    requires JobsOk(s) && i < |s.jobs| && IsScheduled(s, c, i)
    ensures var s1 := ExecuteOne(s, c, i);
      && Ran(s, s1, c, i, i)
      && s1.artifacts == s.artifacts + if s1.jobs[i].status == Completed then {Output(s.jobs[i].id)} else {}
  {
    assert JobOk(s, s.jobs[i]);
    var s1 := ExecuteOne(s, c, i);
    forall h ensures Stored(s, s1, c, i, i, h) <==> h in s.artifacts {}
  }

  lemma ExecuteOneArtifacts(s: Sys, c: CampaignId, i: nat)
    requires JobsOk(s) && i < |s.jobs|
    ensures var s1 := ExecuteOne(s, c, i);
      forall h :: h in s1.artifacts <==> h in s.artifacts || Made(s, s1, c, i, h)
  {
    if IsScheduled(s, c, i) { ExecuteOneRuns(s, c, i); }
  }

  /** What is stored does not depend on where the pass is cut. */
  lemma StoredAfterOne(s: Sys, s1: Sys, after: Sys, c: CampaignId, from: nat, to: nat, h: ContentHash)
    requires from < to <= |s.jobs| && |s1.jobs| == |s.jobs| == |after.jobs|
    requires forall k :: 0 <= k < |s.jobs| && k != from ==> s1.jobs[k] == s.jobs[k]
    requires after.jobs[from] == s1.jobs[from]
    requires forall x :: x in s1.artifacts <==> x in s.artifacts || Made(s, s1, c, from, x)
    ensures Stored(s1, after, c, from + 1, to, h) <==> Stored(s, after, c, from, to, h)
  {
    assert Made(s, s1, c, from, h) <==> Made(s, after, c, from, h);
    forall k | from < k < to ensures Made(s1, after, c, k, h) <==> Made(s, after, c, k, h) {}
  }

  lemma RanFrame(s: Sys, s1: Sys, after: Sys, c: CampaignId, from: nat, i: nat)
    requires from < i < |s.jobs| && |s1.jobs| == |s.jobs| == |after.jobs|
    requires s1.nodes == s.nodes && s1.jobs[i] == s.jobs[i] && s.jobs[i].id.campaign in s.limits
    requires s1.limits == s.limits
    requires forall h :: Stored(s1, after, c, from + 1, i, h) <==> Stored(s, after, c, from, i, h)
    requires Ran(s1, after, c, from + 1, i)
    ensures Ran(s, after, c, from, i)
  {
    hide Stored;
  }

  /** A pass over the jobs from number `from` on: every scheduled one ran, and its output is stored if it completed. */
  lemma {:induction false} PassRuns(s: Sys, after: Sys, c: CampaignId, from: nat)
    requires JobsOk(s) && from <= |s.jobs| && after == ExecutePass(s, c, from)
    ensures forall i :: from <= i < |s.jobs| && IsScheduled(s, c, i) ==> Ran(s, after, c, from, i)
    ensures forall h :: h in after.artifacts <==> Stored(s, after, c, from, |s.jobs|, h)
    decreases |s.jobs| - from
  {
    if from < |s.jobs| {
      var s1 := ExecuteOne(s, c, from);
      ExecuteOneShape(s, c, from);
      ExecuteOneArtifacts(s, c, from);
      ExecutePassFrame(s, c, from);
      if IsScheduled(s, c, from) {
        ExecuteOneRuns(s, c, from);
        SettleShape(s, from, Execution(s, s.jobs[from]));
      }
      ExecutePassFrame(s1, c, from + 1);
      PassRuns(s1, after, c, from + 1);
      PassJoins(s, s1, after, c, from);
    }
  }

  lemma PassJoins(s: Sys, s1: Sys, after: Sys, c: CampaignId, from: nat)
    requires from < |s.jobs| && |s1.jobs| == |s.jobs| == |after.jobs|
    requires JobsOk(s) && s1.nodes == s.nodes && s1.limits == s.limits
    requires forall k :: 0 <= k < |s.jobs| && k != from ==> s1.jobs[k] == s.jobs[k]
    requires after.jobs[from] == s1.jobs[from]
    requires forall h :: h in s1.artifacts <==> h in s.artifacts || Made(s, s1, c, from, h)
    requires IsScheduled(s, c, from) ==> Ran(s, s1, c, from, from)
    requires forall i :: from < i < |s.jobs| && IsScheduled(s1, c, i) ==> Ran(s1, after, c, from + 1, i)
    requires forall h :: h in after.artifacts <==> Stored(s1, after, c, from + 1, |s.jobs|, h)
    ensures forall i :: from <= i < |s.jobs| && IsScheduled(s, c, i) ==> Ran(s, after, c, from, i)
    ensures forall h :: h in after.artifacts <==> Stored(s, after, c, from, |s.jobs|, h)
  {
    hide Made;
    forall to, h | from < to <= |s.jobs|
      ensures Stored(s1, after, c, from + 1, to, h) <==> Stored(s, after, c, from, to, h)
    {
      StoredAfterOne(s, s1, after, c, from, to, h);
    }
    forall h ensures Stored(s, after, c, from, from, h) <==> Stored(s, s1, c, from, from, h) {}
    hide Stored;
    forall i | from <= i < |s.jobs| && IsScheduled(s, c, i) ensures Ran(s, after, c, from, i) {
      assert JobOk(s, s.jobs[i]);
      if i > from {
        assert IsScheduled(s1, c, i);
        RanFrame(s, s1, after, c, from, i);
      }
    }
  }

  /** The four campaign statuses, by the jobs: none, all completed, all finished and one failed, anything else. */
  ghost predicate StatusTells(s: Sys, c: CampaignId) {
    && c in s.campaigns
    && var mine := set i | 0 <= i < |s.jobs| && s.jobs[i].id.campaign == c;
       var status := s.campaigns[c];
       if mine == {} then status == CampaignPending
       else if forall i :: i in mine ==> s.jobs[i].status == Completed then status == CampaignCompleted
       else if (forall i :: i in mine ==> s.jobs[i].status in {Completed, Failed, Cancelled})
               && (exists i :: i in mine && s.jobs[i].status == Failed) then status == CampaignFailed
       else status == CampaignRunning
  }

  lemma UpdatedTells(s: Sys, c: CampaignId)
    ensures StatusTells(UpdateStatus(s, c), c)
  {
    var mine := set i | 0 <= i < |s.jobs| && s.jobs[i].id.campaign == c;
    if HasJobs(s.jobs, c) {
      var i :| 0 <= i < |s.jobs| && s.jobs[i].id.campaign == c;
      assert i in mine;
    }
    assert AllCompleted(s.jobs, c) <==> forall i :: i in mine ==> s.jobs[i].status == Completed;
    assert AllDone(s.jobs, c) <==> forall i :: i in mine ==> s.jobs[i].status in {Completed, Failed, Cancelled};
    if AnyFailed(s.jobs, c) {
      var i :| 0 <= i < |s.jobs| && s.jobs[i].id.campaign == c && s.jobs[i].status == Failed;
      assert i in mine;
    }
  }

  /**
   * `execute_ready_jobs` on an open campaign. A scheduled job on an active, attested node of its own policy version
   * completes if its inputs are stored by then, and its output is stored; on an active node it fails otherwise; and
   * one whose node is lost goes back for another attempt while it has one. No other job changes, and the campaign's
   * status tells what its jobs have become.
   */
  lemma ExecuteRuns(s: Sys, c: CampaignId)
    requires Orderly(s) && c in s.campaigns && !Closed(s.campaigns[c])
    ensures var after := Execute(s, c);
      && (forall i :: 0 <= i < |s.jobs| ==>
            if IsScheduled(s, c, i) then Ran(s, after, c, 0, i) else after.jobs[i] == s.jobs[i])
      && (forall h :: h in after.artifacts <==> Stored(s, after, c, 0, |s.jobs|, h))
      && StatusTells(after, c)
  {
    var after, pass := Execute(s, c), ExecutePass(s, c, 0);
    PassRuns(s, pass, c, 0);
    UpdatedTells(pass, c);
    ExecuteFrom(s, after, c);
    SameRuns(s, pass, after, c);
    forall i | 0 <= i < |s.jobs| && !IsScheduled(s, c, i) ensures after.jobs[i] == s.jobs[i] {
      assert Executed(s, c, i, after.jobs[i]);
    }
  }

  lemma SameRuns(s: Sys, pass: Sys, after: Sys, c: CampaignId)
    requires |pass.jobs| == |s.jobs| && after.jobs == pass.jobs && after.artifacts == pass.artifacts
    requires forall i :: 0 <= i < |s.jobs| && IsScheduled(s, c, i) ==> Ran(s, pass, c, 0, i)
    requires forall h :: h in pass.artifacts <==> Stored(s, pass, c, 0, |s.jobs|, h)
    ensures forall i :: 0 <= i < |s.jobs| && IsScheduled(s, c, i) ==> Ran(s, after, c, 0, i)
    ensures forall h :: h in after.artifacts <==> Stored(s, after, c, 0, |s.jobs|, h)
  {
    forall to, h ensures Stored(s, pass, c, 0, to, h) <==> Stored(s, after, c, 0, to, h) {
      forall k: nat ensures Made(s, pass, c, k, h) <==> Made(s, after, c, k, h) {}
    }
    hide Stored;
    forall i | 0 <= i < |s.jobs| && IsScheduled(s, c, i) ensures Ran(s, after, c, 0, i) {
      assert Ran(s, pass, c, 0, i);
    }
  }

  // ---------------------------------------------------------------- losing a node

  /**
   * `fail_node`: the node goes down and no other changes; a job that held it goes back for another attempt
   * while its plan has one, and fails otherwise; every other job is as it was.
   */
  lemma LostNode(s: Sys, n: string)
    requires Steady(s) && n in s.nodes
    ensures var s' := FailNode(s, n);
      && s'.nodes.Keys == s.nodes.Keys
      && (forall m :: m in s.nodes ==> s'.nodes[m] == if m == n then s.nodes[m].(status := Down) else s.nodes[m])
      && |s'.jobs| == |s.jobs|
      && forall k :: 0 <= k < |s.jobs| ==> s.jobs[k].id.campaign in s.limits && var job := s.jobs[k];
           s'.jobs[k] ==
             if job.node != Some(n) || job.status !in {Scheduled, Running} then job
             else if job.attempt < s.limits[job.id.campaign]
             then job.(attempt := job.attempt + 1, status := Pending, node := None)
             else job.(status := Failed)
  {
    FailNodeStep(s, n);
    FailPassFrame(MarkDown(s, n), n, 0);
    hide FailNode;
    forall k | 0 <= k < |s.jobs| ensures JobOk(s, s.jobs[k]) {}
  }

  /** `detect_stale_nodes`: the active nodes that are late go down, and nothing else happens. */
  lemma StaleNodes(s: Sys, late: set<string>)
    ensures var s' := DropStale(s, late);
      && s' == s.(nodes := s'.nodes) && s'.nodes.Keys == s.nodes.Keys
      && forall m :: m in s.nodes ==>
           s'.nodes[m] == if m in late && s.nodes[m].status == Active then s.nodes[m].(status := Down) else s.nodes[m]
  {}

  // ---------------------------------------------------------------- submitting a campaign

  /** A job as it is created. */
  predicate Fresh(job: JobState, c: CampaignId, names: seq<JobName>, req: Requirements, policyVersion: string) {
    && job.id.campaign == c && job.id.name in names
    && job == JobState(job.id, req, policyVersion, [], Pending, 0, None)
  }

  lemma {:induction false} AddedJobs(s: Sys, c: CampaignId, names: seq<JobName>, req: Requirements,
                                     policyVersion: string)
    ensures var s' := AddJobs(s, c, names, req, policyVersion);
      && s' == s.(jobs := s'.jobs) && |s.jobs| <= |s'.jobs|
      && (forall i :: 0 <= i < |s.jobs| ==> s'.jobs[i] == s.jobs[i])
      && (forall i :: |s.jobs| <= i < |s'.jobs| ==> Fresh(s'.jobs[i], c, names, req, policyVersion))
    decreases |names|
  {
    if names != [] {
      var s1 := AddJob(s, JobId(c, names[0]), req, policyVersion);
      var s' := AddJobs(s, c, names, req, policyVersion);
      AddedJobs(s1, c, names[1..], req, policyVersion);
      forall i | |s.jobs| <= i < |s'.jobs| ensures Fresh(s'.jobs[i], c, names, req, policyVersion) {
        if i < |s1.jobs| { assert s'.jobs[i] == s1.jobs[i]; }
      }
    }
  }

  /** The names of a campaign's jobs: its candidates, its backends, and one verification. */
  predicate IsJobName(name: JobName, candidates: int, backends: seq<string>) {
    match name
    case Candidate(k) => k < candidates
    case Compile(b) => b in backends
    case Verification => true
  }

  lemma JobNamesAre(candidates: nat, backends: seq<string>, name: JobName)
    ensures name in JobNames(candidates, backends) <==> IsJobName(name, candidates, backends)
  {
    var names := JobNames(candidates, backends);
    match name {
      case Candidate(k) =>
        if k < candidates { assert names[k] == name; }
      case Compile(b) =>
        if b in backends {
          var k :| 0 <= k < |backends| && backends[k] == b;
          assert names[candidates + k] == name;
        }
      case Verification =>
        assert names[|names| - 1] == name;
    }
  }

  /**
   * `submit_campaign` of a new campaign: it is pending, with its plan, and it has exactly one job for each name,
   * all of them as created; everything else is as it was.
   */
  lemma SubmittedJobs(s: Sys, c: CampaignId, candidates: int, backends: seq<string>, policyVersion: string,
                      req: Requirements, maxAttempts: int)
    requires Tracked(s) && c !in s.campaigns && candidates >= 1 && maxAttempts >= 1
    ensures var s' := Submit(s, c, candidates, backends, policyVersion, req, maxAttempts);
      && s' == s.(jobs := s'.jobs, campaigns := s.campaigns[c := CampaignPending], limits := s.limits[c := maxAttempts])
      && s.jobs <= s'.jobs
      && (forall i :: 0 <= i < |s'.jobs| && (i >= |s.jobs| || s'.jobs[i].id.campaign == c) ==>
            && i >= |s.jobs| && IsJobName(s'.jobs[i].id.name, candidates, backends)
            && s'.jobs[i] == JobState(JobId(c, s'.jobs[i].id.name), req, policyVersion, [], Pending, 0, None))
      && (forall name :: IsJobName(name, candidates, backends) ==> Known(s'.jobs, JobId(c, name)))
      && DistinctIds(s'.jobs)
  {
    var names := JobNames(candidates, backends);
    var planned := s.(campaigns := s.campaigns[c := CampaignPending], limits := s.limits[c := maxAttempts]);
    var s' := Submit(s, c, candidates, backends, policyVersion, req, maxAttempts);
    hide AddJobs, JobNames, Matched, NoOrphans;
    assert s' == AddJobs(planned, c, names, req, policyVersion);
    SubmitKeeps(s, c, candidates, backends, policyVersion, req, maxAttempts);
    AddedJobs(planned, c, names, req, policyVersion);
    AddJobsShape(planned, c, names, req, policyVersion);
    forall name ensures name in names <==> IsJobName(name, candidates, backends) {
      JobNamesAre(candidates, backends, name);
    }
    forall name | IsJobName(name, candidates, backends) ensures Known(s'.jobs, JobId(c, name)) {
      var k :| 0 <= k < |names| && names[k] == name;
    }
    forall i | 0 <= i < |s.jobs| ensures s.jobs[i].id.campaign != c { assert JobOk(s, s.jobs[i]); }
    hide IsJobName;
  }

  // ---------------------------------------------------------------- what every reachable cluster keeps

  /** Nodes are attested exactly for the cluster's policy version, active ones are attested, and jobs have no inputs. */
  predicate Plain(s: Sys) {
    && (forall n :: n in s.nodes ==> (s.nodes[n].attested <==> s.nodes[n].policyVersion == s.policyVersion))
    && (forall n :: n in s.nodes ==> (s.nodes[n].status == Active ==> s.nodes[n].attested))
    && (forall job :: job in s.jobs ==> job.inputs == [])
  }

  /** The jobs of `s` keep their inputs and policy versions, and the policy version of the cluster stays. */
  predicate Alike(s: Sys, s': Sys) {
    && s'.policyVersion == s.policyVersion && |s'.jobs| == |s.jobs|
    && forall i :: 0 <= i < |s.jobs| ==>
         s'.jobs[i].inputs == s.jobs[i].inputs && s'.jobs[i].policyVersion == s.jobs[i].policyVersion
  }

  lemma AlikePlain(s: Sys, s': Sys)
    requires Plain(s) && Alike(s, s') && s'.nodes == s.nodes
    ensures Plain(s')
  {
    forall job | job in s'.jobs ensures job.inputs == [] {
      var i :| 0 <= i < |s'.jobs| && s'.jobs[i] == job;
      assert s.jobs[i] in s.jobs;
    }
  }

  lemma ScheduleAlike(s: Sys, c: CampaignId)
    requires Tracked(s) && c in s.campaigns
    ensures Alike(s, Schedule(s, c)) && Schedule(s, c).nodes == s.nodes
  {
    var s1 := Schedule(s, c);
    ScheduleFrom(s, s1, c);
    forall i | 0 <= i < |s.jobs|
      ensures s1.jobs[i].inputs == s.jobs[i].inputs && s1.jobs[i].policyVersion == s.jobs[i].policyVersion
    {
      assert MayBeScheduled(s, c, i, s1.jobs[i]);
    }
  }

  lemma ExecuteAlike(s: Sys, c: CampaignId)
    requires Orderly(s) && c in s.campaigns
    ensures Alike(s, Execute(s, c)) && Execute(s, c).nodes == s.nodes
  {
    var s1 := Execute(s, c);
    ExecuteFrom(s, s1, c);
    forall i | 0 <= i < |s.jobs|
      ensures s1.jobs[i].inputs == s.jobs[i].inputs && s1.jobs[i].policyVersion == s.jobs[i].policyVersion
    {
      assert Executed(s, c, i, s1.jobs[i]);
    }
  }

  lemma RoundPlain(s: Sys, c: CampaignId)
    requires Ready(s, c) && Plain(s)
    ensures Plain(Round(s, c)) && Alike(s, Round(s, c))
  {
    hide Settled, Schedule, Execute, Plain;
    var s1 := Schedule(s, c);
    var s2 := Execute(s1, c);
    ScheduleAlike(s, c);
    ScheduleStep(s, c);
    ExecuteAlike(s1, c);
    AlikePlain(s, s1);
    AlikePlain(s1, s2);
    NodePlain(s2, AutoId(|s2.nodes| + 1), AUTO_REGION, {}, AUTO_CPU, AUTO_MEMORY, s2.policyVersion);
  }

  lemma NodePlain(s: Sys, n: string, region: string, caps: set<string>, cpu: nat, mem: nat, policy: string)
    requires Plain(s)
    ensures Plain(Register(s, n, NewNode(s, region, caps, cpu, mem, policy)))
  {}

  lemma {:induction false} RoundsPlain(s: Sys, c: CampaignId, n: nat)
    requires Ready(s, c) && Plain(s)
    ensures Plain(Rounds(s, c, n)) && Rounds(s, c, n).policyVersion == s.policyVersion
    decreases n
  {
    hide Steady, Plain, Round;
    if n > 0 {
      RoundPlain(s, c);
      RoundStep(s, c);
      RoundsPlain(Round(s, c), c, n - 1);
    }
  }

  lemma FinalPlain(s: Sys, c: CampaignId, n: nat)
    requires Ready(s, c) && Plain(s)
    ensures Plain(Final(Rounds(s, c, n), c)) && Final(Rounds(s, c, n), c).policyVersion == s.policyVersion
  {
    hide Steady, Round, Rounds;
    RoundsPlain(s, c, n);
    RoundsSteady(s, c, n);
    RoundPlain(Rounds(s, c, n), c);
  }

  lemma FailNodePlain(s: Sys, n: string)
    requires Steady(s) && Plain(s) && n in s.nodes
    ensures Plain(FailNode(s, n)) && FailNode(s, n).policyVersion == s.policyVersion
  {
    hide Settled, Tracked;
    var s' := FailNode(s, n);
    LostNode(s, n);
    FailPolicy(MarkDown(s, n), n, 0);
    forall job | job in s'.jobs ensures job.inputs == [] {
      var i :| 0 <= i < |s'.jobs| && s'.jobs[i] == job;
      assert s.jobs[i] in s.jobs;
    }
  }

  lemma {:induction false} FailPolicy(s: Sys, n: string, i: nat)
    requires i <= |s.jobs|
    ensures FailPass(s, n, i).policyVersion == s.policyVersion
    decreases |s.jobs| - i
  {
    if i < |s.jobs| { FailPolicy(FailOne(s, n, i), n, i + 1); }
  }

  lemma SubmitPlain(s: Sys, c: CampaignId, k: int, backends: seq<string>, policy: string, req: Requirements, max: int)
    requires Plain(s)
    ensures var s' := Submit(s, c, k, backends, policy, req, max); Plain(s') && s'.policyVersion == s.policyVersion
  {
    if c !in s.campaigns && k >= 1 && max >= 1 {
      AddedJobs(s.(campaigns := s.campaigns[c := CampaignPending], limits := s.limits[c := max]),
                c, JobNames(k, backends), req, policy);
    }
  }

  lemma StepPlain(s: Sys, op: Op)
    requires Steady(s) && Plain(s)
    ensures Plain(Step(s, op)) && Step(s, op).policyVersion == s.policyVersion
  {
    hide Steady, Plain, Final, Rounds, Schedule, Execute, FailNode, Submit;
    match op
    case RegisterNode(n, region, caps, cpu, mem, policy) => NodePlain(s, n, region, caps, cpu, mem, policy);
    case SubmitCampaign(c, k, backends, policy, req, max) => SubmitPlain(s, c, k, backends, policy, req, max);
    case ScheduleCampaign(c) => if c in s.campaigns { SchedulePlain(s, c); }
    case ExecuteReadyJobs(c) => if c in s.campaigns { ExecutePlain(s, c); }
    case RunCampaign(c, n) => if c in s.campaigns { FinalPlain(s, c, n); }
    case FailNodeOp(n) => if n in s.nodes { FailNodePlain(s, n); }
    case DetectStaleNodes(late) => StalePlain(s, late);
  }

  lemma SchedulePlain(s: Sys, c: CampaignId)
    requires Steady(s) && Plain(s) && c in s.campaigns
    ensures Plain(Schedule(s, c)) && Schedule(s, c).policyVersion == s.policyVersion
  {
    ScheduleAlike(s, c);
    AlikePlain(s, Schedule(s, c));
  }

  lemma ExecutePlain(s: Sys, c: CampaignId)
    requires Steady(s) && Plain(s) && c in s.campaigns
    ensures Plain(Execute(s, c)) && Execute(s, c).policyVersion == s.policyVersion
  {
    ExecuteAlike(s, c);
    AlikePlain(s, Execute(s, c));
  }

  lemma StalePlain(s: Sys, late: set<string>)
    requires Plain(s)
    ensures Plain(DropStale(s, late)) && DropStale(s, late).policyVersion == s.policyVersion
  {}

  lemma {:induction false} RunPlain(s: Sys, ops: seq<Op>)
    requires Steady(s) && Plain(s)
    ensures Plain(After(s, ops)) && After(s, ops).policyVersion == s.policyVersion
    decreases |ops|
  {
    hide Steady, Plain, Step;
    if ops != [] {
      StepPlain(s, ops[0]);
      StepSteady(s, ops[0]);
      RunPlain(Step(s, ops[0]), ops[1..]);
    }
  }

  // ---------------------------------------------------------------- what a run leaves

  /** A job on its last attempt whose node is gone. */
  predicate LastAttemptLost(s: Sys, job: JobState) {
    && job.status == Scheduled && !OnActiveNode(s, job)
    && (job.id.campaign in s.limits ==> job.attempt >= s.limits[job.id.campaign])
  }

  /** A job completes only under the cluster's policy version, and fails only under another or with its last attempt. */
  predicate Fate(s: Sys, job: JobState, job': JobState) {
    && job'.policyVersion == job.policyVersion
    && (job'.status == Completed ==> job.status == Completed || job.policyVersion == s.policyVersion)
    && (job'.status == Failed ==>
          job.status == Failed || job.policyVersion != s.policyVersion || LastAttemptLost(s, job))
    && (job'.status == Cancelled ==> job.status == Cancelled)
  }

  lemma TurnFate(s: Sys, c: CampaignId, i: nat)
    requires Ready(s, c) && Plain(s) && i < |s.jobs| && s.jobs[i].id.campaign == c
    ensures Fate(s, s.jobs[i], Round(s, c).jobs[i]) && Round(s, c).jobs[i].status != Scheduled
  {
    hide Tracked, Schedule, Execute, StatusOk;
    var s1 := Schedule(s, c);
    var s2 := Execute(s1, c);
    RoundTurn(s, s1, s2, c);
    NothingScheduled(s, s1, s2, c);
    assert s2.jobs[i].id == s1.jobs[i].id == s.jobs[i].id;
    ScheduleStep(s, c);
    SteadyIsOrderly(s1);
    assert s.jobs[i] in s.jobs;
    ScheduleAlike(s, c);
    assert MayBeScheduled(s, c, i, s1.jobs[i]);
    if Closed(s1.campaigns[c]) {
      ClosedHasNoWork(s1, c);
      ClosedStops(s1, c);
    } else {
      ExecuteRuns(s1, c);
      RanFate(s, s1, s2, c, i);
    }
  }

  lemma ClosedStops(s: Sys, c: CampaignId)
    requires c in s.campaigns && Closed(s.campaigns[c])
    ensures Execute(s, c) == s
  {}

  lemma RanFate(s: Sys, s1: Sys, s2: Sys, c: CampaignId, i: nat)
    requires Plain(s) && i < |s.jobs| && |s.jobs| == |s1.jobs| == |s2.jobs| && s.jobs[i].inputs == []
    requires s1.nodes == s.nodes && s1.limits == s.limits
    requires MayBeScheduled(s, c, i, s1.jobs[i])
    requires if IsScheduled(s1, c, i) then Ran(s1, s2, c, 0, i) else s2.jobs[i] == s1.jobs[i]
    ensures Fate(s, s.jobs[i], s2.jobs[i])
  {
    hide Demand;
  }

  lemma FateTrans(s: Sys, s1: Sys, a: JobState, b: JobState, c: JobState)
    requires Fate(s, a, b) && Fate(s1, b, c) && s1.policyVersion == s.policyVersion && b.status != Scheduled
    ensures Fate(s, a, c)
  {}

  lemma {:induction false} RoundsFate(s: Sys, c: CampaignId, n: nat, i: nat)
    requires Ready(s, c) && Plain(s) && i < |s.jobs| && s.jobs[i].id.campaign == c
    ensures i < |Rounds(s, c, n).jobs| && Fate(s, s.jobs[i], Rounds(s, c, n).jobs[i])
    ensures n > 0 ==> Rounds(s, c, n).jobs[i].status != Scheduled
    ensures Rounds(s, c, n).jobs[i].id == s.jobs[i].id
    decreases n
  {
    hide Steady, Plain, Round, Fate;
    if n == 0 {
      assert Fate(s, s.jobs[i], s.jobs[i]) by { OwnFate(s, s.jobs[i]); }
    } else {
      var s1 := Round(s, c);
      TurnFate(s, c, i);
      RoundPlain(s, c);
      RoundStep(s, c);
      SameIds(s, s1, i);
      RoundsFate(s1, c, n - 1, i);
      if n > 1 { FateTrans(s, s1, s.jobs[i], s1.jobs[i], Rounds(s1, c, n - 1).jobs[i]); }
    }
  }

  lemma OwnFate(s: Sys, job: JobState)
    ensures Fate(s, job, job)
  {}

  lemma SameIds(s: Sys, s': Sys, i: nat)
    requires Evolves(s, s') && i < |s.jobs|
    ensures s'.jobs[i].id == s.jobs[i].id
  {
    assert JobEvolves(s.jobs[i], s'.jobs[i]);
  }

  /**
   * What `run_campaign` leaves of each job of the campaign: pending; or completed, if its policy version is the
   * cluster's; or failed, if it is not or its node was lost with the last attempt. The status of the campaign tells
   * which.
   */
  lemma RunFates(s: Sys, c: CampaignId, n: nat, s': Sys)
    requires Ready(s, c) && Plain(s) && RunResult(s, c, n, s')
    ensures |s'.jobs| == |s.jobs| && StatusTells(s', c)
    ensures forall i :: 0 <= i < |s.jobs| && s.jobs[i].id.campaign == c ==>
      Fate(s, s.jobs[i], s'.jobs[i]) && (s'.jobs[i].status == Pending || Done(s'.jobs[i].status))
  {
    hide Steady, Plain, Fate, StatusTells, Evolves, UpdateStatus, Round, EndsAfter;
    var last := Rounds(s, c, n);
    RunOutcome(s, c, n, s');
    RoundsPlain(s, c, n);
    RoundsSteady(s, c, n);
    UpdatedTells(Round(last, c), c);
    forall i | 0 <= i < |s.jobs| && s.jobs[i].id.campaign == c ensures Fate(s, s.jobs[i], s'.jobs[i]) {
      RoundsFate(s, c, n, i);
      TurnFate(last, c, i);
      UpdateSameJobs(Round(last, c), c);
      if n > 0 { FateTrans(s, last, s.jobs[i], last.jobs[i], s'.jobs[i]); }
    }
  }

  lemma UpdateSameJobs(s: Sys, c: CampaignId)
    ensures UpdateStatus(s, c).jobs == s.jobs
  {}

  /**
   * A campaign submitted to any reachable cluster and run: every job that finishes completes, if the campaign has
   * the cluster's policy version, and fails if it has another; and the campaign is completed, or failed, as soon as
   * none is left pending.
   */
  lemma SubmittedThenRun(policyVersion: string, threshold: int, ops: seq<Op>, c: CampaignId, candidates: int,
                         backends: seq<string>, jobPolicy: string, req: Requirements, maxAttempts: int, n: nat, s': Sys)
    requires c !in After(Empty(policyVersion, threshold), ops).campaigns && candidates >= 1 && maxAttempts >= 1
    requires var s := Submit(After(Empty(policyVersion, threshold), ops), c, candidates, backends, jobPolicy, req,
                             maxAttempts);
      c in s.campaigns && RunResult(s, c, n, s')
    ensures forall i :: 0 <= i < |s'.jobs| && s'.jobs[i].id.campaign == c ==>
      s'.jobs[i].status == Pending || s'.jobs[i].status == if jobPolicy == policyVersion then Completed else Failed
    ensures c in s'.campaigns && s'.campaigns[c] ==
      if PendingJobs(s', c) != {} then CampaignRunning
      else if jobPolicy == policyVersion then CampaignCompleted else CampaignFailed
  {
    hide Step, RunResult, StatusTells, Submit, Steady, After, Plain, Ran;
    var s0 := Empty(policyVersion, threshold);
    var before := After(s0, ops);
    var s := Submit(before, c, candidates, backends, jobPolicy, req, maxAttempts);
    StartSteady(policyVersion, threshold);
    RunSteady(s0, ops);
    RunPlain(s0, ops);
    SteadyIsTracked(before);
    SubmittedJobs(before, c, candidates, backends, jobPolicy, req, maxAttempts);
    SubmitSteady(before, c, candidates, backends, jobPolicy, req, maxAttempts);
    SubmitPlain(before, c, candidates, backends, jobPolicy, req, maxAttempts);
    RunFates(s, c, n, s');
    assert IsJobName(Verification, candidates, backends);
    var v :| 0 <= v < |s.jobs| && s.jobs[v].id == JobId(c, Verification);
    RunOutcome(s, c, n, s');
    assert s'.jobs[v].id == s.jobs[v].id;
    forall i | 0 <= i < |s'.jobs| && s'.jobs[i].id.campaign == c
      ensures s'.jobs[i].status == Pending
        || s'.jobs[i].status == if jobPolicy == policyVersion then Completed else Failed
    {
      assert s'.jobs[i].id == s.jobs[i].id;
      assert s.jobs[i].status == Pending && s.jobs[i].policyVersion == jobPolicy;
      assert Fate(s, s.jobs[i], s'.jobs[i]);
    }
    StatusOfFates(s', c, v, jobPolicy == policyVersion);
  }

  lemma StartSteady(policyVersion: string, threshold: int)
    ensures Steady(Empty(policyVersion, threshold)) && Plain(Empty(policyVersion, threshold))
  {}

  lemma SteadyIsTracked(s: Sys)
    requires Steady(s)
    ensures Tracked(s)
  {}

  lemma SteadyIsOrderly(s: Sys)
    requires Steady(s)
    ensures Orderly(s)
  {}

  lemma StatusOfFates(s: Sys, c: CampaignId, v: nat, good: bool)
    requires StatusTells(s, c) && v < |s.jobs| && s.jobs[v].id.campaign == c
    requires forall i :: 0 <= i < |s.jobs| && s.jobs[i].id.campaign == c ==>
      s.jobs[i].status == Pending || s.jobs[i].status == if good then Completed else Failed
    ensures s.campaigns[c] ==
      if PendingJobs(s, c) != {} then CampaignRunning else if good then CampaignCompleted else CampaignFailed
  {
    var mine := set i | 0 <= i < |s.jobs| && s.jobs[i].id.campaign == c;
    assert v in mine;
    if PendingJobs(s, c) != {} {
      var i :| i in PendingJobs(s, c);
      assert i in mine;
    } else {
      forall i | i in mine ensures s.jobs[i].status != Pending {
        assert s.jobs[i].status == Pending ==> i in PendingJobs(s, c);
      }
    }
  }
}
