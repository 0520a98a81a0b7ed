/**
 * What every operation of the cloud engine does to a job's and a campaign's history: attempts stay
 * bounded, terminal jobs and campaigns never change, and a campaign's status tells its jobs' status.
 */
module ClusterHistory {
  import opened Order
  import opened Cluster
  import opened ClusterSafety

  /** A campaign is completed iff all its jobs are, and failed iff all are terminal and one failed. */
  ghost predicate StatusOk(s: Sys, c: CampaignId)
    requires c in s.campaigns
  {
    && (s.campaigns[c] == CampaignCompleted <==> HasJobs(s.jobs, c) && AllCompleted(s.jobs, c))
    && (s.campaigns[c] == CampaignFailed <==> AllDone(s.jobs, c) && AnyFailed(s.jobs, c))
  }

  ghost predicate NoneRunning(s: Sys) {
    forall i :: 0 <= i < |s.jobs| ==> s.jobs[i].status != Running
  }

  ghost predicate Settled(s: Sys) {
    NoneRunning(s) && forall c :: c in s.campaigns ==> StatusOk(s, c)
  }

  /** What any operation keeps, whatever node is registered over another. */
  ghost predicate Orderly(s: Sys) {
    JobsOk(s) && Settled(s)
  }

  /** What any operation keeps, allocations included, even where nodes are over-committed. */
  ghost predicate Steady(s: Sys) {
    Tracked(s) && Settled(s)
  }

  /** What holds between any two operations that do not shrink a node below its allocations. */
  ghost predicate Boundary(s: Sys) {
    Consistent(s) && Settled(s)
  }

  /** Campaign `c` is the only one whose jobs or status may differ. */
  ghost predicate SameElsewhere(s: Sys, s': Sys, c: CampaignId) {
    && |s'.jobs| == |s.jobs|
    && (forall i :: 0 <= i < |s.jobs| ==>
        s'.jobs[i].id == s.jobs[i].id && s'.jobs[i].requirements == s.jobs[i].requirements)
    && (forall i :: 0 <= i < |s.jobs| && s.jobs[i].id.campaign != c ==> s'.jobs[i] == s.jobs[i])
    && (forall d :: d != c ==> (d in s.campaigns <==> d in s'.campaigns))
    && (forall d :: d != c && d in s.campaigns ==> s'.campaigns[d] == s.campaigns[d])
  }

  lemma SameElsewhereTrans(s: Sys, s1: Sys, s2: Sys, c: CampaignId)
    requires SameElsewhere(s, s1, c) && SameElsewhere(s1, s2, c)
    ensures SameElsewhere(s, s2, c)
  {
    forall i | 0 <= i < |s.jobs|
      ensures s2.jobs[i].id == s.jobs[i].id && s2.jobs[i].requirements == s.jobs[i].requirements
      ensures s.jobs[i].id.campaign != c ==> s2.jobs[i] == s.jobs[i]
    {
      assert s1.jobs[i].id == s.jobs[i].id;
    }
  }

  lemma SameElsewhereSym(s: Sys, s': Sys, c: CampaignId)
    requires SameElsewhere(s, s', c)
    ensures SameElsewhere(s', s, c)
  {
    forall i | 0 <= i < |s.jobs|
      ensures s.jobs[i].id == s'.jobs[i].id && s.jobs[i].requirements == s'.jobs[i].requirements
      ensures s'.jobs[i].id.campaign != c ==> s.jobs[i] == s'.jobs[i]
    {
      assert s'.jobs[i].id == s.jobs[i].id;
    }
  }

  // ---------------------------------------------------------------- a campaign's status tells its jobs' status

  lemma StatusFrame(s: Sys, s': Sys, d: CampaignId)
    requires d in s.campaigns && d in s'.campaigns && s'.campaigns[d] == s.campaigns[d]
    requires |s.jobs| <= |s'.jobs|
    requires forall i :: 0 <= i < |s.jobs| ==> s'.jobs[i].id == s.jobs[i].id
    requires forall i :: 0 <= i < |s.jobs| && s.jobs[i].id.campaign == d ==> s'.jobs[i] == s.jobs[i]
    requires forall i :: |s.jobs| <= i < |s'.jobs| ==> s'.jobs[i].id.campaign != d
    requires StatusOk(s, d)
    ensures StatusOk(s', d)
  {
    assert forall i :: 0 <= i < |s.jobs| && s'.jobs[i].id.campaign == d ==> s'.jobs[i] == s.jobs[i];
    if HasJobs(s.jobs, d) {
      var i :| 0 <= i < |s.jobs| && s.jobs[i].id.campaign == d;
      assert s'.jobs[i].id.campaign == d;
    }
    if AnyFailed(s.jobs, d) {
      var i :| 0 <= i < |s.jobs| && s.jobs[i].id.campaign == d && s.jobs[i].status == Failed;
      assert s'.jobs[i].status == Failed;
    }
  }

  lemma UpdateStatusOk(s: Sys, c: CampaignId)
    ensures StatusOk(UpdateStatus(s, c), c)
  {
    if AnyFailed(s.jobs, c) {
      var i :| 0 <= i < |s.jobs| && s.jobs[i].id.campaign == c && s.jobs[i].status == Failed;
      assert HasJobs(s.jobs, c) && !AllCompleted(s.jobs, c);
    }
  }

  lemma ElsewhereOk(s: Sys, s': Sys, c: CampaignId)
    requires SameElsewhere(s, s', c)
    requires forall d :: d in s.campaigns ==> StatusOk(s, d)
    requires c in s'.campaigns ==> StatusOk(s', c)
    ensures forall d :: d in s'.campaigns ==> StatusOk(s', d)
  {
    forall d | d in s'.campaigns ensures StatusOk(s', d) {
      if d != c {
        forall i | 0 <= i < |s.jobs| ensures s'.jobs[i].id == s.jobs[i].id {}
        StatusFrame(s, s', d);
      }
    }
  }

  // ---------------------------------------------------------------- what never goes back

  /** A job keeps its identity and never loses attempts; once terminal its record is final. */
  ghost predicate JobEvolves(job: JobState, job': JobState) {
    && job'.id == job.id && job'.requirements == job.requirements && job'.policyVersion == job.policyVersion
    && job.attempt <= job'.attempt
    && (Done(job.status) ==> job' == job)
  }

  ghost predicate Evolves(s: Sys, s': Sys) {
    && |s.jobs| <= |s'.jobs|
    && (forall i :: 0 <= i < |s.jobs| ==> JobEvolves(s.jobs[i], s'.jobs[i]))
    && (forall i :: |s.jobs| <= i < |s'.jobs| ==> s'.jobs[i].id.campaign !in s.campaigns)
    && s.campaigns.Keys <= s'.campaigns.Keys
    && (forall c :: c in s.campaigns && c in s.limits ==> c in s'.limits && s'.limits[c] == s.limits[c])
  }

  lemma EvolvesTrans(s: Sys, s1: Sys, s2: Sys)
    requires Evolves(s, s1) && Evolves(s1, s2)
    ensures Evolves(s, s2)
  {
    forall i | 0 <= i < |s.jobs| ensures JobEvolves(s.jobs[i], s2.jobs[i]) {
      assert JobEvolves(s.jobs[i], s1.jobs[i]) && JobEvolves(s1.jobs[i], s2.jobs[i]);
    }
    forall i | |s.jobs| <= i < |s2.jobs| ensures s2.jobs[i].id.campaign !in s.campaigns {
      if i < |s1.jobs| { assert JobEvolves(s1.jobs[i], s2.jobs[i]); }
    }
  }

  /** A closed campaign stays as it is, whatever the operations in between, and so do its jobs. */
  lemma ClosedForever(s: Sys, s': Sys, c: CampaignId)
    requires Settled(s) && Settled(s') && Evolves(s, s')
    requires c in s.campaigns && Closed(s.campaigns[c])
    ensures s'.campaigns[c] == s.campaigns[c]
    ensures forall i :: 0 <= i < |s'.jobs| && s'.jobs[i].id.campaign == c ==> i < |s.jobs| && s'.jobs[i] == s.jobs[i]
  {
    assert StatusOk(s, c) && StatusOk(s', c);
    forall i | 0 <= i < |s'.jobs| && s'.jobs[i].id.campaign == c
      ensures i < |s.jobs| && s'.jobs[i] == s.jobs[i]
    {
      if i < |s.jobs| { assert JobEvolves(s.jobs[i], s'.jobs[i]); }
    }
    if HasJobs(s.jobs, c) {
      var i :| 0 <= i < |s.jobs| && s.jobs[i].id.campaign == c;
      assert JobEvolves(s.jobs[i], s'.jobs[i]);
    }
    if AnyFailed(s.jobs, c) {
      var i :| 0 <= i < |s.jobs| && s.jobs[i].id.campaign == c && s.jobs[i].status == Failed;
      assert JobEvolves(s.jobs[i], s'.jobs[i]);
      assert AnyFailed(s'.jobs, c);
      assert AllDone(s'.jobs, c);
    }
  }

  // ---------------------------------------------------------------- node failure

  lemma SettleShape(s: Sys, i: nat, outcome: Outcome)
    requires JobsOk(s) && i < |s.jobs|
    ensures var s' := Settle(s, i, outcome);
      && s' == s.(allocations := s'.allocations, jobs := s'.jobs, campaigns := s'.campaigns, artifacts := s'.artifacts)
      && s'.jobs == s.jobs[i := s'.jobs[i]]
      && SameElsewhere(s, s', s.jobs[i].id.campaign)
      && s'.jobs[i].status in {Completed, Failed, Pending}
      && (!Done(s.jobs[i].status) ==> JobEvolves(s.jobs[i], s'.jobs[i]))
      && JobsOk(s')
  {
    assert JobOk(s, s.jobs[i]);
    var c := s.jobs[i].id.campaign;
    assert s.limits[c := Limit(s, c)] == s.limits;
    var s' := Settle(s, i, outcome);
    forall k | 0 <= k < |s'.jobs| ensures JobOk(s', s'.jobs[k]) {
      assert JobOk(s, s.jobs[k]);
    }
  }

  lemma FailOneStep(s: Sys, n: string, i: nat)
    requires Orderly(s) && i < |s.jobs|
    ensures Orderly(FailOne(s, n, i)) && Evolves(s, FailOne(s, n, i))
  {
    var s' := FailOne(s, n, i);
    if s.jobs[i].node == Some(n) && Holds(s.jobs[i]) {
      var c := s.jobs[i].id.campaign;
      SettleShape(s, i, Transient);
      UpdateStatusOk(s', c);
      assert s'.campaigns[c] == StatusOf(s'.jobs, c);
      assert JobOk(s, s.jobs[i]);
      assert StatusOk(s', c);
      ElsewhereOk(s, s', c);
    }
  }

  lemma {:induction false} FailPassStep(s: Sys, n: string, i: nat)
    requires Orderly(s) && i <= |s.jobs|
    ensures Orderly(FailPass(s, n, i)) && Evolves(s, FailPass(s, n, i))
    decreases |s.jobs| - i
  {
    if i < |s.jobs| {
      FailOneStep(s, n, i);
      FailPassStep(FailOne(s, n, i), n, i + 1);
      EvolvesTrans(s, FailOne(s, n, i), FailPass(s, n, i));
    }
  }

  /** What losing node `n` does to one job: a job that held it goes back for another attempt or fails. */
  function AfterLoss(s: Sys, n: string, job: JobState): JobState {
    if job.node == Some(n) && Holds(job) then Retry(job, Limit(s, job.id.campaign)) else job
  }

  lemma {:induction false} FailPassFrame(s: Sys, n: string, i: nat)
    requires i <= |s.jobs|
    ensures var s' := FailPass(s, n, i);
      && s'.nodes == s.nodes && |s'.jobs| == |s.jobs| && (forall c :: Limit(s', c) == Limit(s, c))
      && forall k :: 0 <= k < |s.jobs| ==> s'.jobs[k] == if k < i then s.jobs[k] else AfterLoss(s, n, s.jobs[k])
    decreases |s.jobs| - i
  {
    hide FailOne, AfterLoss, Limit;
    if i < |s.jobs| {
      var s1 := FailOne(s, n, i);
      FailOneFrame(s, n, i);
      FailPassFrame(s1, n, i + 1);
      forall k | 0 <= k < |s.jobs| ensures AfterLoss(s1, n, s.jobs[k]) == AfterLoss(s, n, s.jobs[k]) {
        SameLoss(s, s1, n, s.jobs[k]);
      }
    }
  }

  lemma FailOneFrame(s: Sys, n: string, i: nat)
    requires i < |s.jobs|
    ensures var s' := FailOne(s, n, i);
      && s'.nodes == s.nodes && (forall c :: Limit(s', c) == Limit(s, c))
      && s'.jobs == s.jobs[i := AfterLoss(s, n, s.jobs[i])]
  {
    hide StatusOf, Release;
  }

  lemma SameLoss(s: Sys, s': Sys, n: string, job: JobState)
    requires forall c :: Limit(s', c) == Limit(s, c)
    ensures AfterLoss(s', n, job) == AfterLoss(s, n, job)
  {}

  /** Operations that only touch nodes. */
  lemma NodesOnly(s: Sys, s': Sys)
    requires Orderly(s) && JobsOk(s') && s' == s.(nodes := s'.nodes)
    ensures Orderly(s') && Evolves(s, s')
  {
    forall c | c in s'.campaigns ensures StatusOk(s', c) {
      assert StatusOk(s, c);
    }
  }

  lemma MoreNodes(s: Sys, s': Sys)
    requires JobsOk(s) && s' == s.(nodes := s'.nodes) && s.nodes.Keys <= s'.nodes.Keys
    ensures JobsOk(s')
  {
    forall i | 0 <= i < |s.jobs| ensures JobOk(s', s'.jobs[i]) {
      assert JobOk(s, s.jobs[i]);
    }
  }

  lemma FailNodeOrderly(s: Sys, n: string)
    requires Orderly(s) && n in s.nodes
    ensures Orderly(FailNode(s, n)) && Evolves(s, FailNode(s, n))
  {
    hide StatusOk, FailPass;
    MoreNodes(s, MarkDown(s, n));
    NodesOnly(s, MarkDown(s, n));
    FailPassStep(MarkDown(s, n), n, 0);
    EvolvesTrans(s, MarkDown(s, n), FailNode(s, n));
  }

  /**
   * Losing a node keeps the invariant, over-committed or not. A job that held the node goes back for another
   * attempt or fails, every other job is as it was, and afterwards no job holds the node.
   */
  lemma FailNodeStep(s: Sys, n: string)
    requires Steady(s) && n in s.nodes
    ensures var s' := FailNode(s, n);
      && Steady(s') && (Consistent(s) ==> Consistent(s')) && Evolves(s, s')
      && (forall k :: 0 <= k < |s.jobs| ==> s'.jobs[k] == AfterLoss(s, n, s.jobs[k]))
      && (forall k :: 0 <= k < |s'.jobs| && Holds(s'.jobs[k]) ==> s'.jobs[k].node != Some(n))
      && s'.nodes == MarkDown(s, n).nodes
  {
    FailNodeOrderly(s, n);
    MarkKeeps(s, MarkDown(s, n));
    FailPassKeeps(MarkDown(s, n), n, 0);
    FailPassFrame(MarkDown(s, n), n, 0);
    hide StatusOk, FailPass, Tracked, WithinCapacity;
    forall c ensures Limit(MarkDown(s, n), c) == Limit(s, c) {}
  }

  lemma DropStaleStep(s: Sys, late: set<string>)
    requires Orderly(s)
    ensures Orderly(DropStale(s, late)) && Evolves(s, DropStale(s, late))
  {
    MoreNodes(s, DropStale(s, late));
    NodesOnly(s, DropStale(s, late));
  }

  // ---------------------------------------------------------------- submission

  /** Adding fresh pending jobs for a new campaign. */
  lemma {:induction false} AddJobsShape(s: Sys, c: CampaignId, names: seq<JobName>, req: Requirements,
                                        policyVersion: string)
    ensures var s' := AddJobs(s, c, names, req, policyVersion);
      && s' == s.(jobs := s'.jobs)
      && |s.jobs| <= |s'.jobs|
      && (forall i :: 0 <= i < |s.jobs| ==> s'.jobs[i] == s.jobs[i])
      && (forall i :: |s.jobs| <= i < |s'.jobs| ==>
          s'.jobs[i].id.campaign == c && s'.jobs[i].status == Pending && s'.jobs[i].attempt == 0
            && s'.jobs[i].requirements == req)
      && (forall k :: 0 <= k < |names| ==> Known(s'.jobs, JobId(c, names[k])))
    decreases |names|
  {
    if names != [] {
      var s1 := AddJob(s, JobId(c, names[0]), req, policyVersion);
      var s' := AddJobs(s, c, names, req, policyVersion);
      AddJobsShape(s1, c, names[1..], req, policyVersion);
      assert Known(s1.jobs, JobId(c, names[0])) by {
        if s1 != s { assert s1.jobs[|s.jobs|].id == JobId(c, names[0]); }
      }
      var k :| 0 <= k < |s1.jobs| && s1.jobs[k].id == JobId(c, names[0]);
      assert s'.jobs[k].id == JobId(c, names[0]);
      forall j | 0 <= j < |names| ensures Known(s'.jobs, JobId(c, names[j])) {
        if j > 0 { assert names[j] == names[1..][j - 1]; }
      }
    }
  }

  lemma SubmitStep(s: Sys, c: CampaignId, candidates: int, backends: seq<string>, policyVersion: string,
                   req: Requirements, maxAttempts: int)
    requires Orderly(s)
    ensures var s' := Submit(s, c, candidates, backends, policyVersion, req, maxAttempts);
      Orderly(s') && Evolves(s, s')
  {
    var s' := Submit(s, c, candidates, backends, policyVersion, req, maxAttempts);
    if c !in s.campaigns && candidates >= 1 {
      var stored := s.(campaigns := s.campaigns[c := CampaignPending]);
      StoredOrderly(s, stored, c);
      if maxAttempts >= 1 {
        var planned := stored.(limits := s.limits[c := maxAttempts]);
        var names := JobNames(candidates, backends);
        AddJobsShape(planned, c, names, req, policyVersion);
        NewCampaign(s, s', c);
        assert names[|names| - 1] == Verification;
        assert Known(s'.jobs, JobId(c, names[|names| - 1]));
        var v :| 0 <= v < |s'.jobs| && s'.jobs[v].id == JobId(c, Verification);
        NewStatuses(s, s', c, v);
      }
    }
  }

  /** A stored campaign without jobs is pending, as its lack of jobs demands. */
  lemma StoredOrderly(s: Sys, s': Sys, c: CampaignId)
    requires Orderly(s) && c !in s.campaigns && s' == s.(campaigns := s.campaigns[c := CampaignPending])
    ensures Orderly(s') && Evolves(s, s')
  {
    forall i | 0 <= i < |s'.jobs| ensures JobOk(s', s'.jobs[i]) && s'.jobs[i].id.campaign != c {
      assert JobOk(s, s.jobs[i]);
    }
    forall d | d in s'.campaigns ensures StatusOk(s', d) {
      if d != c { StatusFrame(s, s', d); }
    }
  }

  /** Jobs of a new campaign were added, all pending. */
  ghost predicate Extended(s: Sys, s': Sys, c: CampaignId) {
    && |s.jobs| <= |s'.jobs| && s'.nodes == s.nodes
    && (forall i :: 0 <= i < |s.jobs| ==> s'.jobs[i] == s.jobs[i])
    && (forall i :: |s.jobs| <= i < |s'.jobs| ==>
        s'.jobs[i].id.campaign == c && s'.jobs[i].status == Pending && s'.jobs[i].attempt == 0)
    && c !in s.campaigns && s'.campaigns == s.campaigns[c := CampaignPending]
    && c in s'.limits
    && forall d :: d != c ==>
      (d in s.limits <==> d in s'.limits) && (d in s.limits ==> s'.limits[d] == s.limits[d])
  }

  lemma NewCampaign(s: Sys, s': Sys, c: CampaignId)
    requires JobsOk(s) && Extended(s, s', c)
    ensures JobsOk(s') && Evolves(s, s') && forall i :: 0 <= i < |s.jobs| ==> s.jobs[i].id.campaign != c
  {
    forall i | 0 <= i < |s.jobs| ensures s.jobs[i].id.campaign != c {
      assert JobOk(s, s.jobs[i]);
    }
    forall i | 0 <= i < |s'.jobs| ensures JobOk(s', s'.jobs[i]) {
      if i < |s.jobs| { assert JobOk(s, s.jobs[i]); }
    }
  }

  lemma NewStatuses(s: Sys, s': Sys, c: CampaignId, v: nat)
    requires Settled(s) && Extended(s, s', c) && forall i :: 0 <= i < |s.jobs| ==> s.jobs[i].id.campaign != c
    requires v < |s'.jobs| && s'.jobs[v].id.campaign == c
    ensures Settled(s')
  {
    assert s'.jobs[v].status == Pending && !AllCompleted(s'.jobs, c) && !AllDone(s'.jobs, c);
    forall d | d in s'.campaigns ensures StatusOk(s', d) {
      if d != c { StatusFrame(s, s', d); }
    }
  }
}
