/**
 * `run_campaign`: what one turn of its `while progress` loop does, exactly when the loop ends,
 * and what holds when it does.
 */
module CampaignRuns {
  import opened Order
  import opened Cluster
  import opened ClusterSafety
  import opened ClusterHistory

  // ---------------------------------------------------------------- one turn of the loop

  ghost function Round(s: Sys, c: CampaignId): (r: Sys)
    requires c in s.campaigns
    ensures c in r.campaigns && |r.jobs| == |s.jobs| && r.threshold == s.threshold
  {
    var executed := Execute(Schedule(s, c), c);
    Autoscale(executed, |PendingJobs(executed, c)|)
  }

  ghost predicate Progress(s: Sys, c: CampaignId)
    requires c in s.campaigns
  {
    var scheduled := Schedule(s, c);
    var executed := Execute(scheduled, c);
    || scheduled.jobs != s.jobs
    || (!Closed(scheduled.campaigns[c]) && HasScheduled(scheduled, c))
    || |PendingJobs(executed, c)| > s.threshold
  }

  ghost predicate Ready(s: Sys, c: CampaignId) {
    Steady(s) && c in s.campaigns
  }

  // ---------------------------------------------------------------- names autoscaling uses

  /** The name that autoscaling hands out next, whether or not a node has it already. */
  function NextName(s: Sys): string { AutoId(|s.nodes| + 1) }

  /** No node carries a name that autoscaling has yet to hand out. */
  ghost predicate AutoFresh(s: Sys) {
    forall k: nat :: k > |s.nodes| ==> AutoId(k) !in s.nodes
  }

  /** The first taken name that autoscaling comes to; it never gets past it, since no node is added then. */
  ghost predicate FirstTaken(s: Sys, k: nat) {
    k > |s.nodes| && AutoId(k) in s.nodes && forall j: nat :: |s.nodes| < j < k ==> AutoId(j) !in s.nodes
  }

  /** Autoscaling may replace this node by a different one. */
  ghost predicate Threatened(s: Sys, n: string) {
    n in s.nodes && s.nodes[n] != AutoNode(s) && exists k: nat :: FirstTaken(s, k) && n == AutoId(k)
  }

  // ---------------------------------------------------------------- blocked jobs

  /** What is left of a capacity; an over-committed node has nothing left. */
  function Left(capacity: nat, used: nat): nat { if used <= capacity then capacity - used else 0 }

  /** `node`, under the name `n`, fits `req` once campaign `c` holds nothing. */
  predicate NodeFits(s: Sys, c: CampaignId, n: string, node: Node, req: Requirements) {
    && Admits(node, req)
    && req.cpu <= Left(node.cpuCapacity, Demand(s.jobs, n, Cpu, Some(c)))
    && req.memoryMb <= Left(node.memoryMbCapacity, Demand(s.jobs, n, Memory, Some(c)))
  }

  predicate IdleFits(s: Sys, c: CampaignId, n: string, req: Requirements) {
    n in s.nodes && NodeFits(s, c, n, s.nodes[n], req)
  }

  /** Autoscaling now would give `req` a node once campaign `c` holds nothing. */
  predicate AutoHelps(s: Sys, c: CampaignId, req: Requirements) {
    NodeFits(s, c, NextName(s), AutoNode(s), req)
  }

  /** An empty autoscaled node takes `req`. */
  predicate AutoFits(s: Sys, req: Requirements) {
    Admits(AutoNode(s), req) && req.cpu <= AUTO_CPU && req.memoryMb <= AUTO_MEMORY
  }

  ghost predicate Placeable(s: Sys, c: CampaignId, req: Requirements) {
    AutoHelps(s, c, req) || exists n :: IdleFits(s, c, n, req)
  }

  /** Placeable, and autoscaling cannot change that. */
  ghost predicate SafelyPlaceable(s: Sys, c: CampaignId, req: Requirements) {
    AutoHelps(s, c, req) || exists n :: IdleFits(s, c, n, req) && !Threatened(s, n)
  }

  /** Pending now, or about to be put back because the job sits on a node that is not active. */
  predicate WillPend(s: Sys, c: CampaignId, i: nat) {
    || IsPending(s, c, i)
    || (IsScheduled(s, c, i) && NodeDown(s.nodes, s.jobs[i]) && s.jobs[i].attempt < Limit(s, c))
  }

  /** The jobs of the campaign that neither an existing node nor the next autoscaled one can take. */
  ghost function Blocked(s: Sys, c: CampaignId): set<int> {
    set i | 0 <= i < |s.jobs| && WillPend(s, c, i) && !Placeable(s, c, s.jobs[i].requirements)
  }

  /** Those, and the jobs that only a node which autoscaling may replace can take. */
  ghost function Doubtful(s: Sys, c: CampaignId): set<int> {
    set i | 0 <= i < |s.jobs| && WillPend(s, c, i) && !SafelyPlaceable(s, c, s.jobs[i].requirements)
  }

  /** Without a threatened node the two are the same. */
  lemma NothingDoubtful(s: Sys, c: CampaignId)
    requires forall n :: !Threatened(s, n)
    ensures Doubtful(s, c) == Blocked(s, c)
  {
    forall req ensures SafelyPlaceable(s, c, req) <==> Placeable(s, c, req) {}
  }

  lemma FitsIsIdleFits(s: Sys, c: CampaignId, n: string, req: Requirements)
    requires Tracked(s) && Fits(s, n, req)
    ensures IdleFits(s, c, n, req)
  {
    UsedIsDemand(s, n, Cpu);
    UsedIsDemand(s, n, Memory);
    DemandSkip(s.jobs, n, Cpu, Some(c));
    DemandSkip(s.jobs, n, Memory, Some(c));
  }

  ghost predicate HoldsNothing(s: Sys, c: CampaignId) {
    forall i :: 0 <= i < |s.jobs| && Holds(s.jobs[i]) ==> s.jobs[i].id.campaign != c
  }

  lemma IdleFitsIsFits(s: Sys, c: CampaignId, n: string, req: Requirements)
    requires Tracked(s) && HoldsNothing(s, c) && IdleFits(s, c, n, req)
    ensures Fits(s, n, req)
  {
    UsedIsDemand(s, n, Cpu);
    UsedIsDemand(s, n, Memory);
    DemandSkip(s.jobs, n, Cpu, Some(c));
    DemandSkip(s.jobs, n, Memory, Some(c));
  }

  /** Other campaigns' demand does not see what `c`'s jobs do. */
  lemma NodeFitsFrame(s: Sys, s': Sys, c: CampaignId, n: string, node: Node, req: Requirements)
    requires SameElsewhere(s, s', c)
    ensures NodeFits(s, c, n, node, req) <==> NodeFits(s', c, n, node, req)
  {
    forall r: Resource ensures Demand(s.jobs, n, r, Some(c)) == Demand(s'.jobs, n, r, Some(c)) {
      forall i | 0 <= i < |s.jobs|
        ensures Contribution(s.jobs[i], n, r, Some(c)) == Contribution(s'.jobs[i], n, r, Some(c))
      {
        assert s'.jobs[i].id == s.jobs[i].id;
      }
      DemandPointwise(s.jobs, s'.jobs, n, r, Some(c));
    }
  }

  lemma IdleFitsFrame(s: Sys, s': Sys, c: CampaignId, n: string, req: Requirements)
    requires SameElsewhere(s, s', c)
    requires n in s.nodes ==> n in s'.nodes && s'.nodes[n] == s.nodes[n]
    ensures IdleFits(s, c, n, req) ==> IdleFits(s', c, n, req)
  {
    if n in s.nodes { NodeFitsFrame(s, s', c, n, s.nodes[n], req); }
  }

  // ---------------------------------------------------------------- what a scheduling pass does

  /** What scheduling may do to one job: nothing, or put it on a node that had room. */
  ghost predicate MayBeScheduled(s: Sys, c: CampaignId, i: nat, job: JobState)
    requires i < |s.jobs|
  {
    || job == s.jobs[i]
    || (IsPending(s, c, i) && job.node.Some? && IdleFits(s, c, job.node.value, s.jobs[i].requirements)
        && job == s.jobs[i].(status := Scheduled, node := job.node))
  }

  lemma ScheduleOneShape(s: Sys, c: CampaignId, i: nat)
    requires Tracked(s) && i < |s.jobs|
    ensures SameElsewhere(s, ScheduleOne(s, c, i), c)
    ensures MayBeScheduled(s, c, i, ScheduleOne(s, c, i).jobs[i])
    ensures forall k :: 0 <= k < |s.jobs| && k != i ==> ScheduleOne(s, c, i).jobs[k] == s.jobs[k]
    ensures ScheduleOne(s, c, i).jobs[i] == s.jobs[i] ==> ScheduleOne(s, c, i) == s
    ensures ScheduleOne(s, c, i).jobs[i] == s.jobs[i] && IsPending(s, c, i)
            ==> forall n :: !Fits(s, n, s.jobs[i].requirements)
  {
    if IsPending(s, c, i) {
      var place := Place(s, s.jobs[i].requirements);
      if place.Some? { FitsIsIdleFits(s, c, place.value, s.jobs[i].requirements); }
    }
  }

  lemma {:induction false} SchedulePassFrame(s: Sys, c: CampaignId, i: nat)
    requires Tracked(s) && i <= |s.jobs|
    ensures SameElsewhere(s, SchedulePass(s, c, i), c)
    ensures forall k :: 0 <= k < i ==> SchedulePass(s, c, i).jobs[k] == s.jobs[k]
    decreases |s.jobs| - i
  {
    if i < |s.jobs| {
      ScheduleOneShape(s, c, i);
      ScheduleOneKeeps(s, c, i);
      SchedulePassFrame(ScheduleOne(s, c, i), c, i + 1);
      SameElsewhereTrans(s, ScheduleOne(s, c, i), SchedulePass(s, c, i), c);
    }
  }

  lemma {:induction false} SchedulePassShape(s: Sys, c: CampaignId, i: nat, k: nat)
    requires Tracked(s) && i <= |s.jobs| && k < |s.jobs|
    ensures MayBeScheduled(s, c, k, SchedulePass(s, c, i).jobs[k])
    decreases |s.jobs| - i
  {
    if i < |s.jobs| {
      var s1, s' := ScheduleOne(s, c, i), SchedulePass(s, c, i);
      ScheduleOneKeeps(s, c, i);
      ScheduleOneShape(s, c, i);
      SchedulePassFrame(s1, c, i + 1);
      if k > i {
        SchedulePassShape(s1, c, i + 1, k);
        if s'.jobs[k] != s.jobs[k] {
          SameElsewhereSym(s, s1, c);
          IdleFitsFrame(s1, s, c, s'.jobs[k].node.value, s.jobs[k].requirements);
        }
      }
    }
  }

  /** A pass that schedules nothing leaves everything as it was, and then no pending job fits any node. */
  lemma {:induction false} IdlePass(s: Sys, c: CampaignId, i: nat)
    requires Tracked(s) && i <= |s.jobs| && SchedulePass(s, c, i).jobs == s.jobs
    ensures SchedulePass(s, c, i) == s
    ensures forall k, n :: i <= k < |s.jobs| && IsPending(s, c, k) ==> !Fits(s, n, s.jobs[k].requirements)
    decreases |s.jobs| - i
  {
    if i < |s.jobs| {
      ScheduleOneKeeps(s, c, i);
      ScheduleOneShape(s, c, i);
      SchedulePassFrame(ScheduleOne(s, c, i), c, i + 1);
      assert ScheduleOne(s, c, i).jobs[i] == s.jobs[i];
      IdlePass(s, c, i + 1);
    }
  }

  // ---------------------------------------------------------------- what an execution pass does

  /** What executing does to one job: put back or failed if its node is down, terminal otherwise. */
  ghost predicate Executed(s: Sys, c: CampaignId, i: nat, job: JobState)
    requires i < |s.jobs|
  {
    if !IsScheduled(s, c, i) then job == s.jobs[i]
    else if NodeDown(s.nodes, s.jobs[i]) then job == Retry(s.jobs[i], Limit(s, c))
    else job == s.jobs[i].(status := Completed) || job == s.jobs[i].(status := Failed)
  }

  lemma ExecuteOneShape(s: Sys, c: CampaignId, i: nat)
    requires JobsOk(s) && i < |s.jobs|
    ensures var s' := ExecuteOne(s, c, i);
      && s' == s.(allocations := s'.allocations, jobs := s'.jobs, campaigns := s'.campaigns, artifacts := s'.artifacts)
      && SameElsewhere(s, s', c)
      && Executed(s, c, i, s'.jobs[i])
      && (forall k :: 0 <= k < |s.jobs| && k != i ==> s'.jobs[k] == s.jobs[k])
  {
    if IsScheduled(s, c, i) { SettleShape(s, i, Execution(s, s.jobs[i])); }
  }

  lemma {:induction false} ExecutePassFrame(s: Sys, c: CampaignId, i: nat)
    requires JobsOk(s) && i <= |s.jobs|
    ensures var s' := ExecutePass(s, c, i);
      && s' == s.(allocations := s'.allocations, jobs := s'.jobs, campaigns := s'.campaigns, artifacts := s'.artifacts)
      && SameElsewhere(s, s', c)
      && (forall k :: 0 <= k < i ==> s'.jobs[k] == s.jobs[k])
      && JobsOk(s')
    decreases |s.jobs| - i
  {
    if i < |s.jobs| {
      ExecuteOneShape(s, c, i);
      if IsScheduled(s, c, i) { SettleShape(s, i, Execution(s, s.jobs[i])); }
      ExecutePassFrame(ExecuteOne(s, c, i), c, i + 1);
      SameElsewhereTrans(s, ExecuteOne(s, c, i), ExecutePass(s, c, i), c);
    }
  }

  lemma {:induction false} ExecutePassShape(s: Sys, c: CampaignId, i: nat, k: nat)
    requires JobsOk(s) && i <= k < |s.jobs|
    ensures Executed(s, c, k, ExecutePass(s, c, i).jobs[k])
    decreases k - i
  {
    ExecuteOneShape(s, c, i);
    if IsScheduled(s, c, i) { SettleShape(s, i, Execution(s, s.jobs[i])); }
    ExecutePassFrame(ExecuteOne(s, c, i), c, i + 1);
    if i < k { ExecutePassShape(ExecuteOne(s, c, i), c, i + 1, k); }
  }

  // ---------------------------------------------------------------- scheduling and executing between boundaries

  lemma CampaignsOnly(s: Sys, s': Sys)
    requires Tracked(s) && s' == s.(campaigns := s'.campaigns) && s.campaigns.Keys <= s'.campaigns.Keys
    ensures Tracked(s') && (Consistent(s) ==> Consistent(s'))
  {
    MoreCampaigns(s, s');
  }

  ghost predicate SameCluster(s: Sys, s': Sys) {
    && s'.nodes == s.nodes && s'.limits == s.limits
    && s'.threshold == s.threshold && s'.policyVersion == s.policyVersion
    && s.campaigns.Keys <= s'.campaigns.Keys
  }

  /** Some pending jobs of `c` were put on nodes that had room; nothing else happened to any job. */
  ghost predicate ScheduledFrom(s: Sys, s1: Sys, c: CampaignId) {
    && SameCluster(s, s1) && SameElsewhere(s, s1, c)
    && forall k :: 0 <= k < |s.jobs| ==> MayBeScheduled(s, c, k, s1.jobs[k])
  }

  /** Every scheduled job of `c` was executed. */
  ghost predicate ExecutedFrom(s: Sys, s1: Sys, c: CampaignId) {
    && SameCluster(s, s1) && SameElsewhere(s, s1, c)
    && forall k :: 0 <= k < |s.jobs| ==> Executed(s, c, k, s1.jobs[k])
  }

  lemma SchedulePassFrom(s: Sys, s1: Sys, c: CampaignId)
    requires Tracked(s) && s1 == SchedulePass(s, c, 0)
    ensures ScheduledFrom(s, s1, c)
  {
    SchedulePassFrame(s, c, 0);
    forall k | 0 <= k < |s.jobs| ensures MayBeScheduled(s, c, k, s1.jobs[k]) {
      SchedulePassShape(s, c, 0, k);
    }
  }

  lemma ExecutePassFrom(s: Sys, s1: Sys, c: CampaignId)
    requires JobsOk(s) && s1 == ExecutePass(s, c, 0)
    ensures ExecutedFrom(s, s1, c)
  {
    ExecutePassFrame(s, c, 0);
    forall k | 0 <= k < |s.jobs| ensures Executed(s, c, k, s1.jobs[k]) {
      ExecutePassShape(s, c, 0, k);
    }
  }

  lemma ClosedHasNoWork(s: Sys, c: CampaignId)
    requires Settled(s) && c in s.campaigns && Closed(s.campaigns[c])
    ensures forall i :: 0 <= i < |s.jobs| && s.jobs[i].id.campaign == c ==> Done(s.jobs[i].status)
  {
    assert StatusOk(s, c);
  }

  lemma ScheduleFrom(s: Sys, s1: Sys, c: CampaignId)
    requires Tracked(s) && c in s.campaigns && s1 == Schedule(s, c)
    ensures ScheduledFrom(s, s1, c)
  {
    if !Closed(s.campaigns[c]) {
      SchedulePassFrom(s, SchedulePass(s, c, 0), c);
    }
  }

  lemma ExecuteFrom(s: Sys, s1: Sys, c: CampaignId)
    requires Orderly(s) && c in s.campaigns && s1 == Execute(s, c)
    ensures ExecutedFrom(s, s1, c)
  {
    if Closed(s.campaigns[c]) {
      ClosedHasNoWork(s, c);
    } else {
      ExecutePassFrom(s, ExecutePass(s, c, 0), c);
    }
  }

  lemma StatusAfterScheduling(s: Sys, s1: Sys, c: CampaignId)
    requires c in s.campaigns && StatusOk(s, c) && ScheduledFrom(s, s1, c)
    requires s1.campaigns[c] == s.campaigns[c]
          || (s1.jobs != s.jobs && s.campaigns[c] == CampaignPending && s1.campaigns[c] == CampaignRunning)
    ensures StatusOk(s1, c)
  {
    hide IdleFits;
    if s1.jobs != s.jobs {
      var k :| 0 <= k < |s.jobs| && s1.jobs[k] != s.jobs[k];
      assert MayBeScheduled(s, c, k, s1.jobs[k]);
      assert s1.jobs[k].id.campaign == c && s1.jobs[k].status == Scheduled;
      assert s.jobs[k].id.campaign == c && s.jobs[k].status == Pending;
      assert !AllCompleted(s1.jobs, c) && !AllDone(s1.jobs, c);
    }
  }

  lemma SettledAfterScheduling(s: Sys, s1: Sys, c: CampaignId)
    requires Settled(s) && c in s.campaigns && ScheduledFrom(s, s1, c)
    requires s1.campaigns[c] == s.campaigns[c]
          || (s1.jobs != s.jobs && s.campaigns[c] == CampaignPending && s1.campaigns[c] == CampaignRunning)
    ensures Settled(s1) && Evolves(s, s1)
  {
    hide IdleFits, StatusOk;
    forall k | 0 <= k < |s.jobs| ensures JobEvolves(s.jobs[k], s1.jobs[k]) && s1.jobs[k].status != Running {
      assert MayBeScheduled(s, c, k, s1.jobs[k]);
    }
    StatusAfterScheduling(s, s1, c);
    ElsewhereOk(s, s1, c);
  }

  lemma ScheduleKeeps(s: Sys, c: CampaignId)
    requires Tracked(s) && c in s.campaigns
    ensures Tracked(Schedule(s, c)) && (Consistent(s) ==> Consistent(Schedule(s, c)))
  {
    if !Closed(s.campaigns[c]) {
      SchedulePassKeeps(s, c, 0);
      CampaignsOnly(SchedulePass(s, c, 0), Schedule(s, c));
    }
  }

  lemma ScheduleStep(s: Sys, c: CampaignId)
    requires Steady(s) && c in s.campaigns
    ensures Steady(Schedule(s, c)) && Evolves(s, Schedule(s, c))
  {
    ScheduleKeeps(s, c);
    ScheduleFrom(s, Schedule(s, c), c);
    SettledAfterScheduling(s, Schedule(s, c), c);
  }

  lemma SettledAfterExecuting(s: Sys, s1: Sys, c: CampaignId)
    requires Settled(s) && c in s.campaigns && ExecutedFrom(s, s1, c) && StatusOk(s1, c)
    ensures Settled(s1) && Evolves(s, s1)
  {
    forall k | 0 <= k < |s.jobs| ensures JobEvolves(s.jobs[k], s1.jobs[k]) && s1.jobs[k].status != Running {
      assert Executed(s, c, k, s1.jobs[k]);
    }
    ElsewhereOk(s, s1, c);
  }

  lemma ExecuteKeeps(s: Sys, c: CampaignId)
    requires Tracked(s) && c in s.campaigns
    ensures Tracked(Execute(s, c)) && (Consistent(s) ==> Consistent(Execute(s, c)))
  {
    if !Closed(s.campaigns[c]) {
      ExecutePassKeeps(s, c, 0);
      CampaignsOnly(ExecutePass(s, c, 0), Execute(s, c));
    }
  }

  lemma ExecuteStep(s: Sys, c: CampaignId)
    requires Steady(s) && c in s.campaigns
    ensures Steady(Execute(s, c)) && Evolves(s, Execute(s, c))
  {
    ExecuteKeeps(s, c);
    ExecuteFrom(s, Execute(s, c), c);
    assert StatusOk(Execute(s, c), c) by {
      if Closed(s.campaigns[c]) { assert StatusOk(s, c); } else { UpdateStatusOk(ExecutePass(s, c, 0), c); }
    }
    SettledAfterExecuting(s, Execute(s, c), c);
  }

  // ---------------------------------------------------------------- autoscaling

  lemma {:induction false} DecimalInjective(m: nat, n: nat)
    requires Decimal(m) == Decimal(n)
    ensures m == n
  {
    var last := |Decimal(m)| - 1;
    assert Decimal(m)[last] == Decimal(n)[last];
    assert m % 10 == n % 10;
    if m >= 10 && n >= 10 {
      assert Decimal(m)[..last] == Decimal(m / 10);
      assert Decimal(n)[..last] == Decimal(n / 10);
      DecimalInjective(m / 10, n / 10);
    }
  }

  lemma AutoIdInjective(m: nat, n: nat)
    requires AutoId(m) == AutoId(n)
    ensures m == n
  {
    assert AutoId(m)[10..] == Decimal(m);
    assert AutoId(n)[10..] == Decimal(n);
    DecimalInjective(m, n);
  }

  lemma NodeCount(s: Sys, n: string, node: Node)
    ensures |Register(s, n, node).nodes| == |s.nodes| + if n in s.nodes then 0 else 1
  {
    var s' := Register(s, n, node);
    assert s'.nodes.Keys == s.nodes.Keys + {n};
    assert |s'.nodes| == |s'.nodes.Keys| && |s.nodes| == |s.nodes.Keys|;
  }

  /** Registering a node leaves autoscaling its names exactly when it does not use up a later one. */
  lemma RegisterKeepsFreshIff(s: Sys, n: string, node: Node)
    requires AutoFresh(s)
    ensures AutoFresh(Register(s, n, node)) <==> n in s.nodes || forall k: nat :: k > |s.nodes| + 1 ==> n != AutoId(k)
  {
    var s' := Register(s, n, node);
    NodeCount(s, n, node);
    if n !in s.nodes {
      forall k: nat | k > |s.nodes| + 1 ensures AutoId(k) in s'.nodes <==> n == AutoId(k) {
        assert AutoId(k) !in s.nodes;
      }
    }
  }

  /** Where a node was registered under the name autoscaling hands out next, that node is overwritten. */
  lemma AutoscaleKeepsIffCovers(s: Sys, pending: nat)
    requires Consistent(s) && pending > s.threshold
    ensures Consistent(Autoscale(s, pending)) <==> Covers(AutoNode(s), s.allocations, NextName(s))
  {
    RegisterKeepsIffCovers(s, NextName(s), AutoNode(s));
  }

  lemma AutoscaleStep(s: Sys, pending: nat)
    requires Steady(s)
    ensures Steady(Autoscale(s, pending)) && Evolves(s, Autoscale(s, pending))
  {
    hide Used, StatusOk;
    if pending > s.threshold { RegisterKeepsIffCovers(s, NextName(s), AutoNode(s)); }
    NodesOnly(s, Autoscale(s, pending));
  }

  /** A free name: a node is added, and what is threatened stays threatened. */
  lemma AutoscaleFree(s: Sys, pending: nat, n: string)
    requires pending > s.threshold && NextName(s) !in s.nodes
    ensures Threatened(Autoscale(s, pending), n) <==> Threatened(s, n)
  {
    var s', a := Autoscale(s, pending), |s.nodes| + 1;
    NodeCount(s, NextName(s), AutoNode(s));
    forall k: nat | k > a ensures AutoId(k) != AutoId(a) {
      if AutoId(k) == AutoId(a) { AutoIdInjective(k, a); }
    }
    forall k: nat ensures FirstTaken(s', k) <==> FirstTaken(s, k) {
      if k == a { assert !FirstTaken(s, k) && !FirstTaken(s', k); }
    }
    if Threatened(s', n) { assert n in s.nodes; }
  }

  /** A taken name: its node is replaced, and from then on autoscaling changes nothing any more. */
  lemma AutoscaleTaken(s: Sys, pending: nat, n: string)
    requires pending > s.threshold && NextName(s) in s.nodes
    ensures NextName(Autoscale(s, pending)) == NextName(s) && !Threatened(Autoscale(s, pending), n)
    ensures n in s.nodes && !Threatened(s, n) ==> Autoscale(s, pending).nodes[n] == s.nodes[n]
  {
    var s', a := Autoscale(s, pending), |s.nodes| + 1;
    NodeCount(s, NextName(s), AutoNode(s));
    assert FirstTaken(s, a);
    assert forall k: nat :: FirstTaken(s', k) ==> k == a;
  }

  // ---------------------------------------------------------------- what a turn does to a job

  /** `s1` and `s2` are the states after the scheduling and the execution half of a turn from `s`. */
  ghost predicate Turn(s: Sys, s1: Sys, s2: Sys, c: CampaignId) {
    && ScheduledFrom(s, s1, c) && ExecutedFrom(s1, s2, c)
    && NoneRunning(s) && forall i :: 0 <= i < |s.jobs| ==> s.jobs[i].id.campaign in s.limits
  }

  lemma RoundTurn(s: Sys, s1: Sys, s2: Sys, c: CampaignId)
    requires Ready(s, c) && s1 == Schedule(s, c) && s2 == Execute(s1, c)
    ensures Turn(s, s1, s2, c)
  {
    ScheduleFrom(s, s1, c);
    ScheduleStep(s, c);
    ExecuteFrom(s1, s2, c);
    forall i | 0 <= i < |s.jobs| ensures s.jobs[i].id.campaign in s.limits {
      assert JobOk(s, s.jobs[i]);
    }
  }

  lemma RoundStep(s: Sys, c: CampaignId)
    requires Ready(s, c)
    ensures Ready(Round(s, c), c) && Evolves(s, Round(s, c))
  {
    var s1 := Schedule(s, c);
    var s2 := Execute(s1, c);
    ScheduleStep(s, c);
    ExecuteStep(s1, c);
    RoundTurn(s, s1, s2, c);
    AutoscaleStep(s2, |PendingJobs(s2, c)|);
    EvolvesTrans(s, s1, s2);
    EvolvesTrans(s, s2, Round(s, c));
  }

  /** A pending job may stay or finish; a scheduled one is put back from a lost node or finishes. */
  lemma TurnedJob(s: Sys, s1: Sys, s2: Sys, c: CampaignId, i: nat)
    requires Turn(s, s1, s2, c) && i < |s.jobs| && s.jobs[i].id.campaign == c
    ensures IsPending(s, c, i) ==> s2.jobs[i] == s.jobs[i] || (s1.jobs[i] != s.jobs[i] && Done(s2.jobs[i].status))
    ensures IsScheduled(s, c, i) && NodeDown(s.nodes, s.jobs[i]) ==> s2.jobs[i] == Retry(s.jobs[i], Limit(s, c))
    ensures IsScheduled(s, c, i) && !NodeDown(s.nodes, s.jobs[i]) ==> Done(s2.jobs[i].status)
    ensures Done(s.jobs[i].status) ==> s2.jobs[i] == s.jobs[i]
    ensures s2.jobs[i].status == Pending || Done(s2.jobs[i].status)
    ensures s1.jobs[i] != s.jobs[i] ==> IsPending(s, c, i) && Done(s2.jobs[i].status)
  {
    assert MayBeScheduled(s, c, i, s1.jobs[i]);
    assert Executed(s1, c, i, s2.jobs[i]);
    assert s1.jobs[i].id == s.jobs[i].id;
  }

  // ---------------------------------------------------------------- blocked jobs stay, no others join

  lemma SameNames(s: Sys, s': Sys, n: string)
    requires s'.nodes == s.nodes && s'.policyVersion == s.policyVersion
    ensures NextName(s') == NextName(s) && AutoNode(s') == AutoNode(s) && (Threatened(s', n) <==> Threatened(s, n))
  {
    forall k: nat ensures FirstTaken(s', k) <==> FirstTaken(s, k) {}
  }

  lemma PlaceableFrame(s: Sys, s': Sys, c: CampaignId, req: Requirements)
    requires SameElsewhere(s, s', c) && s'.nodes == s.nodes && s'.policyVersion == s.policyVersion
    ensures Placeable(s', c, req) <==> Placeable(s, c, req)
    ensures SafelyPlaceable(s', c, req) <==> SafelyPlaceable(s, c, req)
  {
    hide NodeFits, Threatened;
    SameNames(s, s', "");
    NodeFitsFrame(s, s', c, NextName(s), AutoNode(s), req);
    forall n ensures IdleFits(s', c, n, req) <==> IdleFits(s, c, n, req)
      ensures Threatened(s', n) <==> Threatened(s, n)
    {
      SameNames(s, s', n);
      if n in s.nodes { NodeFitsFrame(s, s', c, n, s.nodes[n], req); }
    }
  }

  lemma StaysBlocked(s: Sys, s1: Sys, s2: Sys, c: CampaignId, i: int)
    requires Turn(s, s1, s2, c) && i in Blocked(s, c)
    ensures IsPending(s2, c, i) && i in Blocked(s2, c)
  {
    hide AutoHelps, SafelyPlaceable;
    TurnedJob(s, s1, s2, c, i);
    assert MayBeScheduled(s, c, i, s1.jobs[i]);
    assert s2.jobs[i].id == s.jobs[i].id;
    SameElsewhereTrans(s, s1, s2, c);
    PlaceableFrame(s, s2, c, s.jobs[i].requirements);
  }

  lemma WasDoubtful(s: Sys, s1: Sys, s2: Sys, c: CampaignId, i: int)
    requires Turn(s, s1, s2, c) && i in Doubtful(s2, c)
    ensures i in Doubtful(s, c)
  {
    hide Placeable, SafelyPlaceable;
    SameElsewhereTrans(s, s1, s2, c);
    assert s2.jobs[i].id == s.jobs[i].id && s2.jobs[i].requirements == s.jobs[i].requirements;
    TurnedJob(s, s1, s2, c, i);
    assert IsPending(s2, c, i);
    assert s.jobs[i].status != Running;
    assert WillPend(s, c, i);
    PlaceableFrame(s, s2, c, s.jobs[i].requirements);
  }

  /** Under a free name nothing is held, so an autoscaled node helps where an empty one does. */
  lemma FreeNameEmpty(s: Sys, c: CampaignId, n: string, req: Requirements)
    requires JobsOk(s) && n !in s.nodes
    ensures NodeFits(s, c, n, AutoNode(s), req) <==> AutoFits(s, req)
  {
    forall i | 0 <= i < |s.jobs| ensures JobOk(s, s.jobs[i]) {}
    forall r: Resource ensures Demand(s.jobs, n, r, Some(c)) == 0 {
      NoDemand(s, s.jobs, n, r);
      DemandSkip(s.jobs, n, r, Some(c));
    }
  }

  lemma HelpsMeansFits(s: Sys, c: CampaignId, req: Requirements)
    ensures AutoHelps(s, c, req) ==> AutoFits(s, req)
  {}

  /** Autoscaling makes nothing placeable that was not, and leaves what is safely placeable so. */
  lemma AutoscalePlaces(s: Sys, c: CampaignId, req: Requirements, pending: nat)
    requires JobsOk(s) && pending > s.threshold
    ensures var s' := Autoscale(s, pending);
      && (Placeable(s', c, req) ==> Placeable(s, c, req))
      && (SafelyPlaceable(s, c, req) ==> SafelyPlaceable(s', c, req))
  {
    var s', a := Autoscale(s, pending), NextName(s);
    assert forall n, node :: NodeFits(s', c, n, node, req) <==> NodeFits(s, c, n, node, req);
    hide NodeFits, Threatened, AutoFits;
    HelpsMeansFits(s', c, req);
    assert AutoFits(s', req) <==> AutoFits(s, req) by { SameAutoFits(s, s', req); }
    if a in s.nodes {
      forall n ensures !Threatened(s', n) && (n in s.nodes && !Threatened(s, n) ==> s'.nodes[n] == s.nodes[n]) {
        AutoscaleTaken(s, pending, n);
      }
    } else {
      FreeNameEmpty(s, c, a, req);
      forall n ensures Threatened(s', n) <==> Threatened(s, n) { AutoscaleFree(s, pending, n); }
      NotThreatened(s, a);
    }
    if SafelyPlaceable(s, c, req) {
      if AutoHelps(s, c, req) {
        assert IdleFits(s', c, a, req);
      } else {
        var n :| IdleFits(s, c, n, req) && !Threatened(s, n);
        assert IdleFits(s', c, n, req);
      }
    }
    if Placeable(s', c, req) && !AutoHelps(s', c, req) {
      var n :| IdleFits(s', c, n, req);
      if n != a { assert IdleFits(s, c, n, req); }
    }
  }

  lemma SameAutoFits(s: Sys, s': Sys, req: Requirements)
    requires s'.policyVersion == s.policyVersion
    ensures AutoFits(s', req) <==> AutoFits(s, req)
  {}

  lemma NotThreatened(s: Sys, n: string)
    requires n !in s.nodes
    ensures !Threatened(s, n)
  {}

  lemma AutoscaleBlocked(s: Sys, c: CampaignId, pending: nat)
    requires JobsOk(s) && forall i :: 0 <= i < |s.jobs| ==> !IsScheduled(s, c, i)
    ensures Blocked(s, c) <= Blocked(Autoscale(s, pending), c)
    ensures Doubtful(Autoscale(s, pending), c) <= Doubtful(s, c)
  {
    if pending > s.threshold {
      forall i | 0 <= i < |s.jobs|
        ensures var s', req := Autoscale(s, pending), s.jobs[i].requirements;
          && (Placeable(s', c, req) ==> Placeable(s, c, req))
          && (SafelyPlaceable(s, c, req) ==> SafelyPlaceable(s', c, req))
      {
        AutoscalePlaces(s, c, s.jobs[i].requirements, pending);
      }
      hide Placeable, SafelyPlaceable, NodeDown, Limit;
    }
  }

  lemma NothingScheduled(s: Sys, s1: Sys, s2: Sys, c: CampaignId)
    requires Turn(s, s1, s2, c)
    ensures forall i :: 0 <= i < |s2.jobs| ==> !IsScheduled(s2, c, i)
  {
    forall i | 0 <= i < |s2.jobs| ensures !IsScheduled(s2, c, i) {
      assert s2.jobs[i].id == s1.jobs[i].id == s.jobs[i].id;
      if s.jobs[i].id.campaign == c { TurnedJob(s, s1, s2, c, i); }
    }
  }

  lemma TurnBlocked(s: Sys, s1: Sys, s2: Sys, c: CampaignId)
    requires Turn(s, s1, s2, c)
    ensures Blocked(s, c) <= Blocked(s2, c) && Doubtful(s2, c) <= Doubtful(s, c)
  {
    hide Blocked, Doubtful;
    forall i | i in Blocked(s, c) ensures i in Blocked(s2, c) { StaysBlocked(s, s1, s2, c, i); }
    forall i | i in Doubtful(s2, c) ensures i in Doubtful(s, c) { WasDoubtful(s, s1, s2, c, i); }
  }

  /** A threatened node stays so until autoscaling replaces it, and no other one is ever threatened. */
  lemma RoundThreat(s: Sys, c: CampaignId, n: string)
    requires Ready(s, c) && Threatened(Round(s, c), n)
    ensures Threatened(s, n)
  {
    hide Threatened, AutoFresh, Tracked, Settled, Schedule, Execute;
    var s1 := Schedule(s, c);
    var s2 := Execute(s1, c);
    SameNames(s, s2, n);
    var pending := |PendingJobs(s2, c)|;
    if pending > s2.threshold {
      if NextName(s2) in s2.nodes { AutoscaleTaken(s2, pending, n); } else { AutoscaleFree(s2, pending, n); }
    }
  }

  /**
   * A turn of the loop frees no blocked job and puts no further one in doubt; where no node is threatened
   * the set of blocked jobs stays as it is.
   */
  lemma BlockedInvariant(s: Sys, c: CampaignId)
    requires Ready(s, c)
    ensures Blocked(s, c) <= Blocked(Round(s, c), c) && Doubtful(Round(s, c), c) <= Doubtful(s, c)
    ensures (forall n :: !Threatened(s, n)) ==> Blocked(Round(s, c), c) == Blocked(s, c)
  {
    var s1 := Schedule(s, c);
    var s2 := Execute(s1, c);
    RoundTurn(s, s1, s2, c);
    ScheduleStep(s, c);
    ExecuteStep(s1, c);
    NothingScheduled(s, s1, s2, c);
    TurnBlocked(s, s1, s2, c);
    AutoscaleBlocked(s2, c, |PendingJobs(s2, c)|);
    if forall n :: !Threatened(s, n) {
      hide Blocked, Doubtful, Threatened, Turn;
      forall n ensures !Threatened(Round(s, c), n) {
        if Threatened(Round(s, c), n) { RoundThreat(s, c, n); }
      }
      NothingDoubtful(s, c);
      NothingDoubtful(Round(s, c), c);
    }
  }

  // ---------------------------------------------------------------- progress is bounded

  /** How many more attempts a job may consume; nothing once it is terminal. */
  function JobFuel(job: JobState, c: CampaignId, limit: nat): nat {
    if job.id.campaign != c || Done(job.status) then 0
    else if job.attempt < limit then limit - job.attempt + 1
    else 1
  }

  function Fuel(jobs: seq<JobState>, c: CampaignId, limit: nat): nat {
    if jobs == [] then 0 else Fuel(jobs[..|jobs| - 1], c, limit) + JobFuel(jobs[|jobs| - 1], c, limit)
  }

  lemma {:induction false} FuelLess(jobs: seq<JobState>, jobs': seq<JobState>, c: CampaignId, limit: nat)
    requires |jobs| == |jobs'|
    requires forall i :: 0 <= i < |jobs| ==> JobFuel(jobs'[i], c, limit) <= JobFuel(jobs[i], c, limit)
    ensures Fuel(jobs', c, limit) <= Fuel(jobs, c, limit)
    ensures (exists i :: 0 <= i < |jobs| && JobFuel(jobs'[i], c, limit) < JobFuel(jobs[i], c, limit))
            ==> Fuel(jobs', c, limit) < Fuel(jobs, c, limit)
  {
    if jobs != [] {
      FuelLess(jobs[..|jobs| - 1], jobs'[..|jobs| - 1], c, limit);
    }
  }

  lemma TurnFuel(s: Sys, s1: Sys, s2: Sys, c: CampaignId)
    requires Turn(s, s1, s2, c)
    ensures Fuel(s2.jobs, c, Limit(s, c)) <= Fuel(s.jobs, c, Limit(s, c))
    ensures s1.jobs != s.jobs || HasScheduled(s1, c) ==> Fuel(s2.jobs, c, Limit(s, c)) < Fuel(s.jobs, c, Limit(s, c))
  {
    var limit := Limit(s, c);
    forall i | 0 <= i < |s.jobs|
      ensures JobFuel(s2.jobs[i], c, limit) <= JobFuel(s.jobs[i], c, limit)
      ensures s1.jobs[i] != s.jobs[i] || IsScheduled(s1, c, i) ==>
        JobFuel(s2.jobs[i], c, limit) < JobFuel(s.jobs[i], c, limit)
    {
      assert s2.jobs[i].id == s1.jobs[i].id == s.jobs[i].id;
      assert s.jobs[i].status != Running;
      if s.jobs[i].id.campaign == c { TurnedJob(s, s1, s2, c, i); }
    }
    FuelLess(s.jobs, s2.jobs, c, limit);
    if s1.jobs != s.jobs {
      var i :| 0 <= i < |s.jobs| && s1.jobs[i] != s.jobs[i];
      assert JobFuel(s2.jobs[i], c, limit) < JobFuel(s.jobs[i], c, limit);
    } else if HasScheduled(s1, c) {
      var i :| 0 <= i < |s1.jobs| && IsScheduled(s1, c, i);
      assert JobFuel(s2.jobs[i], c, limit) < JobFuel(s.jobs[i], c, limit);
    }
  }

  ghost predicate SomeFits(s: Sys, c: CampaignId) {
    exists i: nat, n: string :: IsPending(s, c, i) && Fits(s, n, s.jobs[i].requirements)
  }

  ghost function Stall(s: Sys, c: CampaignId): nat {
    if SomeFits(s, c) then 0 else 1
  }

  lemma {:induction false} NothingToExecute(s: Sys, c: CampaignId, i: nat)
    requires i <= |s.jobs| && !HasScheduled(s, c)
    ensures ExecutePass(s, c, i) == s
    decreases |s.jobs| - i
  {
    if i < |s.jobs| {
      assert !IsScheduled(s, c, i);
      NothingToExecute(s, c, i + 1);
    }
  }

  /** A turn that neither schedules nor executes changes at most the campaign's status. */
  lemma IdleTurn(s: Sys, c: CampaignId)
    requires Ready(s, c) && Schedule(s, c).jobs == s.jobs
    requires Closed(Schedule(s, c).campaigns[c]) || !HasScheduled(Schedule(s, c), c)
    ensures Schedule(s, c) == s && !SomeFits(s, c)
    ensures Execute(s, c) == if Closed(s.campaigns[c]) then s else UpdateStatus(s, c)
  {
    if Closed(s.campaigns[c]) {
      ClosedHasNoWork(s, c);
    } else {
      IdlePass(s, c, 0);
      NothingToExecute(s, c, 0);
    }
  }

  /** Autoscaling while a pending job is not in doubt gives that job a node. */
  lemma AutoscaleGivesNode(s: Sys, c: CampaignId, i: int, pending: nat)
    requires Ready(s, c) && HoldsNothing(s, c) && !SomeFits(s, c)
    requires 0 <= i < |s.jobs| && IsPending(s, c, i) && i !in Doubtful(s, c)
    requires pending > s.threshold
    ensures SomeFits(Autoscale(s, pending), c)
  {
    var req, s', k := s.jobs[i].requirements, Autoscale(s, pending), NextName(s);
    assert SafelyPlaceable(s, c, req);
    if n :| IdleFits(s, c, n, req) {
      IdleFitsIsFits(s, c, n, req);
      assert false;
    }
    assert AutoHelps(s, c, req);
    AutoscaleStep(s, pending);
    assert NodeFits(s', c, k, s'.nodes[k], req);
    IdleFitsIsFits(s', c, k, req);
    assert IsPending(s', c, i);
  }

  /** The termination measure of the loop. */
  ghost function Distance(s: Sys, c: CampaignId): nat {
    2 * Fuel(s.jobs, c, Limit(s, c)) + Stall(s, c)
  }

  lemma WorkDecreases(s: Sys, s1: Sys, s2: Sys, c: CampaignId, pending: nat)
    requires Turn(s, s1, s2, c) && (s1.jobs != s.jobs || HasScheduled(s1, c))
    ensures Distance(Autoscale(s2, pending), c) < Distance(s, c)
  {
    TurnFuel(s, s1, s2, c);
    assert Limit(Autoscale(s2, pending), c) == Limit(s, c);
  }

  lemma IdleHoldsNothing(s: Sys, c: CampaignId)
    requires Ready(s, c) && (Closed(s.campaigns[c]) || !HasScheduled(s, c))
    ensures HoldsNothing(s, c)
  {
    if Closed(s.campaigns[c]) { ClosedHasNoWork(s, c); }
    forall k | 0 <= k < |s.jobs| && Holds(s.jobs[k]) ensures s.jobs[k].id.campaign != c {
      assert s.jobs[k].status != Running;
      assert Closed(s.campaigns[c]) || !IsScheduled(s, c, k);
    }
  }

  lemma IdleDecreases(s: Sys, c: CampaignId)
    requires Ready(s, c) && |Doubtful(s, c)| <= s.threshold
    requires Schedule(s, c).jobs == s.jobs
    requires Closed(Schedule(s, c).campaigns[c]) || !HasScheduled(Schedule(s, c), c)
    requires |PendingJobs(Execute(Schedule(s, c), c), c)| > s.threshold
    ensures Distance(Round(s, c), c) < Distance(s, c)
  {
    hide Tracked, Schedule, Execute, SafelyPlaceable, Threatened;
    var s2 := Execute(Schedule(s, c), c);
    IdleTurn(s, c);
    if Closed(s.campaigns[c]) { ClosedHasNoWork(s, c); }
    assert s2.jobs == s.jobs && PendingJobs(s2, c) == PendingJobs(s, c);
    var i := SomeUndoubted(s, c);
    IdleHoldsNothing(s, c);
    AutoscaleGivesNode(s, c, i, |PendingJobs(s2, c)|);
    FitsIgnoresStatus(Autoscale(s, |PendingJobs(s2, c)|), Round(s, c), c);
    assert Limit(Round(s, c), c) == Limit(s, c);
  }

  lemma SomeUndoubted(s: Sys, c: CampaignId) returns (i: int)
    requires |Doubtful(s, c)| <= s.threshold < |PendingJobs(s, c)|
    ensures i in PendingJobs(s, c) && i !in Doubtful(s, c)
  {
    hide Doubtful, PendingJobs;
    var pending, doubtful := PendingJobs(s, c), Doubtful(s, c);
    if forall k :: k in pending ==> k in doubtful {
      SubsetSize(pending, doubtful);
    }
    i :| i in pending && i !in doubtful;
  }

  /** Each further turn uses up attempts, or else provides a node for a job that can use it. */
  lemma RoundDecreases(s: Sys, c: CampaignId)
    requires Ready(s, c) && |Doubtful(s, c)| <= s.threshold && Progress(s, c)
    ensures Distance(Round(s, c), c) < Distance(s, c)
  {
    var s1 := Schedule(s, c);
    var s2 := Execute(s1, c);
    if s1.jobs != s.jobs || (!Closed(s1.campaigns[c]) && HasScheduled(s1, c)) {
      RoundTurn(s, s1, s2, c);
      WorkDecreases(s, s1, s2, c, |PendingJobs(s2, c)|);
    } else {
      IdleDecreases(s, c);
    }
  }

  lemma FitsIgnoresStatus(s: Sys, s': Sys, c: CampaignId)
    requires s' == s.(campaigns := s'.campaigns)
    ensures SomeFits(s, c) <==> SomeFits(s', c)
  {
    if SomeFits(s, c) {
      var i: nat, n: string :| IsPending(s, c, i) && Fits(s, n, s.jobs[i].requirements);
      assert IsPending(s', c, i) && Fits(s', n, s'.jobs[i].requirements);
    }
    if SomeFits(s', c) {
      var i: nat, n: string :| IsPending(s', c, i) && Fits(s', n, s'.jobs[i].requirements);
      assert IsPending(s, c, i) && Fits(s, n, s.jobs[i].requirements);
    }
  }

  // ---------------------------------------------------------------- when the loop ends

  ghost function Rounds(s: Sys, c: CampaignId, n: nat): (r: Sys)
    requires c in s.campaigns
    ensures c in r.campaigns
    decreases n
  {
    if n == 0 then s else Rounds(Round(s, c), c, n - 1)
  }

  /** The loop started in `s` makes exactly `n` turns that progress and one that does not. */
  ghost predicate EndsAfter(s: Sys, c: CampaignId, n: nat)
    requires c in s.campaigns
    decreases n
  {
    if n == 0 then !Progress(s, c) else Progress(s, c) && EndsAfter(Round(s, c), c, n - 1)
  }

  ghost predicate Ends(s: Sys, c: CampaignId)
    requires c in s.campaigns
  {
    exists n: nat :: EndsAfter(s, c, n)
  }

  /** What one more turn keeps. */
  lemma NextTurn(s: Sys, s': Sys, c: CampaignId)
    requires Ready(s, c) && s' == Round(s, c)
    ensures Ready(s', c) && Evolves(s, s') && s'.threshold == s.threshold
    ensures Blocked(s, c) <= Blocked(s', c) && Doubtful(s', c) <= Doubtful(s, c)
    ensures |Doubtful(s, c)| <= s.threshold && Progress(s, c) ==> Distance(s', c) < Distance(s, c)
  {
    RoundStep(s, c);
    BlockedInvariant(s, c);
    if |Doubtful(s, c)| <= s.threshold && Progress(s, c) { RoundDecreases(s, c); }
  }

  lemma OneMoreTurn(s: Sys, s': Sys, c: CampaignId, n: nat)
    requires c in s.campaigns && Progress(s, c) && s' == Round(s, c)
    ensures EndsAfter(s, c, n + 1) <==> EndsAfter(s', c, n)
    ensures Rounds(s, c, n + 1) == Rounds(s', c, n)
  {}

  lemma {:induction false} EndsWhenFewDoubtful(s: Sys, c: CampaignId, distance: nat) returns (n: nat)
    requires Ready(s, c) && |Doubtful(s, c)| <= s.threshold && Distance(s, c) <= distance
    ensures EndsAfter(s, c, n)
    decreases distance
  {
    hide Steady, Doubtful, Blocked, Distance, Progress, Round;
    if Progress(s, c) {
      var s' := Round(s, c);
      NextTurn(s, s', c);
      SubsetSize(Doubtful(s', c), Doubtful(s, c));
      var m := EndsWhenFewDoubtful(s', c, distance - 1);
      OneMoreTurn(s, s', c, m);
      n := m + 1;
    } else {
      n := 0;
    }
  }

  lemma BlockedProgress(s: Sys, c: CampaignId)
    requires Ready(s, c) && |Blocked(s, c)| > s.threshold
    ensures Progress(s, c)
  {
    var s1 := Schedule(s, c);
    var s2 := Execute(s1, c);
    RoundTurn(s, s1, s2, c);
    forall i | i in Blocked(s, c) ensures i in PendingJobs(s2, c) {
      StaysBlocked(s, s1, s2, c, i);
    }
    SubsetSize(Blocked(s, c), PendingJobs(s2, c));
  }

  lemma {:induction false} RunsOnWhenManyBlocked(s: Sys, c: CampaignId, n: nat)
    requires Ready(s, c) && |Blocked(s, c)| > s.threshold
    ensures !EndsAfter(s, c, n)
    decreases n
  {
    hide Steady, Blocked, Doubtful, Progress, Round;
    BlockedProgress(s, c);
    if n > 0 {
      var s' := Round(s, c);
      NextTurn(s, s', c);
      SubsetSize(Blocked(s, c), Blocked(s', c));
      RunsOnWhenManyBlocked(s', c, n - 1);
    }
  }

  /**
   * `run_campaign`, on any nodes at all: it returns if at most `autoscale_threshold` jobs of the campaign
   * are in doubt, and only if at most that many are blocked; with more it autoscales for ever. The two
   * agree, so that this is exact, wherever no node that differs from an autoscaled one stands under the
   * next taken name.
   */
  lemma EndsIffFewBlocked(s: Sys, c: CampaignId)
    requires Ready(s, c)
    ensures |Doubtful(s, c)| <= s.threshold ==> Ends(s, c)
    ensures Ends(s, c) ==> |Blocked(s, c)| <= s.threshold
    ensures (forall n :: !Threatened(s, n)) ==> (Ends(s, c) <==> |Blocked(s, c)| <= s.threshold)
  {
    hide Steady, Doubtful, Blocked, Threatened, EndsAfter;
    if |Doubtful(s, c)| <= s.threshold {
      var n := EndsWhenFewDoubtful(s, c, Distance(s, c));
    }
    if |Blocked(s, c)| > s.threshold {
      forall n: nat ensures !EndsAfter(s, c, n) { RunsOnWhenManyBlocked(s, c, n); }
    }
    if forall n :: !Threatened(s, n) { NothingDoubtful(s, c); }
  }

  // ---------------------------------------------------------------- three kinds of clusters

  /**
   * Where every later name is free, the loop ends if and only if at most `autoscale_threshold` jobs fit neither
   * a node that is there nor an empty autoscaled one.
   */
  lemma EndsIffFresh(s: Sys, c: CampaignId)
    requires Ready(s, c) && AutoFresh(s)
    ensures Ends(s, c) <==>
      |set i | 0 <= i < |s.jobs| && WillPend(s, c, i) && !Seated(s, c, i) && !AutoFits(s, s.jobs[i].requirements)|
        <= s.threshold
  {
    hide Settled, WillPend, EndsAfter, NodeFits, AutoFits;
    assert AutoId(|s.nodes| + 1) !in s.nodes;
    assert forall n :: !Threatened(s, n);
    EndsIffFewBlocked(s, c);
    forall i | 0 <= i < |s.jobs|
      ensures Placeable(s, c, s.jobs[i].requirements)
        <==> Seated(s, c, i) || AutoFits(s, s.jobs[i].requirements)
    {
      FreeNameEmpty(s, c, NextName(s), s.jobs[i].requirements);
    }
    assert (set i | 0 <= i < |s.jobs| && WillPend(s, c, i) && !Seated(s, c, i)
                    && !AutoFits(s, s.jobs[i].requirements)) == Blocked(s, c);
  }

  /**
   * Where the next name belongs to a node just like an autoscaled one, autoscaling changes nothing: the loop
   * ends if and only if at most `autoscale_threshold` jobs fit no node that is there.
   */
  lemma EndsIffNextTaken(s: Sys, c: CampaignId)
    requires Ready(s, c) && NextName(s) in s.nodes && s.nodes[NextName(s)] == AutoNode(s)
    ensures Ends(s, c) <==> |set i | 0 <= i < |s.jobs| && WillPend(s, c, i) && !Seated(s, c, i)| <= s.threshold
  {
    hide Steady, WillPend, EndsAfter, NodeFits;
    forall k: nat ensures FirstTaken(s, k) ==> k == |s.nodes| + 1 {}
    assert forall n :: !Threatened(s, n);
    EndsIffFewBlocked(s, c);
    forall i | 0 <= i < |s.jobs| ensures Seated(s, c, i) <==> Placeable(s, c, s.jobs[i].requirements) {
      if AutoHelps(s, c, s.jobs[i].requirements) { assert IdleFits(s, c, NextName(s), s.jobs[i].requirements); }
    }
    assert (set i | 0 <= i < |s.jobs| && WillPend(s, c, i) && !Seated(s, c, i)) == Blocked(s, c);
  }

  ghost predicate Seated(s: Sys, c: CampaignId, i: nat)
    requires i < |s.jobs|
  {
    exists n :: IdleFits(s, c, n, s.jobs[i].requirements)
  }

  /** Whatever nodes there are: a campaign that has the cluster to itself and only needs empty autoscaled nodes ends. */
  lemma EndsWhenAlone(s: Sys, c: CampaignId)
    requires Ready(s, c) && s.threshold >= 0
    requires forall job :: job in s.jobs && Holds(job) ==> job.id.campaign == c
    requires forall job :: job in s.jobs && job.id.campaign == c && !Done(job.status) ==> AutoFits(s, job.requirements)
    ensures Ends(s, c)
  {
    forall i | 0 <= i < |s.jobs| ensures i !in Doubtful(s, c) {
      if WillPend(s, c, i) {
        assert s.jobs[i] in s.jobs;
        NobodyElse(s, s.jobs, c, NextName(s), Cpu);
        NobodyElse(s, s.jobs, c, NextName(s), Memory);
        assert AutoHelps(s, c, s.jobs[i].requirements);
      }
    }
    assert Doubtful(s, c) == {};
    EndsIffFewBlocked(s, c);
  }

  lemma {:induction false} NobodyElse(s: Sys, jobs: seq<JobState>, c: CampaignId, n: string, r: Resource)
    requires forall job :: job in jobs && Holds(job) ==> job.id.campaign == c
    ensures Demand(jobs, n, r, Some(c)) == 0
  {
    if jobs != [] {
      assert jobs[|jobs| - 1] in jobs;
      NobodyElse(s, jobs[..|jobs| - 1], c, n, r);
    }
  }

  // ---------------------------------------------------------------- what holds when the loop has ended

  /** The state `run_campaign` leaves when its last turn starts in `s`. */
  ghost function Final(s: Sys, c: CampaignId): Sys
    requires c in s.campaigns
  {
    UpdateStatus(Round(s, c), c)
  }

  /** Nodes are only added, unless they were threatened, and other campaigns are left alone. */
  ghost predicate Grows(s: Sys, s': Sys, c: CampaignId) {
    && SameElsewhere(s, s', c)
    && (forall n :: n in s.nodes && !Threatened(s, n) ==> n in s'.nodes && s'.nodes[n] == s.nodes[n])
    && (forall n :: n in s.nodes && Threatened(s', n) ==> Threatened(s, n))
    && s.nodes.Keys <= s'.nodes.Keys
  }

  lemma LastTurnShape(s: Sys, c: CampaignId)
    requires Ready(s, c) && !Progress(s, c)
    ensures Final(s, c) == UpdateStatus(s, c)
    ensures |PendingJobs(s, c)| <= s.threshold && !SomeFits(s, c)
    ensures forall i: nat :: !IsScheduled(s, c, i)
  {
    hide Tracked, SchedulePass, ExecutePass;
    IdleTurn(s, c);
    var s2 := Execute(s, c);
    assert PendingJobs(s, c) == PendingJobs(s2, c);
    if Closed(s.campaigns[c]) { ClosedHasNoWork(s, c); }
    assert s2.campaigns[c := StatusOf(s.jobs, c)] == s.campaigns[c := StatusOf(s.jobs, c)];
  }

  lemma LastTurn(s: Sys, c: CampaignId)
    requires Ready(s, c) && !Progress(s, c)
    ensures var s' := Final(s, c);
      && Steady(s') && (Consistent(s) ==> Consistent(s')) && Evolves(s, s') && s' == s.(campaigns := s'.campaigns)
      && SameElsewhere(s, s', c) && HoldsNothing(s', c)
      && |PendingJobs(s', c)| <= s'.threshold
      && !SomeFits(s', c)
  {
    hide Progress, Final;
    var s' := UpdateStatus(s, c);
    LastTurnShape(s, c);
    CampaignsOnly(s, s');
    UpdateStatusOk(s, c);
    ElsewhereOk(s, s', c);
    FitsIgnoresStatus(s, s', c);
    assert PendingJobs(s', c) == PendingJobs(s, c);
    forall i | 0 <= i < |s'.jobs| && Holds(s'.jobs[i]) ensures s'.jobs[i].id.campaign != c {
      assert s.jobs[i].status != Running && !IsScheduled(s, c, i);
    }
  }

  lemma RoundGrows(s: Sys, c: CampaignId)
    requires Ready(s, c)
    ensures Grows(s, Round(s, c), c)
  {
    hide Tracked, Settled, Schedule, Execute, Threatened, StatusOf;
    var s1 := Schedule(s, c);
    var s2 := Execute(s1, c);
    RoundTurn(s, s1, s2, c);
    SameElsewhereTrans(s, s1, s2, c);
    var pending := |PendingJobs(s2, c)|;
    forall n | n in s.nodes
      ensures Threatened(Round(s, c), n) ==> Threatened(s, n)
      ensures !Threatened(s, n) ==> Round(s, c).nodes[n] == s.nodes[n]
    {
      SameNames(s, s2, n);
      if Threatened(Round(s, c), n) { RoundThreat(s, c, n); }
      if pending > s2.threshold && NextName(s2) in s2.nodes { AutoscaleTaken(s2, pending, n); }
    }
  }

  lemma GrowsTrans(s: Sys, s1: Sys, s2: Sys, c: CampaignId)
    requires Grows(s, s1, c) && Grows(s1, s2, c)
    ensures Grows(s, s2, c)
  {
    hide Threatened;
    SameElsewhereTrans(s, s1, s2, c);
  }

  lemma GrowsNot(s: Sys, c: CampaignId)
    ensures Grows(s, s, c)
  {
    hide Threatened;
  }

  // ---------------------------------------------------------------- runs and capacity

  /** If the turn from `s` autoscales, the new node covers what is allocated under its name. */
  ghost predicate AutoscaleCovers(s: Sys, c: CampaignId)
    requires c in s.campaigns
  {
    var s2 := Execute(Schedule(s, c), c);
    |PendingJobs(s2, c)| > s2.threshold ==> Covers(AutoNode(s2), s2.allocations, NextName(s2))
  }

  /** So does every autoscale of a run of `n` turns. */
  ghost predicate RunCovers(s: Sys, c: CampaignId, n: nat)
    requires c in s.campaigns
    decreases n
  {
    n == 0 || (AutoscaleCovers(s, c) && RunCovers(Round(s, c), c, n - 1))
  }

  lemma RoundKeepsIffCovers(s: Sys, c: CampaignId)
    requires Ready(s, c) && Consistent(s)
    ensures Consistent(Round(s, c)) <==> AutoscaleCovers(s, c)
  {
    hide Tracked, WithinCapacity, Schedule, Execute, Covers;
    var s1 := Schedule(s, c);
    var s2 := Execute(s1, c);
    assert Tracked(s) && WithinCapacity(s);
    ScheduleKeeps(s, c);
    ExecuteKeeps(s1, c);
    var pending := |PendingJobs(s2, c)|;
    if pending > s2.threshold { AutoscaleKeepsIffCovers(s2, pending); }
  }

  /** While its names are free, autoscaling covers: nothing is allocated under them. */
  lemma FreshTurn(s: Sys, c: CampaignId)
    requires Ready(s, c) && AutoFresh(s)
    ensures AutoscaleCovers(s, c) && AutoFresh(Round(s, c))
  {
    hide Settled, Schedule, Execute;
    var s1 := Schedule(s, c);
    var s2 := Execute(s1, c);
    ScheduleKeeps(s, c);
    ExecuteKeeps(s1, c);
    FreshAutoscale(s2, |PendingJobs(s2, c)|);
  }

  lemma FreshAutoscale(s: Sys, pending: nat)
    requires Tracked(s) && AutoFresh(s)
    ensures Covers(AutoNode(s), s.allocations, NextName(s)) && AutoFresh(Autoscale(s, pending))
  {
    var a := |s.nodes| + 1;
    assert AutoId(a) !in s.nodes;
    UnknownNodeUnused(s, AutoId(a), Cpu);
    UnknownNodeUnused(s, AutoId(a), Memory);
    forall m: nat | m > a ensures AutoId(a) != AutoId(m) {
      if AutoId(a) == AutoId(m) { AutoIdInjective(a, m); }
    }
    RegisterKeepsFreshIff(s, AutoId(a), AutoNode(s));
  }

  lemma {:induction false} FreshRunsCover(s: Sys, c: CampaignId, n: nat)
    requires Ready(s, c) && AutoFresh(s)
    ensures RunCovers(s, c, n)
    decreases n
  {
    hide Steady, AutoFresh, AutoscaleCovers, Round;
    if n > 0 {
      FreshTurn(s, c);
      RoundStep(s, c);
      FreshRunsCover(Round(s, c), c, n - 1);
    }
  }

  ghost predicate RunResult(s: Sys, c: CampaignId, n: nat, s': Sys)
    requires c in s.campaigns
  {
    EndsAfter(s, c, n) && s' == Final(Rounds(s, c, n), c)
  }

  /** The state in which the last turn starts. */
  lemma {:induction false} ReachesLastTurn(s: Sys, c: CampaignId, n: nat, last: Sys)
    requires Ready(s, c) && EndsAfter(s, c, n) && last == Rounds(s, c, n)
    ensures Ready(last, c) && !Progress(last, c) && Evolves(s, last) && Grows(s, last, c)
    ensures Consistent(s) && RunCovers(s, c, n) ==> Consistent(last)
    decreases n
  {
    hide Steady, Consistent, AutoscaleCovers, Progress, Round, Grows, Blocked, Doubtful;
    if n > 0 {
      var s1 := Round(s, c);
      OneMoreTurn(s, s1, c, n - 1);
      NextTurn(s, s1, c);
      RoundGrows(s, c);
      if Consistent(s) { RoundKeepsIffCovers(s, c); }
      ReachesLastTurn(s1, c, n - 1, last);
      EvolvesTrans(s, s1, last);
      GrowsTrans(s, s1, last, c);
    } else {
      GrowsNot(s, c);
    }
  }

  /**
   * When `run_campaign` returns, the campaign holds no node, at most `autoscale_threshold` of its
   * jobs are pending, none of them fits any node, every other campaign is as it was, and every job
   * for which some node had room (other campaigns aside) when the run began has finished, unless that node
   * was threatened. No node is over-committed that was not before, if every autoscale covers.
   */
  lemma RunOutcome(s: Sys, c: CampaignId, n: nat, s': Sys)
    requires Ready(s, c) && RunResult(s, c, n, s')
    ensures Steady(s') && Evolves(s, s') && SameElsewhere(s, s', c)
    ensures Consistent(s) && RunCovers(s, c, n) ==> Consistent(s')
    ensures forall i :: 0 <= i < |s'.jobs| && s'.jobs[i].id.campaign == c ==>
      s'.jobs[i].status == Pending || Done(s'.jobs[i].status)
    ensures |PendingJobs(s', c)| <= s'.threshold
    ensures forall i: nat, m: string :: IsPending(s', c, i) ==> !Fits(s', m, s'.jobs[i].requirements)
    ensures forall i, m :: 0 <= i < |s.jobs| && s.jobs[i].id.campaign == c && SafeSeat(s, c, i, m) ==>
      Done(s'.jobs[i].status)
  {
    hide Final, Tracked, WithinCapacity, Settled, Progress, Threatened;
    var last := Rounds(s, c, n);
    ReachesLastTurn(s, c, n, last);
    LastTurn(last, c);
    EvolvesTrans(s, last, s');
    SameElsewhereTrans(s, last, s', c);
    forall i | 0 <= i < |s'.jobs| && s'.jobs[i].id.campaign == c
      ensures s'.jobs[i].status == Pending || Done(s'.jobs[i].status)
    {
      assert !Holds(s'.jobs[i]);
    }
    forall i, m | 0 <= i < |s.jobs| && s.jobs[i].id.campaign == c && SafeSeat(s, c, i, m)
      ensures Done(s'.jobs[i].status)
    {
      IdleFitsFrame(s, s', c, m, s.jobs[i].requirements);
      assert s'.jobs[i].id == s.jobs[i].id && s'.jobs[i].requirements == s.jobs[i].requirements;
      if IsPending(s', c, i) { IdleFitsIsFits(s', c, m, s'.jobs[i].requirements); }
    }
  }

  /** Node `m` has room for job `i`, other campaigns aside, and autoscaling does not replace it. */
  ghost predicate SafeSeat(s: Sys, c: CampaignId, i: nat, m: string)
    requires i < |s.jobs|
  {
    IdleFits(s, c, m, s.jobs[i].requirements) && !Threatened(s, m)
  }
}
