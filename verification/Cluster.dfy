/**
 * The state of the distributed evolution cloud and the effect of each operation on it.
 *
 * Identifiers that the program derives with SHA-256 (campaigns, jobs, output artifacts) are
 * represented by the values they are derived from, so distinct preimages give distinct ids.
 * Timestamps, error texts and artifact locations carry no control flow and are not represented.
 */
module Cluster {
  import opened Order

  datatype CampaignId = CampaignId(name: string, objective: string)
  datatype JobName = Candidate(index: nat) | Compile(backend: string) | Verification
  datatype JobId = JobId(campaign: CampaignId, name: JobName)
  datatype ContentHash = Output(job: JobId) | External(digest: string)

  datatype JobStatus = Pending | Scheduled | Running | Completed | Failed | Cancelled
  datatype CampaignStatus = CampaignPending | CampaignRunning | CampaignCompleted | CampaignFailed
  datatype NodeStatus = Active | Draining | Down | Suspended

  datatype Resource = Cpu | Memory
  datatype Requirements = Requirements(cpu: nat, memoryMb: nat, regions: seq<string>, capabilities: set<string>)
  datatype Node = Node(region: string, capabilities: set<string>, cpuCapacity: nat, memoryMbCapacity: nat,
                       status: NodeStatus, attested: bool, policyVersion: string)
  datatype Allocation = Allocation(job: JobId, node: string, cpu: nat, memoryMb: nat, live: bool)
  datatype JobState = JobState(id: JobId, requirements: Requirements, policyVersion: string, inputs: seq<ContentHash>,
                               status: JobStatus, attempt: nat, node: Option<string>)

  /** `threshold` is `autoscale_threshold`; `limits` holds each recovery plan's `max_job_attempts`. */
  datatype Sys = Sys(policyVersion: string, threshold: int,
                     nodes: map<string, Node>, allocations: seq<Allocation>, jobs: seq<JobState>,
                     campaigns: map<CampaignId, CampaignStatus>, limits: map<CampaignId, nat>,
                     artifacts: set<ContentHash>)

  const DEFAULT_ATTEMPTS: nat := 3
  const AUTO_CPU: nat := 8
  const AUTO_MEMORY: nat := 8192
  const AUTO_REGION := "auto-region"

  // ---------------------------------------------------------------- capacity

  function Need(req: Requirements, r: Resource): nat {
    if r.Cpu? then req.cpu else req.memoryMb
  }

  function Taken(a: Allocation, r: Resource): nat {
    if r.Cpu? then a.cpu else a.memoryMb
  }

  function Capacity(node: Node, r: Resource): nat {
    if r.Cpu? then node.cpuCapacity else node.memoryMbCapacity
  }

  /** What live allocation `a` takes of resource `r` on node `n`. */
  function Share(a: Allocation, n: string, r: Resource): nat {
    if a.live && a.node == n then Taken(a, r) else 0
  }

  /** The sum that `available_capacity` subtracts from the node's capacity. */
  function Used(allocations: seq<Allocation>, n: string, r: Resource): nat {
    if allocations == [] then 0
    else Used(allocations[..|allocations| - 1], n, r) + Share(allocations[|allocations| - 1], n, r)
  }

  function Free(s: Sys, n: string, r: Resource): nat
    requires n in s.nodes
  {
    var capacity, used := Capacity(s.nodes[n], r), Used(s.allocations, n, r);
    if used <= capacity then capacity - used else 0
  }

  predicate Admits(node: Node, req: Requirements) {
    && node.status == Active
    && node.attested
    && (req.regions == [] || node.region in req.regions)
    && req.capabilities <= node.capabilities
  }

  /** `n` is among `nodes_matching(req)`. */
  predicate Fits(s: Sys, n: string, req: Requirements) {
    && n in s.nodes
    && Admits(s.nodes[n], req)
    && req.cpu <= Free(s, n, Cpu)
    && req.memoryMb <= Free(s, n, Memory)
  }

  function Region(nodes: map<string, Node>, n: string): string {
    if n in nodes then nodes[n].region else ""
  }

  /** The scheduler's sort key: region first, then node id. */
  predicate NodeLe(nodes: map<string, Node>, a: string, b: string) {
    if Region(nodes, a) == Region(nodes, b) then StrLe(a, b) else StrLe(Region(nodes, a), Region(nodes, b))
  }

  lemma NodeLeIsTotalOrder(nodes: map<string, Node>)
    ensures TotalOrder((a, b) => NodeLe(nodes, a, b))
  {
    StrLeIsTotalOrder();
  }

  lemma NodeLeLaws(nodes: map<string, Node>, a: string, b: string, c: string)
    ensures NodeLe(nodes, a, b) || NodeLe(nodes, b, a)
    ensures NodeLe(nodes, a, b) && NodeLe(nodes, b, c) ==> NodeLe(nodes, a, c)
  {
    StrLeIsTotalOrder();
  }

  ghost predicate IsPlacement(s: Sys, req: Requirements, n: string) {
    Fits(s, n, req) && forall m :: Fits(s, m, req) ==> NodeLe(s.nodes, n, m)
  }

  lemma PlacementExists(s: Sys, req: Requirements, k: string)
    requires Fits(s, k, req)
    ensures exists n :: IsPlacement(s, req, n)
  {
    var matching := set n | n in s.nodes && Fits(s, n, req);
    var le := (a, b) => NodeLe(s.nodes, a, b);
    NodeLeIsTotalOrder(s.nodes);
    assert k in matching;
    LeastExists(matching, le);
    var m :| m in matching && forall x :: x in matching ==> le(m, x);
    forall x | Fits(s, x, req) ensures NodeLe(s.nodes, m, x) {
      assert x in matching && le(m, x);
    }
    assert IsPlacement(s, req, m);
  }

  lemma PlacementUnique(s: Sys, req: Requirements, n: string, m: string)
    requires IsPlacement(s, req, n) && IsPlacement(s, req, m)
    ensures n == m
  {
    NodeLeIsTotalOrder(s.nodes);
    var le := (a, b) => NodeLe(s.nodes, a, b);
    assert le(n, m) && le(m, n);
  }

  /** The node the scheduler picks for `req`: the least matching node, if any matches. */
  ghost function Place(s: Sys, req: Requirements): (r: Option<string>)
    ensures r.None? <==> forall n :: !Fits(s, n, req)
    ensures r.Some? ==> IsPlacement(s, req, r.value)
  {
    if k :| Fits(s, k, req) then
      PlacementExists(s, req, k);
      var n :| IsPlacement(s, req, n);
      Some(n)
    else None
  }

  // ---------------------------------------------------------------- scheduling

  function NewAllocation(job: JobState, n: string): Allocation {
    Allocation(job.id, n, job.requirements.cpu, job.requirements.memoryMb, true)
  }

  function Assign(s: Sys, i: nat, n: string): Sys
    requires i < |s.jobs|
  {
    s.(allocations := s.allocations + [NewAllocation(s.jobs[i], n)],
       jobs := s.jobs[i := s.jobs[i].(status := Scheduled, node := Some(n))])
  }

  predicate IsPending(s: Sys, c: CampaignId, i: nat) {
    i < |s.jobs| && s.jobs[i].id.campaign == c && s.jobs[i].status == Pending
  }

  predicate IsScheduled(s: Sys, c: CampaignId, i: nat) {
    i < |s.jobs| && s.jobs[i].id.campaign == c && s.jobs[i].status == Scheduled
  }

  ghost function ScheduleOne(s: Sys, c: CampaignId, i: nat): (r: Sys)
    requires i < |s.jobs|
    ensures |r.jobs| == |s.jobs| && r == s.(allocations := r.allocations, jobs := r.jobs)
  {
    if !IsPending(s, c, i) then s
    else
      match Place(s, s.jobs[i].requirements)
      case None => s
      case Some(n) => Assign(s, i, n)
  }

  ghost function SchedulePass(s: Sys, c: CampaignId, i: nat): (r: Sys)
    requires i <= |s.jobs|
    ensures |r.jobs| == |s.jobs| && r == s.(allocations := r.allocations, jobs := r.jobs)
    decreases |s.jobs| - i
  {
    if i == |s.jobs| then s else SchedulePass(ScheduleOne(s, c, i), c, i + 1)
  }

  lemma SchedulePassNext(s: Sys, c: CampaignId, i: nat)
    requires i <= |s.jobs|
    ensures SchedulePass(s, c, i) == if i < |s.jobs| then SchedulePass(ScheduleOne(s, c, i), c, i + 1) else s
  {}

  predicate Closed(status: CampaignStatus) {
    status == CampaignCompleted || status == CampaignFailed
  }

  ghost function Schedule(s: Sys, c: CampaignId): (r: Sys)
    requires c in s.campaigns
    ensures r.campaigns.Keys == s.campaigns.Keys && |r.jobs| == |s.jobs|
    ensures r.nodes == s.nodes && r.threshold == s.threshold && r.policyVersion == s.policyVersion
  {
    if Closed(s.campaigns[c]) then s
    else
      var after := SchedulePass(s, c, 0);
      if after.jobs != s.jobs && s.campaigns[c] == CampaignPending
      then after.(campaigns := after.campaigns[c := CampaignRunning])
      else after
  }

  // ---------------------------------------------------------------- execution and recovery

  function Release(allocations: seq<Allocation>, id: JobId): (r: seq<Allocation>)
    ensures |r| == |allocations|
  {
    seq(|allocations|, k requires 0 <= k < |allocations| =>
      if allocations[k].job == id then allocations[k].(live := false) else allocations[k])
  }

  predicate Done(status: JobStatus) {
    status == Completed || status == Failed || status == Cancelled
  }

  predicate AllCompleted(jobs: seq<JobState>, c: CampaignId) {
    forall i :: 0 <= i < |jobs| && jobs[i].id.campaign == c ==> jobs[i].status == Completed
  }

  predicate AllDone(jobs: seq<JobState>, c: CampaignId) {
    forall i :: 0 <= i < |jobs| && jobs[i].id.campaign == c ==> Done(jobs[i].status)
  }

  predicate AnyFailed(jobs: seq<JobState>, c: CampaignId) {
    exists i :: 0 <= i < |jobs| && jobs[i].id.campaign == c && jobs[i].status == Failed
  }

  predicate HasJobs(jobs: seq<JobState>, c: CampaignId) {
    exists i :: 0 <= i < |jobs| && jobs[i].id.campaign == c
  }

  function StatusOf(jobs: seq<JobState>, c: CampaignId): CampaignStatus {
    if !HasJobs(jobs, c) then CampaignPending
    else if AllCompleted(jobs, c) then CampaignCompleted
    else if AllDone(jobs, c) && AnyFailed(jobs, c) then CampaignFailed
    else CampaignRunning
  }

  function UpdateStatus(s: Sys, c: CampaignId): Sys {
    s.(campaigns := s.campaigns[c := StatusOf(s.jobs, c)])
  }

  function Limit(s: Sys, c: CampaignId): nat {
    if c in s.limits then s.limits[c] else DEFAULT_ATTEMPTS
  }

  /** `get_recovery_plan` creates the default plan for a campaign that has none. */
  function EnsurePlan(s: Sys, c: CampaignId): Sys {
    s.(limits := s.limits[c := Limit(s, c)])
  }

  /** One more attempt, or failure once the plan's attempts are used up. */
  function Retry(job: JobState, limit: nat): JobState {
    if job.attempt >= limit then job.(status := Failed)
    else job.(attempt := job.attempt + 1, status := Pending, node := None)
  }

  datatype Outcome = Success | Permanent | Transient

  /** The node a job runs on; `node_id or ""` when it has none. */
  function NodeOf(job: JobState): string {
    if job.node.Some? then job.node.value else ""
  }

  predicate NodeDown(nodes: map<string, Node>, job: JobState) {
    NodeOf(job) !in nodes || nodes[NodeOf(job)].status != Active
  }

  function Execution(s: Sys, job: JobState): Outcome {
    if NodeDown(s.nodes, job) then Transient
    else if !s.nodes[NodeOf(job)].attested then Permanent
    else if s.nodes[NodeOf(job)].policyVersion != job.policyVersion then Permanent
    else if exists h :: h in job.inputs && h !in s.artifacts then Permanent
    else Success
  }

  function Settle(s: Sys, i: nat, outcome: Outcome): Sys
    requires i < |s.jobs|
  {
    var job := s.jobs[i];
    var c := job.id.campaign;
    var released := s.(allocations := Release(s.allocations, job.id));
    match outcome
    case Success =>
      released.(jobs := s.jobs[i := job.(status := Completed)], artifacts := s.artifacts + {Output(job.id)})
    case Permanent =>
      UpdateStatus(EnsurePlan(released.(jobs := s.jobs[i := job.(status := Failed)]), c), c)
    case Transient =>
      UpdateStatus(EnsurePlan(released.(jobs := s.jobs[i := Retry(job, Limit(s, c))]), c), c)
  }

  function ExecuteOne(s: Sys, c: CampaignId, i: nat): (r: Sys)
    requires i < |s.jobs|
    ensures |r.jobs| == |s.jobs| && s.campaigns.Keys <= r.campaigns.Keys
    ensures r.nodes == s.nodes && r.threshold == s.threshold && r.policyVersion == s.policyVersion
  {
    if IsScheduled(s, c, i) then Settle(s, i, Execution(s, s.jobs[i])) else s
  }

  function ExecutePass(s: Sys, c: CampaignId, i: nat): (r: Sys)
    requires i <= |s.jobs|
    ensures |r.jobs| == |s.jobs| && s.campaigns.Keys <= r.campaigns.Keys
    ensures r.nodes == s.nodes && r.threshold == s.threshold && r.policyVersion == s.policyVersion
    decreases |s.jobs| - i
  {
    if i == |s.jobs| then s else ExecutePass(ExecuteOne(s, c, i), c, i + 1)
  }

  lemma ExecutePassNext(s: Sys, c: CampaignId, i: nat)
    requires i <= |s.jobs|
    ensures ExecutePass(s, c, i) == if i < |s.jobs| then ExecutePass(ExecuteOne(s, c, i), c, i + 1) else s
  {}

  predicate HasScheduled(s: Sys, c: CampaignId) {
    exists i :: 0 <= i < |s.jobs| && IsScheduled(s, c, i)
  }

  function Execute(s: Sys, c: CampaignId): (r: Sys)
    requires c in s.campaigns
    ensures c in r.campaigns && |r.jobs| == |s.jobs|
    ensures r.nodes == s.nodes && r.threshold == s.threshold && r.policyVersion == s.policyVersion
  {
    if Closed(s.campaigns[c]) then s else UpdateStatus(ExecutePass(s, c, 0), c)
  }

  // ---------------------------------------------------------------- nodes and campaigns

  function Register(s: Sys, n: string, node: Node): Sys {
    s.(nodes := s.nodes[n := node])
  }

  /** A node whose policy version differs from the cluster's is registered suspended and unattested. */
  function NewNode(s: Sys, region: string, capabilities: set<string>, cpu: nat, memoryMb: nat,
                   policyVersion: string): Node {
    var attested := policyVersion == s.policyVersion;
    Node(region, capabilities, cpu, memoryMb, if attested then Active else Suspended, attested, policyVersion)
  }

  function AutoNode(s: Sys): Node {
    NewNode(s, AUTO_REGION, {}, AUTO_CPU, AUTO_MEMORY, s.policyVersion)
  }

  function Decimal(n: nat): (d: string)
    ensures |d| >= 1 && (|d| == 1 <==> n < 10)
  {
    if n < 10 then [('0' as int + n) as char] else Decimal(n / 10) + [('0' as int + n % 10) as char]
  }

  function AutoId(k: nat): string { "node_auto_" + Decimal(k) }

  function PendingJobs(s: Sys, c: CampaignId): set<int> {
    set i | 0 <= i < |s.jobs| && IsPending(s, c, i)
  }

  function Autoscale(s: Sys, pending: nat): Sys {
    if pending <= s.threshold then s else Register(s, AutoId(|s.nodes| + 1), AutoNode(s))
  }

  function FailOne(s: Sys, n: string, i: nat): (r: Sys)
    requires i < |s.jobs|
    ensures |r.jobs| == |s.jobs|
  {
    var job := s.jobs[i];
    if job.node == Some(n) && (job.status == Scheduled || job.status == Running)
    then Settle(s, i, Transient)
    else s
  }

  function FailPass(s: Sys, n: string, i: nat): Sys
    requires i <= |s.jobs|
    decreases |s.jobs| - i
  {
    if i == |s.jobs| then s else FailPass(FailOne(s, n, i), n, i + 1)
  }

  lemma FailPassNext(s: Sys, n: string, i: nat)
    requires i <= |s.jobs|
    ensures FailPass(s, n, i) == if i < |s.jobs| then FailPass(FailOne(s, n, i), n, i + 1) else s
  {}

  function MarkDown(s: Sys, n: string): Sys
    requires n in s.nodes
  {
    s.(nodes := s.nodes[n := s.nodes[n].(status := Down)])
  }

  function FailNode(s: Sys, n: string): Sys
    requires n in s.nodes
  {
    FailPass(MarkDown(s, n), n, 0)
  }

  /** `detect_stale_nodes`: `late` are the nodes whose heartbeat is too old; only active ones go down. */
  function DropStale(s: Sys, late: set<string>): Sys {
    s.(nodes := map n | n in s.nodes ::
         if n in late && s.nodes[n].status == Active then s.nodes[n].(status := Down) else s.nodes[n])
  }

  function AddJob(s: Sys, id: JobId, req: Requirements, policyVersion: string): Sys {
    if exists i :: 0 <= i < |s.jobs| && s.jobs[i].id == id then s
    else s.(jobs := s.jobs + [JobState(id, req, policyVersion, [], Pending, 0, None)])
  }

  function AddJobs(s: Sys, c: CampaignId, names: seq<JobName>, req: Requirements, policyVersion: string): Sys
    decreases |names|
  {
    if names == [] then s
    else AddJobs(AddJob(s, JobId(c, names[0]), req, policyVersion), c, names[1..], req, policyVersion)
  }

  function JobNames(candidates: nat, backends: seq<string>): seq<JobName> {
    seq(candidates, (k: nat) => Candidate(k))
    + seq(|backends|, k requires 0 <= k < |backends| => Compile(backends[k]))
    + [Verification]
  }

  /**
   * A campaign needs a candidate, and its plan an attempt. The campaign is stored before the plan is made,
   * so one whose plan is refused stays behind without jobs.
   */
  function Submit(s: Sys, c: CampaignId, candidates: int, backends: seq<string>, policyVersion: string,
                  req: Requirements, maxAttempts: int): Sys
  {
    if c in s.campaigns || candidates < 1 then s
    else
      var stored := s.(campaigns := s.campaigns[c := CampaignPending]);
      if maxAttempts < 1 then stored
      else AddJobs(stored.(limits := s.limits[c := maxAttempts]), c, JobNames(candidates, backends), req, policyVersion)
  }
}
