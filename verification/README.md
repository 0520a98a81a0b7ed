# A verified model of the evolution platform's core

This project models, in Dafny, the parts of the platform whose behaviour is hardest to see from the
code: the distributed job allocator, the Pareto engine, the graph algorithms, diversity selection, the
rewriting of architecture payloads (ISR) by mutation and crossover, the hash-chained logs, the governed
promotion lifecycle, and the settlement of conflicting recommendations. `dafny verify dfyconfig.toml`
checks everything.

Code that changes fields or dictionaries step by step is modelled by classes and methods with loops.
Each method is proved against a function on values, and the properties are lemmas about those functions,
over every input, every run or every reachable state.

## The modules

| group | modules |
|---|---|
| orders, sorting, options | `Order` |
| job allocator | `Cluster` (state and operations), `ClusterSafety` (capacity and ownership), `ClusterHistory` (campaign status), `CampaignRuns` (the driver loop), `ClusterReach` (all interleavings), `CampaignOutcomes` (what becomes of jobs), `ClusterWitnesses` (clusters on which a promise fails), `ClusterEngine` (the objects) |
| Pareto engine | `ParetoSort`, `ParetoFronts`, `ParetoCrowding`, `ParetoSelect` |
| graphs | `DependencyCycle`, `GraphQueries` (what is asked), `GraphStore` (the indexed store) |
| diversity selection | `Diversity` |
| payload rewriting | `Json`, `Isr` (API names and the verifier), `Mutation`, `MutationChecks`, `CrossoverRecords`, `ServiceMerging`, `DomainCrossover`, `BlockCrossover` |
| logs and promotion | `HashChain`, `SafetyInterlocks`, `Promotion`, `PromotionEngine` |
| collaboration | `Collaboration`, `CollaborationSafety`, `CollaborationEngine` |

## Reading the model

- Ids that the program derives with SHA-256 are represented by what they are derived from. Where a hash
  matters, it is an arbitrary function; where a claim depends on it, either the claim holds or a collision
  between the very values at hand is exhibited.
- Floats are exact reals. Timestamps, random ids, governance answers, `str`, `int(...)` and `lower` are
  parameters, so each result holds for all of them; a call that can raise answers with `None`.
- An exception is an outcome of its own: `Err`, `None` or a false flag.

## Where the code differs from what it promises

- `run_campaign` does not always return: with more than `autoscale_threshold` jobs that neither a present
  node nor the next autoscaled one can take, it autoscales for ever (`CampaignRuns.EndsIffFewBlocked`; a
  reachable cluster: `ClusterWitnesses.MarsCampaignNeverEnds`). It can do so although every job fits an empty
  autoscaled node: where the name autoscaling comes to next is taken, no node is ever added
  (`CampaignRuns.EndsIffNextTaken`, `ClusterWitnesses.TakenNameNeverEnds`). A campaign that has the cluster
  to itself and whose jobs fit an empty autoscaled node always ends (`CampaignRuns.EndsWhenAlone`).
- `register_node` overwrites an existing node; capacity is respected afterwards exactly when the new
  capacity covers what is still allocated (`ClusterSafety.RegisterKeepsIffCovers`; a reachable cluster:
  `ClusterWitnesses.OverwritingOvercommits`). Autoscaling overwrites in the same way when a node was
  registered by hand under the name it hands out next (`CampaignRuns.AutoscaleKeepsIffCovers`,
  `CampaignRuns.RoundKeepsIffCovers`; a reachable cluster: `ClusterWitnesses.AutoscalingOvercommits`).
  Ownership, attempts and statuses stay right even then (`ClusterReach.StepSteady`).
- `submit_campaign` stores a campaign before it makes the recovery plan. If the plan is refused, the campaign
  stays behind without jobs, and later submissions return it (`ClusterEngine.Engine.SubmitCampaign`).
- With a positive `epsilon` the Pareto sort can drop candidates, even all of them
  (`ParetoFronts.DroppedIffEntangled`, `ParetoFronts.ToleranceCanDropEverything`). The front of each
  ranked candidate is the longest chain above it for every `epsilon`, and the selection is closed upward
  for every `epsilon`.
- `find_paths` checks its limit after adding a path, so a limit below one still returns a path
  (`GraphStore.FindNoPaths`).
- Mutation paths "1" and "01" address the same list element (`Mutation.PartsIsUntouched`). Although `apply`
  records the mutation, an operation under `evolution` can make the candidate equal to its base
  (`MutationChecks.EditingProvenanceCanHideTheChange`), exactly when the base already ends with that record
  and the operations take it away (`Mutation.CandidateIsBaseIff`).
- Domain crossover files domains and services by name, and the last of a name wins. A parent that repeats a
  name can lose its own public APIs in its child (`DomainCrossover.RepeatedDomainLosesApi`); it loses none
  exactly when every API of an overwritten entry still occurs in the child
  (`DomainCrossover.LosesNothingIff`, `DomainCrossover.LosesNothingIffBefore`).
- The genome-guided crossover documents that inactive families stay inherited from the base parent. The
  code removes every block first, so they are dropped (`BlockCrossover.InactiveBlocksDropped`; concrete parents: `BlockCrossover.InactiveBlockLost`).
- Policy-block crossover tells the parents apart by their ids. With equal ids both children copy the
  first parent (`BlockCrossover.SharedBlocksSplit`, `BlockCrossover.LoneBlocksKept`; concrete parents:
  `BlockCrossover.EqualIdsLoseBlocks`).
- A promotion request whose governance gateway raises during creation is stored although the creation
  failed (`Promotion.RefusalChangesNothing`, `Promotion.InterruptedCreationIff`,
  `Promotion.AnInterruptedCreation`).
- A policy that fails closed without a gateway keeps governed requests out only if it submits new requests
  at once. With `auto_submit_governance` off a request is parked as pending, and a person can approve and
  promote it without any ruling (`Promotion.FailsClosedIff`, `Promotion.PromotedUnasked`).
- `finalize_task` keeps the winners of conflicts detected before later recommendations arrived, so it can
  select opposing actions for one target. It selects one recommendation per contested target exactly when
  no stored conflict is out of date (`CollaborationSafety.OneEachIffUpToDate`), and the selected agree about
  every target exactly when the stored winners do (`CollaborationSafety.DecisionAgreesIff`,
  `CollaborationSafety.LateRecommendationOpposes`). A task is never escalated.

## Model

| member | source | states |
|---|---|---|
| ClusterReach.ReachableStatesAreSafe | distributed_evolution/engine.py:73-386 | in every state reachable by any operations at all, each scheduled or running job owns exactly one live allocation, on its node and of its size, others none; no job exceeds its plan's attempts; each campaign is completed iff all its jobs are, failed iff all are done and one failed. No node is over-committed, if every registration, by hand or by autoscaling, covers what is allocated under its name, and every run is one that ends |
| ClusterReach.ClosedCampaignsStayClosed | distributed_evolution/engine.py:644-672 | a completed or failed campaign keeps its status and its jobs through every later operation, whatever the operations are |
| ClusterReach.StepSteady | distributed_evolution/engine.py:73-386 | any operation at all, overwriting registrations and unfinished runs included, keeps ownership and the statuses right and never revives a finished job |
| ClusterReach.StepKeeps | distributed_evolution/engine.py:73-386 | one operation keeps the whole invariant, capacity included, unless a registration, by hand or by autoscaling, does not cover what is allocated under its name |
| CampaignRuns.RegisterKeepsFreshIff | distributed_evolution/resources.py:37-71 | registering a node leaves autoscaling its names if and only if it is a known node or not named as a later autoscaled one |
| CampaignRuns.AutoscaleKeepsIffCovers | distributed_evolution/resources.py:208-231 | autoscaling keeps the invariant if and only if the new node covers what is allocated under its name |
| ClusterWitnesses.MarsCampaignNeverEnds | distributed_evolution/engine.py:290-329 | a reachable cluster on which `run_campaign` never returns: four jobs for a region nobody offers |
| ClusterWitnesses.TakenNameNeverEnds | distributed_evolution/engine.py:290-329 | a reachable cluster on which `run_campaign` never returns although every job fits an empty autoscaled node: the next name belongs to a node just like an autoscaled one |
| ClusterWitnesses.OverwritingOvercommits | distributed_evolution/resources.py:37-71 | a reachable cluster that registering a node again over-commits |
| ClusterWitnesses.AutoscalingOvercommits | distributed_evolution/resources.py:208-231 | a reachable cluster that one turn of `run_campaign` over-commits, by autoscaling over a larger node |
| CampaignRuns.EndsIffFewBlocked | distributed_evolution/engine.py:290-329 | on any nodes, `run_campaign` returns if at most `autoscale_threshold` jobs of the campaign are in doubt, and only if at most that many can be placed neither on a present node nor on the next autoscaled one; exactly then, wherever no node that differs from an autoscaled one stands under the next taken autoscale name |
| CampaignRuns.EndsIffFresh | distributed_evolution/engine.py:290-329 | where no node carries a later autoscale name, `run_campaign` returns if and only if at most `autoscale_threshold` jobs fit neither a present node nor an empty autoscaled one |
| CampaignRuns.EndsIffNextTaken | distributed_evolution/engine.py:290-329 | where the next autoscale name belongs to a node just like an autoscaled one, `run_campaign` returns if and only if at most `autoscale_threshold` jobs fit no present node |
| CampaignRuns.EndsWhenAlone | distributed_evolution/engine.py:290-329 | on any nodes, `run_campaign` returns if no other campaign holds a node and every unfinished job fits an empty autoscaled node |
| CampaignRuns.RoundDecreases | distributed_evolution/engine.py:290-329 | the termination measure on any nodes: with at most the threshold of jobs in doubt, each further turn uses up attempts or provides a node for a job that can use it |
| CampaignRuns.BlockedInvariant | distributed_evolution/resources.py:208-231 | on any nodes, a turn of the loop, autoscaling included, makes no unplaceable job placeable and puts no further job in doubt; where nothing is threatened the set of unplaceable jobs stays as it is |
| CampaignRuns.RoundKeepsIffCovers | distributed_evolution/engine.py:290-329 | one turn of the loop keeps capacity respected if and only if the node it autoscales covers what is allocated under its name |
| CampaignRuns.FreshRunsCover | distributed_evolution/engine.py:290-329 | where no node carries a name autoscaling has yet to hand out, every autoscale of a run covers |
| CampaignRuns.RunOutcome | distributed_evolution/engine.py:290-329 | on return no job of the campaign is scheduled or running, at most the threshold are pending, none of these fits any node, every job some node had room for is finished unless autoscaling may replace that node, other campaigns are untouched, and capacity stays respected if every autoscale covers |
| CampaignRuns.TurnedJob | distributed_evolution/engine.py:200-288 | what scheduling and executing once can do to each job: stay pending, finish, or come back from a lost node for another attempt |
| CampaignOutcomes.SubmittedThenRun | distributed_evolution/engine.py:112-329 | a campaign submitted to any reachable cluster and run: every job that finishes completes if the campaign has the cluster's policy version and fails if it has another, and the campaign is completed, or failed, exactly when none is left pending |
| CampaignOutcomes.RunFates | distributed_evolution/engine.py:290-329 | what a run leaves of each job: pending; completed, only under the cluster's policy version; or failed, only under another or with its last attempt lost with its node; and the campaign's status tells which |
| CampaignOutcomes.ExecuteRuns | distributed_evolution/engine.py:235-288 | a scheduled job on an active node completes if and only if the node is attested, has the job's policy version, and the job's inputs are stored when its turn comes, else it fails for good; without such a node it is retried or fails; exactly the outputs of the completed jobs are added to the artifacts; no other job changes; the four campaign statuses tell the jobs' statuses |
| CampaignOutcomes.ScheduledWell | distributed_evolution/engine.py:200-233 | each job scheduled goes to an active, attested node in a region and with the capabilities it asks for; each one left pending suits no node beside what the jobs on it asked for |
| CampaignOutcomes.ScheduledStatus | distributed_evolution/engine.py:200-233 | scheduling makes a pending campaign running exactly when it takes one of its jobs, and changes no other status |
| CampaignOutcomes.PlacedFirst | distributed_evolution/scheduler.py:19-43 | a suitable node exists if and only if one is chosen, and it is the first by region and then by id |
| CampaignOutcomes.LostNode | distributed_evolution/engine.py:335-386 | the lost node, and no other, goes down; each job that held it has one more attempt and no node, or fails with its attempts used up; every other job is equal |
| CampaignOutcomes.StaleNodes | distributed_evolution/resources.py:93-111 | exactly the active nodes that are late go down |
| CampaignOutcomes.SubmittedJobs | distributed_evolution/engine.py:112-198 | a new campaign is pending with its plan and has exactly one fresh job per candidate, per different backend, and for verification; nothing else changes |
| ClusterSafety.UsedIsDemand | distributed_evolution/resources.py:113-132 | the capacity charged to a node is exactly what the jobs placed on it asked for |
| ClusterSafety.AssignKeeps | distributed_evolution/scheduler.py:19-43 | placing a pending job on a matching node keeps ownership and capacity |
| ClusterSafety.SettleKeeps | distributed_evolution/engine.py:546-635 | success, permanent failure and retry each release the job's node and keep the invariant |
| ClusterSafety.RegisterKeepsIffCovers | distributed_evolution/resources.py:37-71 | registering a node keeps the invariant if and only if its capacity covers what is still allocated under its id |
| ClusterSafety.SubmitKeeps | distributed_evolution/engine.py:112-198 | submitting a campaign keeps the invariant |
| ClusterHistory.FailNodeStep | distributed_evolution/engine.py:335-386 | losing a node keeps the invariant; jobs that held it are retried or failed, every other job is unchanged, and no job holds the node afterwards |
| ClusterHistory.FailPassFrame | distributed_evolution/engine.py:335-386 | the recovery loop changes exactly the jobs that held the node, each as its plan says |
| ClusterHistory.ClosedForever | distributed_evolution/engine.py:644-672 | between any two states of one history a closed campaign and its jobs stay equal |
| ClusterEngine.ResourceManager.Allocate | distributed_evolution/resources.py:134-155 | allocates if and only if the node exists and has the room, else changes nothing |
| ClusterEngine.ResourceManager.ReleaseAllocationsForJob | distributed_evolution/resources.py:157-172 | releases the job's live allocations and counts them |
| ClusterEngine.ResourceManager.NodesMatching | distributed_evolution/resources.py:174-206 | exactly the active, attested nodes with region, capabilities and room |
| ClusterEngine.ResourceManager.AvailableCapacity | distributed_evolution/resources.py:113-132 | capacity minus live allocations, never below zero |
| ClusterEngine.ResourceManager.AutoscaleNodes | distributed_evolution/resources.py:208-231 | adds one fresh node when more jobs than the threshold are pending |
| ClusterEngine.Scheduler.ScheduleJob | distributed_evolution/scheduler.py:19-43 | places a pending job on the first matching node by region and id; the allocation never lacks capacity |
| ClusterEngine.FaultTolerance.RecoverJob | distributed_evolution/fault.py:44-58 | one more attempt, or failure once the plan's attempts are used up |
| ClusterEngine.FaultTolerance.CreateRecoveryPlan | distributed_evolution/fault.py:21-34 | files a plan of at least one attempt, and refuses any other |
| ClusterEngine.Engine.ScheduleCampaign | distributed_evolution/engine.py:200-233 | the new state is the scheduling pass over the campaign's pending jobs in order, whose effect is `CampaignOutcomes.ScheduledWell` |
| ClusterEngine.Engine.ExecuteReadyJobs | distributed_evolution/engine.py:235-288 | the new state is the execution pass with its failure handling and status update, whose effect on each job, node and artifact is `CampaignOutcomes.ExecuteRuns` |
| ClusterEngine.Engine.HandleJobFailure | distributed_evolution/engine.py:595-635 | permanent failure or retry, release of the node and new campaign status |
| ClusterEngine.Engine.FailNodeAndRecover | distributed_evolution/engine.py:335-386 | the node goes down, each job on it is retried or failed, and the ids returned are those of the jobs with attempts left |
| ClusterEngine.Engine.SubmitCampaign | distributed_evolution/engine.py:112-198 | a new campaign with its pending jobs, nothing for a known one, an error without a candidate, and an error that leaves the campaign behind without jobs for a plan of no attempts |
| ClusterEngine.Engine.DriveOnce | distributed_evolution/engine.py:290-329 | one turn of the driver loop and whether it made progress |
| ClusterEngine.Engine.RunCampaign | distributed_evolution/engine.py:290-329 | an unknown campaign is an error; where the loop ends, the method terminates in the state of the loop's last turn and leaves no placeable job pending |
| ParetoSort.NonDominatedSort | evolution/pareto.py:60-136 | the k-th list holds without repetition exactly layer k of the dominance order; counters never go below zero; the lists stop where the layers do |
| ParetoSort.Peel | evolution/pareto.py:105-136 | peeling one front leaves each counter at the number of dominators not yet peeled |
| ParetoSort.DominanceAsymmetric | evolution/pareto.py:29-57 | for any tolerance two candidates never dominate each other |
| ParetoSort.DominanceTransitive | evolution/pareto.py:29-57 | without tolerance dominance is transitive |
| ParetoSort.ComputeDominates | evolution/pareto.py:29-57 | at least as good everywhere within the tolerance and better somewhere beyond it |
| ParetoFronts.FrontIsLongestChain | evolution/pareto.py:60-136 | a candidate is in front k iff the longest dominance chain ending in it has k others before it, for every tolerance |
| ParetoFronts.FrontsAreDisjoint | evolution/pareto.py:60-136 | no candidate appears in two fronts |
| ParetoFronts.DominatorsComeFirst | evolution/pareto.py:60-136 | a dominator sits in a strictly earlier front |
| ParetoFronts.DroppedIffEntangled | evolution/pareto.py:60-136 | sorting drops exactly the candidates of sets that are dominated from within |
| ParetoFronts.ZeroToleranceRanksAll | evolution/pareto.py:60-136 | without tolerance every candidate is in some front |
| ParetoFronts.ToleranceCanDropEverything | evolution/pareto.py:60-136 | a concrete table of three candidates that dominate each other in a circle and are all dropped |
| ParetoCrowding.CrowdingDistance | evolution/pareto.py:139-199 | the distances are those of overwriting end points and accumulating gaps, objective by objective |
| ParetoCrowding.CrowdingBands | evolution/pareto.py:139-199 | end points of some objective score in [LARGE, LARGE + m], all others in [0, m] |
| ParetoCrowding.GapsTelescope | evolution/pareto.py:139-199 | the interior gaps of one objective add up to a difference of end scores |
| ParetoCrowding.GapsAtMostTwo | evolution/pareto.py:139-199 | the interior gaps of one objective are together at most two |
| ParetoSelect.SelectPareto | evolution/pareto.py:202-330 | on the evaluations alone: only candidates with an eligible evaluation are considered and selected, the last one counting; whatever outdoes a selected candidate in the measured objectives is selected, and nothing outdoes the best; without tolerance the number selected is exact; the report lists each front with its candidates' ranks, values and order |
| ParetoSelect.SelectionTells | evolution/pareto.py:202-330 | the table of values holds exactly what the evaluations that count measured, zero where one lacks an objective; the laws of the selection restated on these measurements |
| ParetoSelect.SelectionSize | evolution/pareto.py:202-330 | without tolerance exactly min(max_selected, eligible) distinct ids, else bounded by the ranked ones |
| ParetoSelect.SelectionClosedUpward | evolution/pareto.py:202-330 | whatever dominates a selected candidate is selected |
| ParetoSelect.BestIsUndominated | evolution/pareto.py:310-330 | the single chosen candidate is dominated by none |
| ParetoSelect.EndPointsFirst | evolution/pareto.py:286-296 | in a front that is cut off, end points are selected before all others |
| DependencyCycle.HasDependencyCycle | evolution/simulation.py:116-148 | true if and only if the graph of known services has a directed cycle, self-loops included |
| DependencyCycle.CycleDetector.Visit | evolution/simulation.py:126-142 | a visit that finds no cycle finishes its node; one that finds one has a gray path closing it |
| DependencyCycle.WalkStaysFinished | evolution/simulation.py:126-142 | no walk leaves the finished nodes |
| GraphStore.InMemoryGraphStore.UpsertRelation | knowledge/store.py:108-119 | the relation is stored or replaced and both indexes keep agreeing with the table, moved end points included |
| GraphStore.InMemoryGraphStore.Neighbors | knowledge/store.py:124-183 | exactly the known nodes within depth hops, and each matching relation touching a node nearer than depth exactly once |
| GraphStore.InMemoryGraphStore.FindPaths | knowledge/store.py:185-242 | terminates with different simple paths from source to target in order of length, none longer than an omitted one; complete when below the limit |
| GraphStore.FindNoPaths | knowledge/store.py:185-242 | asked for no path, the search still returns one |
| GraphQueries.WithinIsWalks | knowledge/store.py:124-183 | a node is within k hops if and only if a walk of at most k matching relations leads to it |
| GraphQueries.EdgesWithinAre | knowledge/store.py:124-183 | the relations of a neighbourhood are exactly those of an admitted type that can be followed from a node nearer than the depth |
| GraphQueries.SimpleMeansSimple | knowledge/store.py:185-242 | the paths searched visit pairwise different nodes and chain their relations |
| GraphQueries.AnswersAreRoutes | knowledge/store.py:185-242 | what the search looks for are exactly the routes: different nodes from source to target, each joined to the next by a relation of an admitted type, at most depth of them |
| Diversity.JaccardTriangle | evolution/population.py:98-111 | Jaccard distance satisfies the triangle inequality, empty sets included |
| Diversity.DistanceTriangle | evolution/population.py:130-137 | the distance used for selection is a bounded symmetric pseudo-metric, registered candidates or not |
| Diversity.SelectDiverse | evolution/population.py:170-220 | greedy farthest-point choices with the stated size and distinctness; a candidate that repeats the features of a reference or an earlier choice is taken only when every remaining one does |
| Diversity.DistanceIsUnsharedPart | evolution/population.py:98-137 | the distance is the share of the features of two candidates that only one has; no features at all are alike, an unregistered candidate is at distance one |
| Diversity.AtNoDistance | evolution/population.py:98-137 | distance zero if and only if both are registered with the same features |
| Diversity.GreedyRepeatsLast | evolution/population.py:170-220 | any greedy choice takes a repeated feature set only when nothing else remains |
| Diversity.FindFarthest | evolution/population.py:184-216 | one scan finds the farthest remaining candidate |
| Diversity.GreedyIsHalfOptimal | evolution/population.py:170-220 | however as many candidates are chosen instead, the greedy choice keeps everything at least half as far apart, existing ids included |
| Mutation.MutationEngine.Apply | evolution/mutation.py:173-224 | runs the operations on a copy, records the mutation, adds the governance baseline; what each kind of operation leaves is `Mutation.LastOperationShows` |
| Mutation.GetContainer | evolution/mutation.py:24-58 | the value a path leads to, or an error |
| Mutation.GetParentAndKey | evolution/mutation.py:60-95 | the value that holds the last segment of a path, and that segment, or an error |
| Mutation.Perform | evolution/mutation.py:98-203 | each operation finds its container or parent by the loop and changes it, and that is the edit |
| Mutation.EditFrame | evolution/mutation.py:60-167 | an edit leaves every path it does not touch reading as before |
| Mutation.SetReadsBack | evolution/mutation.py:98-123 | after setting a value its path reads that value |
| Mutation.RemoveTakesOut | evolution/mutation.py:125-149 | a removal takes exactly the addressed entry out: a dictionary loses the key and nothing else, the elements of a list behind it move up by one |
| Mutation.MergeReadsBack | evolution/mutation.py:152-167 | merging two dictionaries keeps the keys of both, the new values winning; otherwise the path reads the new value |
| Mutation.AddAppends | evolution/mutation.py:184-193 | adding an item appends it to the list the path leads to |
| Mutation.EditRaisesIff | evolution/mutation.py:60-193 | exactly when an operation raises, from what its path reads |
| Mutation.LastOperationShows | evolution/mutation.py:173-224 | in the candidate, the last operation on a path shows: a value that was set is read, an entry removed from a dictionary is gone, an item is at the end of its list, a value that was not merged is read |
| Mutation.LastMergeShows | evolution/mutation.py:173-224 | the last merge on a path into a dictionary shows key by key |
| Mutation.LastListRemovalShows | evolution/mutation.py:173-224 | the last removal from a list shows: the rest has moved up |
| Mutation.CandidateNamesItsMutation | evolution/mutation.py:205-224 | a candidate's last record carries the specification's id, operator, family, gene and rationale, and the candidate has a `governance` |
| Mutation.PartsIsUntouched | evolution/mutation.py:60-167 | paths with different keys at a common position are untouched by each other's edits, unless a list removal moves what is read |
| Mutation.ApplyFrame | evolution/mutation.py:173-224 | candidate and base agree on every untouched path outside `evolution` and `governance` |
| Mutation.ApplyFrameByPaths | evolution/mutation.py:173-224 | the same for every path that parts from the path of each operation, as read off the specification alone |
| Mutation.CandidateIsBaseIff | evolution/mutation.py:205-224 | the candidate is its base if and only if the base ends with this record, has a `governance`, and the operations turn it into itself without that record |
| Mutation.ProvenanceGrowsByOne | evolution/mutation.py:205-224 | without operations under `evolution` the provenance list grows by exactly one record |
| Mutation.ProvenanceNeverEmpty | evolution/mutation.py:205-224 | whatever the operations, the provenance holds this mutation's record |
| MutationChecks.MutantsHaveProvenance | evolution/verification.py:54-62 | the verifier never reports missing provenance for a mutant |
| MutationChecks.MutantsAreChanged | evolution/verification.py:44-52 | unless the base ends with this record and `evolution` was edited, a mutant differs from its base, and equal hashes exhibit a collision of the two |
| MutationChecks.EditingProvenanceCanHideTheChange | evolution/mutation.py:205-224 | a concrete specification whose candidate equals its base |
| Isr.CollectApiNames | evolution/utils.py:81-98 | exactly the API names of all services in domains and at the top |
| Isr.Verify | evolution/verification.py:22-94 | each issue is reported if and only if its condition holds; valid iff no error remains |
| ServiceMerging.NormalForms | evolution/recombination.py:427-510 | a normal form keeps every field of a domain or service and adds a name and empty lists where they are missing |
| ServiceMerging.MergeApis | evolution/recombination.py:512-531 | all base APIs in order, then the others whose merge name is new; nothing of the base is lost, and with plain names nothing of either |
| ServiceMerging.FiledIsKept | evolution/recombination.py:452-456 | filing by name keeps exactly the API names of the last entry of each name |
| ServiceMerging.MergeService | evolution/recombination.py:458-482 | the base service with the other's APIs and dependencies added |
| ServiceMerging.MergeServices | evolution/recombination.py:447-487 | keeps what filing the base list keeps, adds nothing but the other list's APIs, and with plain names all of them; unique names in order |
| DomainCrossover.MergeDomains | evolution/recombination.py:397-425 | the API names after merging lie between what is kept of the base and what both lists can give, and equal the latter with plain names; sorted by name |
| DomainCrossover.Recombine | evolution/recombination.py:361-395 | both children with the API names that merging and copying give them, or an error where the crossover record cannot be added |
| DomainCrossover.KeptOrLost | evolution/recombination.py:397-425 | every API name of a parent's domains is kept or belongs to an overwritten entry |
| DomainCrossover.LosesNothingIff | evolution/verification.py:64-85 | no public API of its own parent is missing from a child if and only if every API name of an overwritten entry still occurs in it |
| DomainCrossover.LosesNothingIffBefore | evolution/verification.py:64-85 | with plain API names, the same read off the two parents |
| DomainCrossover.UniqueNamesLoseNothing | evolution/recombination.py:361-395 | with unique names a child has every API name of its own parent, and with plain names exactly those and the partner's |
| DomainCrossover.RepeatedDomainLosesApi | evolution/recombination.py:404-406 | a concrete parent whose children lose its public API |
| CrossoverRecords.RecordedAgrees | evolution/recombination.py:154-171 | recording a crossover reads and changes nothing but `evolution` |
| CrossoverRecords.RecordedNotes | evolution/recombination.py:154-171 | recording works exactly where there is a list to add to or room for one, and puts the record at its end |
| BlockCrossover.Recombine | evolution/recombination.py:185-266 | both children take each block from the chosen parent and the rest from the base parent |
| BlockCrossover.BuildOffspring | evolution/recombination.py:314-348 | a child has its chosen blocks, no other block, everything else of the base parent, and one more crossover record |
| BlockCrossover.Choose | evolution/recombination.py:215-242 | the sources of each block for both children |
| BlockCrossover.SharedBlocksSplit | evolution/recombination.py:185-266 | the children split both versions of every shared block iff the parents' ids differ or the versions agree |
| BlockCrossover.LoneBlocksKept | evolution/recombination.py:230-242 | a block of one parent goes to both children, unless the ids are equal and only the second parent has it |
| BlockCrossover.BlockFate | evolution/recombination.py:185-266 | what becomes of any block, told on the parents alone: absent if inactive or in neither, split or kept with different ids, the first parent's with equal ids |
| BlockCrossover.RestInherited | evolution/recombination.py:314-348 | everything but the blocks is the base parent's, and its crossover list has one more record at the end |
| BlockCrossover.EqualIdsCopyFirst | evolution/recombination.py:185-266 | with equal ids every recombined block of both children is the first parent's |
| BlockCrossover.EqualIdsLoseBlocks | evolution/recombination.py:185-266 | two concrete parents with one id, of which the second loses its version of a shared block and a block it alone has |
| BlockCrossover.FirstChildTakesTheBetter | evolution/recombination.py:284-312 | the first child has the better measured version, the second the other one |
| BlockCrossover.MeasuredIsBetter | evolution/recombination.py:284-312 | a parent that is measured counts as better than one that is not |
| BlockCrossover.TiesAlternate | evolution/recombination.py:206-228 | where the parents measure alike or not at all they take turns, by the number of recombined blocks that come before |
| BlockCrossover.ObjectiveIsNamedBest | evolution/recombination.py:125-151 | an objective's value is that of the first entry that names it best: exactly, as feedback, as compiler, or as an ending |
| BlockCrossover.InactiveBlocksDropped | evolution/recombination.py:543-589 | a block that is not recombined is dropped; the children agree with the base parent on such blocks iff it has none |
| BlockCrossover.InactiveBlockLost | evolution/recombination.py:543-589 | two concrete parents whose children lack the base parent's inactive block |
| HashChain.EventLog.Append | evolution/observability.py:162-219 | appends one event; the log still verifies |
| HashChain.EventLog.VerifyChain | autonomous_network/engine.py:494-518 | verifies or reports exactly the first broken link |
| HashChain.AuditTrail.Record | evolution/promotion_audit.py:54-111 | extends one request's chain and no other; all still verify |
| HashChain.AuditTrail.Verify | evolution/promotion_audit.py:116-160 | reports exactly the first broken link of one request's chain |
| HashChain.FirstInvalid | evolution/observability.py:237-276 | no position if and only if every link holds; else the first bad one, with everything before it intact |
| HashChain.VerifiesAppend | distributed_evolution/engine.py:682-721 | appending as the engine does keeps a log verifying |
| HashChain.SameHeadSameLog | distributed_evolution/engine.py:469-494 | two verifying logs with one final hash are equal event by event, or two of their own events clash |
| HashChain.ClashBreaksHash | distributed_evolution/engine.py:469-494 | such a clash is a collision of the hash function, or content that hashes to the starting value |
| HashChain.NotedHashPinsPrefix | evolution/promotion_audit.py:116-160 | a hash noted earlier pins down the whole log up to that point, or the two logs clash |
| SafetyInterlocks.SafetyInterlockEngine.Evaluate | evolution/governance_safety.py:105-253 | the report of the interlocks in order, none twice |
| SafetyInterlocks.ReportNamesClosedLocks | evolution/governance_safety.py:105-253 | the report names exactly the interlocks the evidence does not clear, and passes iff there is none |
| SafetyInterlocks.IssuesTell | evolution/governance_safety.py:105-253 | each issue is reported if and only if its condition on policy and evidence holds |
| SafetyInterlocks.SafeIffMet | evolution/governance_safety.py:105-253 | evidence passes if and only if it shows everything the policy asks for |
| Promotion.PromotedOnlyWhenCleared | evolution/promotion.py:251-488 | in every run a promoted or rolled-back request has evidence that meets every safety demand if checks are required, was never denied, and in an environment named as governed, whatever its case, was approved or allowed |
| Promotion.TrailIsTheLifecycle | evolution/promotion_audit.py:258-309 | in every run the recorded statuses of a request are one of ten legal histories, ending in its current status |
| Promotion.RefusalChangesNothing | evolution/promotion_audit.py:258-282 | a refused operation changes no request, except exactly the creation whose gateway raised, which leaves the new request behind |
| Promotion.InterruptedCreationIff | evolution/promotion.py:251-340 | a creation is refused and leaves its request behind if and only if it clears the checks, is governed, submitted at once, and its gateway raises |
| Promotion.AnInterruptedCreation | evolution/promotion.py:251-340 | a concrete run with such a creation |
| Promotion.FinalForever | evolution/promotion.py:342-488 | failed, denied and rolled-back requests never change; evidence, subject and report of any request never change |
| Promotion.FailsClosedIff | evolution/promotion.py:319-404 | without a gateway, a policy that fails closed keeps governed requests out in every run if and only if it submits at once, or none could clear the checks |
| Promotion.PromotedUnasked | evolution/promotion.py:319-458 | with submission at once switched off, every cleared governed request can be approved and promoted without a ruling |
| Promotion.StepKeepsInv | evolution/promotion.py:251-488 | one audited operation keeps every request justified and its trail legal |
| Promotion.CreationOutcome | evolution/promotion.py:251-340 | what each creation makes of its request, from policy, evidence, environment and the gateway's answer: failed, approved, pending, denied, or left behind screened by a gateway that raises |
| Promotion.SubmissionOutcome | evolution/promotion.py:342-404 | submission of a request that cleared the checks gives it the status and verdict governance says, any other is refused; without a gateway a policy that fails closed denies governed environments and all else is allowed |
| Promotion.LaterOutcomes | evolution/promotion.py:406-488 | approval takes exactly pending requests, promotion approved ones, rollback promoted ones, and each changes only what it is for |
| Promotion.AuditOutcome | evolution/promotion_audit.py:173-309 | each operation adds one entry to one trail: what the request has become and who asked, or the refusal with its name, under "unknown" for a refused creation |
| PromotionEngine.PromotionControlEngine.CreatePromotionRequest | evolution/promotion.py:251-340 | the new request after screening and, where governed, submission |
| PromotionEngine.PromotionControlEngine.SubmitGovernance | evolution/promotion.py:342-404 | records the ruling and moves the request to approved, pending or denied |
| PromotionEngine.PromotionControlEngine.Approve | evolution/promotion.py:406-434 | approves a pending request, refuses any other |
| PromotionEngine.PromotionControlEngine.Promote | evolution/promotion.py:436-458 | promotes an approved request, refuses any other |
| PromotionEngine.PromotionControlEngine.Rollback | evolution/promotion.py:460-488 | rolls a promoted request back and notes the reason, refuses any other |
| PromotionEngine.AuditedPromotionEngine.Act | evolution/promotion_audit.py:173-309 | performs one operation, records the new status or the refusal, and keeps the invariant of all runs with every chain verifying |
| CollaborationSafety.OneEachIffUpToDate | civilization/engine.py:737-915 | a completed decision selects exactly one recommendation per contested target, all others, and none twice, if and only if no stored conflict is out of date |
| CollaborationSafety.SelectedRankFirst | civilization/engine.py:665-735 | what is selected for a contested target was chosen by an earlier resolution or ranks first in its conflict; it outranks all others on the target, by confidence times trust times authority, then time, then agent, unless a stored conflict on that target is resolved already or out of date |
| CollaborationSafety.FinalizeDecides | civilization/engine.py:737-915 | an unfinished task is completed if and only if there is a recommendation and governance, where it has to be asked, allows it; failed with nothing selected if and only if there is none or governance denies it; undecided if and only if asking raises |
| CollaborationSafety.CompletedWasPermitted | civilization/engine.py:815-842 | in every run a completed decision was permitted by governance wherever it had to be asked, and so was a completed task whose status was not assigned |
| CollaborationSafety.DecisionAgreesIff | civilization/engine.py:866-887 | what a completed decision selects agrees about every target if and only if the stored winners agree with each other and, where none is up to date, with the recommendation ranked first now |
| CollaborationSafety.UpToDateAgree | civilization/engine.py:597-663 | with no out-of-date conflict stored they always agree |
| CollaborationSafety.NeverEscalated | civilization/engine.py:798-813 | no run of submissions, detections, resolutions and finalisations escalates a task or a decision |
| CollaborationSafety.StaleWinnerStays | civilization/engine.py:866-887 | the winner of an out-of-date conflict is selected along with a later, better recommendation |
| CollaborationSafety.LateRecommendationOpposes | civilization/engine.py:597-735 | a concrete task on which opposing actions are selected for one target |
| CollaborationSafety.SettledIs | civilization/engine.py:678-735 | an open conflict is resolved in favour of the first-ranked existing recommendation, or escalated when there is none |
| CollaborationSafety.InConflictIffContested | civilization/engine.py:597-663 | after detection a recommendation is in a conflict iff its target is contested |
| CollaborationEngine.CivilizationEngine.SubmitRecommendation | civilization/engine.py:520-591 | files the recommendation iff task and agent are known and the agent is assigned |
| CollaborationEngine.CivilizationEngine.DetectConflicts | civilization/engine.py:597-663 | files an open conflict for each contested target whose group is not filed yet, other tasks untouched |
| CollaborationEngine.CivilizationEngine.ResolveConflicts | civilization/engine.py:665-735 | settles every open conflict of a task, other tasks untouched |
| CollaborationEngine.CivilizationEngine.FinalizeTask | civilization/engine.py:737-915 | the decision and the new task status, in every branch, which `CollaborationSafety.FinalizeDecides` tells by recommendations and governance |
| CollaborationEngine.CivilizationEngine.Select | civilization/engine.py:866-887 | the winners of resolved conflicts, then every recommendation in no conflict |
| Order.SortBySorts | evolution/pareto.py:286-296 | Python's `sorted` with a key: a sorted permutation of its argument |
| Order.StrLeIsTotalOrder | distributed_evolution/scheduler.py:19-43 | string comparison is a total order, so "first by region and id" is well defined |
| Order.StrLeIsLexicographic | distributed_evolution/scheduler.py:19-43 | a string comes first if it is a beginning of the other or smaller where the two first differ |

## Left out

- ClusterEngine.Engine.RunCampaign: may be called only when the loop ends, for which `CampaignRuns.EndsIffFewBlocked`, `CampaignRuns.EndsIffFresh`, `CampaignRuns.EndsIffNextTaken` and `CampaignRuns.EndsWhenAlone` give the conditions; the endless case has no return value to describe.
- ClusterReach.ReachableStatesAreSafe: capacity is promised only if each registration and each autoscale of a run covers what is allocated under its name, which `ClusterSafety.RegisterKeepsIffCovers` and `CampaignRuns.RoundKeepsIffCovers` show to be necessary.
- CampaignRuns.EndsIffFewBlocked: where a node that differs from an autoscaled one stands under the next taken autoscale name, only the two one-way bounds hold: whether a job gets that node before autoscaling replaces it depends on how many turns come first.
- Nodes and requirements may be smaller here than the program accepts; the clusters in `ClusterWitnesses` respect its minimums.
- ClusterEngine.Engine.FailNodeAndRecover: nodes, allocations, campaigns and plans are values in dictionaries that are reassigned; only jobs are objects.
- The allocator's audit events are not part of its state; the chain they form is `HashChain`. Metrics, results, error texts and artifact locations carry no control flow. `recover_campaign` only lists pending jobs.
- ParetoSelect.SelectPareto: float rounding is not modelled.
- GraphStore.InMemoryGraphStore.Neighbors: the order of nodes and edges, and entity attributes, are not modelled.
- Diversity.SelectDiverse: the feature sets are given; `extract_isr_features` and `diversity_report` are not part of this model.
- Mutation.MutationEngine.Apply: trees are values, so it does not model that the candidate shares the value object with the specification it was set from.
- Isr.CollectApiNames: list-valued keys that hold something else than a list count as empty.
- DomainCrossover.Recombine: domain and service names are strings; with other names filing or sorting can raise.
- ServiceMerging.MergeService: dependencies that are not strings are dropped, where the program sorts them or raises.
- BlockCrossover.Recombine: the active families of a genome are given as a set; reading them from the genome's genes, and `RecombinationEngine`, are not modelled.
- HashChain.SameHeadSameLog: event content is opaque, so canonical JSON is part of the arbitrary hash function.
- HashChain.EventLog.Append: events are values; in the program an event shares its payload with the caller, who can change the list `fail_node` returned, or the `target_backends` given to `submit_campaign`, and the chain then no longer verifies.
- SafetyInterlocks.SafetyInterlockEngine.Evaluate: issue messages and the report id are not modelled; no interlock ever issues a warning.
- PromotionEngine.PromotionControlEngine.CreatePromotionRequest: request ids are fresh, and the evidence collector's result is a parameter; timestamps and the proposal history of the base engine are not modelled.
- CollaborationEngine.CivilizationEngine.FinalizeTask: message bus, memory records, timestamps and rationale texts are not modelled, a task's organization is taken to exist, and conflict records are values; recommendation ids are fresh.
- `run_task`, `allocate_task` and leader election choose agents and change only a task's status.
- `autonomous_network` pipeline stages, contracts and alerts: only its event chain is modelled.
- `evolution/multi.py`, plugin dependency closure, marketplace, learning, registries, all `*api.py` files and clients: they would add only branch-level facts, or their promises do not hold as lifecycles.
