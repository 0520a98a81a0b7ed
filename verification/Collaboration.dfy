/**
 * Conflicting recommendations on one task: how they are detected and settled, and what the final
 * decision selects. A conflict's id is a digest of its target and sorted recommendation ids, and is
 * represented by those two. Scores are exact reals.
 */
module Collaboration {
  import opened Order

  datatype Recommendation = Recommendation(
    id: string, agent: string, action: string, target: string, confidence: real, createdAt: string)

  datatype Agent = Agent(trust: real, role: string)

  /** Agents, and the authority weight of each role. */
  datatype Staff = Staff(agents: map<string, Agent>, authority: map<string, real>)

  datatype ConflictStatus = Open | Resolved | Escalated

  datatype Conflict = Conflict(target: string, ids: seq<string>, status: ConflictStatus, selected: Option<string>)

  type Recs = seq<Recommendation>

  // ---------------------------------------------------------------- groups and ranking

  function Group(recs: Recs, target: string): Recs {
    if recs == [] then []
    else
      var r := recs[|recs| - 1];
      Group(recs[..|recs| - 1], target) + if r.target == target then [r] else []
  }

  function Ids(recs: Recs): seq<string> { seq(|recs|, i requires 0 <= i < |recs| => recs[i].id) }

  /** The sorted ids of all recommendations on `target`. */
  function IdsFor(recs: Recs, target: string): seq<string> { SortBy(Ids(Group(recs, target)), StrLe) }

  predicate Contested(recs: Recs, target: string) {
    exists a, b :: a in recs && b in recs && a.target == target && b.target == target && a.action != b.action
  }

  /** Targets in the order they first appear. */
  function Targets(recs: Recs): seq<string> {
    if recs == [] then []
    else
      var before, r := Targets(recs[..|recs| - 1]), recs[|recs| - 1];
      before + if r.target in before then [] else [r.target]
  }

  function Score(staff: Staff, r: Recommendation): real {
    if r.agent !in staff.agents then 0.0
    else
      var agent := staff.agents[r.agent];
      r.confidence * agent.trust * if agent.role in staff.authority then staff.authority[agent.role] else 0.5
  }

  /** The sort key of a settlement: higher score, then earlier, then smaller agent id. */
  predicate RankLe(staff: Staff, a: Recommendation, b: Recommendation) {
    || Score(staff, a) > Score(staff, b)
    || (Score(staff, a) == Score(staff, b) &&
        ((a.createdAt != b.createdAt && StrLe(a.createdAt, b.createdAt))
         || (a.createdAt == b.createdAt && StrLe(a.agent, b.agent))))
  }

  lemma RankIsPreorder(staff: Staff)
    ensures Preorder((a, b) => RankLe(staff, a, b))
  {
    StrLeIsTotalOrder();
    hide Score, StrLe;
    forall a, b, c | RankLe(staff, a, b) && RankLe(staff, b, c) ensures RankLe(staff, a, c) {
      if a.createdAt != b.createdAt && b.createdAt != c.createdAt && a.createdAt == c.createdAt {
        assert Score(staff, a) == Score(staff, c) ==> StrLe(b.createdAt, a.createdAt);
      }
    }
  }

  // ---------------------------------------------------------------- detect, settle, select

  predicate Filed(conflicts: seq<Conflict>, target: string, ids: seq<string>) {
    exists i :: 0 <= i < |conflicts| && conflicts[i].target == target && conflicts[i].ids == ids
  }

  /** The stored conflicts with an open one added for each contested target whose group is not filed yet. */
  function Detected(recs: Recs, conflicts: seq<Conflict>, targets: seq<string>): seq<Conflict> {
    if targets == [] then conflicts
    else
      var t := targets[|targets| - 1];
      var before := Detected(recs, conflicts, targets[..|targets| - 1]);
      if Contested(recs, t) && !Filed(before, t, IdsFor(recs, t))
      then before + [Conflict(t, IdsFor(recs, t), Open, None)]
      else before
  }

  function Lookup(recs: Recs, id: string): Option<Recommendation> {
    if recs == [] then None
    else if recs[|recs| - 1].id == id then Some(recs[|recs| - 1])
    else Lookup(recs[..|recs| - 1], id)
  }

  /** The recommendations behind `ids` that exist, in the order of `ids`. */
  function Behind(recs: Recs, ids: seq<string>): Recs {
    if ids == [] then []
    else
      var r := Lookup(recs, ids[|ids| - 1]);
      Behind(recs, ids[..|ids| - 1]) + if r.Some? then [r.value] else []
  }

  function Settled(staff: Staff, recs: Recs, c: Conflict): Conflict {
    if c.status != Open then c
    else
      var ranked := SortBy(Behind(recs, c.ids), (a, b) => RankLe(staff, a, b));
      if ranked == [] then c.(status := Escalated) else c.(status := Resolved, selected := Some(ranked[0].id))
  }

  function SettledAll(staff: Staff, recs: Recs, conflicts: seq<Conflict>): (r: seq<Conflict>)
    ensures |r| == |conflicts| && forall i :: 0 <= i < |r| ==> r[i] == Settled(staff, recs, conflicts[i])
  {
    seq(|conflicts|, i requires 0 <= i < |conflicts| => Settled(staff, recs, conflicts[i]))
  }

  function Picks(conflicts: seq<Conflict>): seq<string> {
    if conflicts == [] then []
    else
      var c := conflicts[|conflicts| - 1];
      Picks(conflicts[..|conflicts| - 1]) + if c.status == Resolved && c.selected.Some? then [c.selected.value] else []
  }

  predicate InConflict(conflicts: seq<Conflict>,
                       id: string) { exists i :: 0 <= i < |conflicts| && id in conflicts[i].ids }

  function Uninvolved(recs: Recs, conflicts: seq<Conflict>): seq<string> {
    if recs == [] then []
    else
      var r := recs[|recs| - 1];
      Uninvolved(recs[..|recs| - 1], conflicts) + if InConflict(conflicts, r.id) then [] else [r.id]
  }

  function Selection(recs: Recs,
                     conflicts: seq<Conflict>): seq<string> { Picks(conflicts) + Uninvolved(recs, conflicts) }

  // ---------------------------------------------------------------- one task

  datatype TaskStatus =
    | TaskOpen | Assigned | InProgress | Review | TaskCompleted | TaskFailed | TaskCancelled | TaskEscalated

  datatype DecisionStatus = Completed | Blocked | Failed

  datatype Decision = Decision(status: DecisionStatus, selected: seq<string>, conflicts: seq<(string, seq<string>)>)

  datatype Desk = Desk(recs: Recs, conflicts: seq<Conflict>, status: TaskStatus, decision: Option<Decision>)

  function Detect(d: Desk): Desk { d.(conflicts := Detected(d.recs, d.conflicts, Targets(d.recs))) }

  function Resolve(staff: Staff, d: Desk): Desk { d.(conflicts := SettledAll(staff, d.recs, d.conflicts)) }

  function Keys(conflicts: seq<Conflict>): seq<(string, seq<string>)> {
    seq(|conflicts|, i requires 0 <= i < |conflicts| => (conflicts[i].target, conflicts[i].ids))
  }

  predicate Any(conflicts: seq<Conflict>, status: ConflictStatus) {
    exists i :: 0 <= i < |conflicts| && conflicts[i].status == status
  }

  /**
   * Finalising an engineering task. `governed` says that governance has to allow it, and `answer` is what
   * governance says, `None` when asking it fails. No result means the call raised.
   */
  function Finalize(staff: Staff, governed: bool, answer: Option<bool>, d: Desk): (Desk, Option<Decision>) {
    if d.status in {TaskCompleted, TaskFailed, TaskCancelled} then (d, None)
    else Decided(governed, answer, Resolve(staff, Detect(d)))
  }

  function Decided(governed: bool, answer: Option<bool>, e: Desk): (Desk, Option<Decision>) {
    if e.recs == [] then Closed(e, TaskFailed, Decision(Failed, [], []))
    else if Any(e.conflicts, Open) || Any(e.conflicts, Escalated) then
      Closed(e, TaskEscalated, Decision(Blocked, [], Keys(e.conflicts)))
    else if governed && answer.None? then (e, None)
    else if governed && !answer.value then Closed(e, TaskFailed, Decision(Failed, [], Keys(e.conflicts)))
    else Closed(e, TaskCompleted, Decision(Completed, Selection(e.recs, e.conflicts), Keys(e.conflicts)))
  }

  function Closed(d: Desk, status: TaskStatus, decision: Decision): (Desk, Option<Decision>) {
    (d.(status := status, decision := Some(decision)), Some(decision))
  }
}
