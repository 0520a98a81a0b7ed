/** The civilization engine's dictionaries and loops, proved against the functions of `Collaboration`. */
module CollaborationEngine {
  import opened Order
  import opened Collaboration
  import opened CollaborationSafety

  lemma ContestedByActions(recs: Recs, target: string)
    ensures Contested(recs, target) <==> |set r | r in Group(recs, target) :: r.action| >= 2
  {
    GroupIs(recs, target);
    var actions := set r | r in Group(recs, target) :: r.action;
    if Contested(recs, target) {
      var a, b :| a in recs && b in recs && a.target == target && b.target == target && a.action != b.action;
      assert a in Group(recs, target) && b in Group(recs, target);
      TwoMembers(actions, a.action, b.action);
    } else {
      AtMostOne(actions);
    }
  }

  lemma AtMostOne<T>(s: set<T>)
    requires forall x, y :: x in s && y in s ==> x == y
    ensures |s| <= 1
  {
    if s != {} {
      var x :| x in s;
      assert s == {x};
    }
  }

  lemma TwoMembers<T>(s: set<T>, x: T, y: T)
    requires x in s && y in s && x != y
    ensures |s| >= 2
  {
    assert y in s - {x};
    assert |s - {x}| >= 1;
  }

  class CivilizationEngine {
    var staff: Staff
    var assignees: map<string, set<string>>
    var governed: set<string>
    var tasks: map<string, TaskStatus>
    var recommendations: map<string, Recs>
    var conflicts: map<string, seq<Conflict>>
    var decisions: map<string, Decision>

    constructor (staff: Staff)
      ensures this.staff == staff && tasks == map[] && recommendations == map[] && conflicts == map[]
      ensures decisions == map[]
    {
      this.staff, assignees, governed := staff, map[], {};
      tasks, recommendations, conflicts, decisions := map[], map[], map[], map[];
    }

    function DeskOf(task: string): Desk
      reads this
      requires task in tasks
    {
      Desk(if task in recommendations then recommendations[task] else [],
           if task in conflicts then conflicts[task] else [],
           tasks[task],
           if task in decisions then Some(decisions[task]) else None)
    }

    /** Everything about the other tasks is as it was. */
    twostate predicate OthersUnchanged(task: string)
      reads this
    {
      && tasks.Keys == old(tasks.Keys) && staff == old(staff) && assignees == old(assignees)
        && governed == old(governed)
      && forall k :: k in tasks && k != task ==> DeskOf(k) == old(DeskOf(k))
    }

    method SubmitRecommendation(task: string, r: Recommendation) returns (ok: bool)
      requires task in tasks ==> forall x :: x in DeskOf(task).recs ==> x.id != r.id
      modifies this
      ensures OthersUnchanged(task)
      ensures ok <==> task in tasks && r.agent in staff.agents && task in assignees && r.agent in assignees[task]
      ensures task in tasks ==> DeskOf(task) == if ok then Step(old(DeskOf(task)), Submit(r)) else old(DeskOf(task))
    {
      if task !in tasks || r.agent !in staff.agents { return false; }
      if task !in assignees || r.agent !in assignees[task] { return false; }
      var recs := if task in recommendations then recommendations[task] else [];
      recommendations := recommendations[task := recs + [r]];
      ok := true;
    }

    method DetectConflicts(task: string) returns (ok: bool)
      modifies this
      ensures OthersUnchanged(task) && (ok <==> task in tasks)
      ensures ok ==> DeskOf(task) == Detect(old(DeskOf(task)))
    {
      if task !in tasks { return false; }
      var filed := FileConflicts(DeskOf(task).recs, DeskOf(task).conflicts);
      conflicts := conflicts[task := filed];
      ok := true;
    }

    method FileConflicts(recs: Recs, stored: seq<Conflict>) returns (filed: seq<Conflict>)
      ensures filed == Detected(recs, stored, Targets(recs))
    {
      var order, byTarget := GroupByTarget(recs);
      filed := stored;
      for k := 0 to |order|
        invariant filed == Detected(recs, stored, order[..k])
      {
        assert order[..k + 1][..k] == order[..k];
        var target := order[k];
        var group: Recs := byTarget[target];
        ContestedByActions(recs, target);
        if Contested(recs, target) { ContestedNeedsTwo(recs, target); }
        hide Contested, Group, Filed;
        if |group| < 2 { continue; }
        var actions := set r: Recommendation | r in group :: r.action;
        if |actions| < 2 { continue; }
        var ids := SortBy(Ids(group), StrLe);
        if Filed(filed, target, ids) { continue; }
        filed := filed + [Conflict(target, ids, Open, None)];
      }
      assert order[..|order|] == order;
    }

    method GroupByTarget(recs: Recs) returns (order: seq<string>, byTarget: map<string, Recs>)
      ensures order == Targets(recs)
      ensures forall t :: t in byTarget <==> t in order
      ensures forall t :: t in order ==> byTarget[t] == Group(recs, t)
    {
      order, byTarget := [], map[];
      for i := 0 to |recs|
        invariant order == Targets(recs[..i])
        invariant forall t :: t in byTarget <==> t in order
        invariant forall t :: Group(recs[..i], t) == if t in order then byTarget[t] else []
      {
        assert recs[..i + 1][..i] == recs[..i];
        var r := recs[i];
        if r.target !in byTarget {
          order, byTarget := order + [r.target], byTarget[r.target := []];
        }
        byTarget := byTarget[r.target := byTarget[r.target] + [r]];
      }
      assert recs[..|recs|] == recs;
    }

    method ResolveConflicts(task: string) returns (ok: bool)
      modifies this
      ensures OthersUnchanged(task) && (ok <==> task in tasks)
      ensures ok ==> DeskOf(task) == Resolve(staff, old(DeskOf(task)))
    {
      if task !in tasks { return false; }
      ok := true;
      if task !in conflicts { return; }
      var settled := SettleConflicts(staff, DeskOf(task).recs, conflicts[task]);
      conflicts := conflicts[task := settled];
    }

    method SettleConflicts(staff: Staff, recs: Recs, stored: seq<Conflict>) returns (r: seq<Conflict>)
      ensures r == SettledAll(staff, recs, stored)
    {
      r := stored;
      for i := 0 to |stored|
        invariant |r| == |stored|
        invariant forall j :: 0 <= j < |stored| ==> r[j] == if j < i then Settled(staff, recs, stored[j]) else stored[j]
      {
        var conflict := r[i];
        if conflict.status != Open { continue; }
        var candidates := Candidates(recs, conflict.ids);
        var ranked := SortBy(candidates, (a, b) => RankLe(staff, a, b));
        if ranked == [] {
          conflict := conflict.(status := Escalated);
        } else {
          conflict := conflict.(status := Resolved, selected := Some(ranked[0].id));
        }
        assert conflict == Settled(staff, recs, stored[i]);
        r := r[i := conflict];
      }
    }

    method Candidates(recs: Recs, ids: seq<string>) returns (r: Recs)
      ensures r == Behind(recs, ids)
    {
      r := [];
      for i := 0 to |ids|
        invariant r == Behind(recs, ids[..i])
      {
        assert ids[..i + 1][..i] == ids[..i];
        var found := Lookup(recs, ids[i]);
        if found.Some? { r := r + [found.value]; }
      }
      assert ids[..|ids|] == ids;
    }

    /** `answer` is governance's reply, asked for only when an engineering task needs it. */
    method FinalizeTask(task: string, answer: Option<bool>) returns (decision: Option<Decision>)
      modifies this
      ensures OthersUnchanged(task)
      ensures task !in tasks ==> decision == None
      ensures task in tasks ==>
        (DeskOf(task), decision) == Finalize(staff, task in governed, answer, old(DeskOf(task)))
    {
      if task !in tasks || tasks[task] in {TaskCompleted, TaskFailed, TaskCancelled} { return None; }
      hide Detect, Resolve, Decided;
      var known := DetectConflicts(task);
      known := ResolveConflicts(task);
      decision := Decide(task, answer);
    }

    /** The decision once every conflict has been looked at. */
    method Decide(task: string, answer: Option<bool>) returns (decision: Option<Decision>)
      requires task in tasks
      modifies this
      ensures OthersUnchanged(task)
      ensures (DeskOf(task), decision) == Decided(task in governed, answer, old(DeskOf(task)))
    {
      hide Selection, Any, Keys;
      var recs, found := DeskOf(task).recs, DeskOf(task).conflicts;
      if recs == [] {
        decision := Some(Decision(Failed, [], []));
        tasks, decisions := tasks[task := TaskFailed], decisions[task := decision.value];
        return;
      }
      if Any(found, Open) || Any(found, Escalated) {
        decision := Some(Decision(Blocked, [], Keys(found)));
        tasks, decisions := tasks[task := TaskEscalated], decisions[task := decision.value];
        return;
      }
      if task in governed {
        if answer.None? { return None; }
        if !answer.value {
          decision := Some(Decision(Failed, [], Keys(found)));
          tasks, decisions := tasks[task := TaskFailed], decisions[task := decision.value];
          return;
        }
      }
      var selected := Select(recs, found);
      decision := Some(Decision(Completed, selected, Keys(found)));
      tasks, decisions := tasks[task := TaskCompleted], decisions[task := decision.value];
    }

    method Select(recs: Recs, found: seq<Conflict>) returns (selected: seq<string>)
      ensures selected == Selection(recs, found)
    {
      selected := [];
      var involved: set<string> := {};
      for i := 0 to |found|
        invariant selected == Picks(found[..i])
        invariant forall id :: id in involved <==> InConflict(found[..i], id)
      {
        assert found[..i + 1][..i] == found[..i];
        var conflict := found[i];
        InvolvedNext(found, i);
        involved := involved + set id | id in conflict.ids;
        if conflict.status == Resolved && conflict.selected.Some? {
          selected := selected + [conflict.selected.value];
        }
      }
      assert found[..|found|] == found;
      for i := 0 to |recs|
        invariant selected == Picks(found) + Uninvolved(recs[..i], found)
      {
        assert recs[..i + 1][..i] == recs[..i];
        if recs[i].id !in involved { selected := selected + [recs[i].id]; }
      }
      assert recs[..|recs|] == recs;
    }
  }

  lemma InvolvedNext(found: seq<Conflict>, i: nat)
    requires i < |found|
    ensures forall id :: InConflict(found[..i + 1], id) <==> InConflict(found[..i], id) || id in found[i].ids
  {
    forall id ensures InConflict(found[..i + 1], id) <==> InConflict(found[..i], id) || id in found[i].ids {
      if InConflict(found[..i], id) {
        var j :| 0 <= j < i && id in found[j].ids;
        assert id in found[..i + 1][j].ids;
      }
      if id in found[i].ids { assert id in found[..i + 1][i].ids; }
      if InConflict(found[..i + 1], id) {
        var j :| 0 <= j < i + 1 && id in found[..i + 1][j].ids;
        assert j < i ==> id in found[..i][j].ids;
      }
    }
  }

  lemma ContestedNeedsTwo(recs: Recs, target: string)
    requires Contested(recs, target)
    ensures |Group(recs, target)| >= 2
  {
    GroupIs(recs, target);
    var a, b :| a in recs && b in recs && a.target == target && b.target == target && a.action != b.action;
    var i :| 0 <= i < |Group(recs, target)| && Group(recs, target)[i] == a;
    var j :| 0 <= j < |Group(recs, target)| && Group(recs, target)[j] == b;
    assert i != j;
  }
}
