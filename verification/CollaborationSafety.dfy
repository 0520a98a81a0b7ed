/** What a final decision selects, and which tasks can be escalated. */
module CollaborationSafety {
  import opened Order
  import opened Collaboration

  predicate IdsDistinct(recs: Recs) {
    forall i, j :: 0 <= i < j < |recs| ==> recs[i].id != recs[j].id
  }

  // ---------------------------------------------------------------- groups

  lemma {:induction false} GroupIs(recs: Recs, target: string)
    ensures forall r :: r in Group(recs, target) <==> r in recs && r.target == target
    ensures IdsDistinct(recs) ==> IdsDistinct(Group(recs, target))
  {
    if recs != [] {
      var n := |recs| - 1;
      GroupIs(recs[..n], target);
      assert recs == recs[..n] + [recs[n]];
      if IdsDistinct(recs) {
        assert forall r :: r in recs[..n] ==> r.id != recs[n].id;
      }
    }
  }

  ghost predicate OnTarget(recs: Recs, target: string, id: string) {
    exists r :: r in recs && r.target == target && r.id == id
  }

  lemma IdsForIs(recs: Recs, target: string)
    requires IdsDistinct(recs)
    ensures Distinct(IdsFor(recs, target)) && SortedBy(IdsFor(recs, target), StrLe)
    ensures forall id :: id in IdsFor(recs, target) <==> OnTarget(recs, target, id)
  {
    GroupIs(recs, target);
    StrLeIsTotalOrder();
    var ids := Ids(Group(recs, target));
    SortBySorts(ids, StrLe);
    SortByDistinct(ids, StrLe);
    forall id ensures id in ids <==> OnTarget(recs, target, id) {
      if OnTarget(recs, target, id) {
        var r :| r in recs && r.target == target && r.id == id;
        var i :| 0 <= i < |Group(recs, target)| && Group(recs, target)[i] == r;
        assert ids[i] == id;
      }
    }
  }

  lemma {:induction false} TargetsAre(recs: Recs)
    ensures Distinct(Targets(recs))
    ensures forall r :: r in recs ==> r.target in Targets(recs)
  {
    if recs != [] {
      var n := |recs| - 1;
      TargetsAre(recs[..n]);
      assert recs == recs[..n] + [recs[n]];
    }
  }

  // ---------------------------------------------------------------- what detection adds

  predicate KeysDistinct(conflicts: seq<Conflict>) {
    forall i, j :: 0 <= i < j < |conflicts| ==>
      conflicts[i].target != conflicts[j].target || conflicts[i].ids != conflicts[j].ids
  }

  predicate NewConflict(recs: Recs, c: Conflict) {
    Contested(recs, c.target) && c == Conflict(c.target, IdsFor(recs, c.target), Open, None)
  }

  lemma {:induction false} DetectedIs(recs: Recs, conflicts: seq<Conflict>, targets: seq<string>)
    requires KeysDistinct(conflicts)
    ensures var after := Detected(recs, conflicts, targets);
      && conflicts <= after && KeysDistinct(after)
      && (forall i :: |conflicts| <= i < |after| ==> NewConflict(recs, after[i]))
      && (forall t :: t in targets && Contested(recs, t) ==> Filed(after, t, IdsFor(recs, t)))
  {
    if targets != [] {
      var n := |targets| - 1;
      DetectedIs(recs, conflicts, targets[..n]);
      var before, after := Detected(recs, conflicts, targets[..n]), Detected(recs, conflicts, targets);
      assert targets == targets[..n] + [targets[n]];
      hide IdsFor, Contested;
      forall t | t in targets && Contested(recs, t) ensures Filed(after, t, IdsFor(recs, t)) {
        if Filed(before, t, IdsFor(recs, t)) {
          var i :| 0 <= i < |before| && before[i].target == t && before[i].ids == IdsFor(recs, t);
          assert after[i] == before[i];
        } else {
          assert after[|before|] == Conflict(t, IdsFor(recs, t), Open, None);
        }
      }
    }
  }

  // ---------------------------------------------------------------- settling one conflict

  lemma {:induction false} LookupIs(recs: Recs, id: string)
    requires IdsDistinct(recs)
    ensures forall r :: Lookup(recs, id) == Some(r) <==> r in recs && r.id == id
  {
    if recs != [] {
      var n := |recs| - 1;
      LookupIs(recs[..n], id);
      assert recs == recs[..n] + [recs[n]];
      assert forall r :: r in recs[..n] ==> r.id != recs[n].id;
    }
  }

  lemma {:induction false} BehindIs(recs: Recs, ids: seq<string>)
    requires IdsDistinct(recs)
    ensures forall r :: r in Behind(recs, ids) <==> r in recs && r.id in ids
  {
    if ids != [] {
      var n := |ids| - 1;
      BehindIs(recs, ids[..n]);
      LookupIs(recs, ids[n]);
      assert ids == ids[..n] + [ids[n]];
    }
  }

  /** `w` is ranked first among the recommendations named in `ids`. */
  ghost predicate Wins(staff: Staff, recs: Recs, ids: seq<string>, w: Recommendation) {
    && w in recs && w.id in ids
    && forall r :: r in recs && r.id in ids ==> RankLe(staff, w, r)
  }

  lemma SettledIs(staff: Staff, recs: Recs, c: Conflict)
    requires IdsDistinct(recs) && c.status == Open
    ensures var s := Settled(staff, recs, c);
      && s.target == c.target && s.ids == c.ids
      && (if exists r :: r in recs && r.id in c.ids
          then s.status == Resolved && exists w :: Wins(staff, recs, c.ids, w) && s.selected == Some(w.id)
          else s.status == Escalated)
  {
    var behind := Behind(recs, c.ids);
    var le := (a, b) => RankLe(staff, a, b);
    BehindIs(recs, c.ids);
    RankIsPreorder(staff);
    SortBySorts(behind, le);
    var ranked := SortBy(behind, le);
    forall r ensures r in ranked <==> r in behind {
      assert r in multiset(ranked) <==> r in multiset(behind);
    }
    if ranked != [] {
      var w := ranked[0];
      forall r | r in recs && r.id in c.ids ensures RankLe(staff, w, r) {
        assert r in ranked;
        var i :| 0 <= i < |ranked| && ranked[i] == r;
        assert le(r, r);
        assert le(w, r);
      }
      assert Wins(staff, recs, c.ids, w);
    } else {
      assert forall r :: r !in behind;
    }
  }

  // ---------------------------------------------------------------- what every reachable task keeps

  predicate Oppose(a: Recommendation, b: Recommendation, target: string) {
    a.target == target && b.target == target && a.action != b.action
  }

  /** The ids of a conflict all name recommendations on its target, two of which oppose each other. */
  ghost predicate Grounded(recs: Recs, c: Conflict) {
    && (forall id :: id in c.ids ==> OnTarget(recs, c.target, id))
    && (exists a, b :: a in recs && b in recs && a.id in c.ids && b.id in c.ids && Oppose(a, b, c.target))
    && c.status != Escalated
    && (c.status == Resolved ==> c.selected.Some? && c.selected.value in c.ids)
  }

  ghost predicate Kept(d: Desk) {
    && IdsDistinct(d.recs) && KeysDistinct(d.conflicts)
    && forall i :: 0 <= i < |d.conflicts| ==> Grounded(d.recs, d.conflicts[i])
  }

  lemma NewConflictGrounded(recs: Recs, c: Conflict)
    requires IdsDistinct(recs) && NewConflict(recs, c)
    ensures Grounded(recs, c)
  {
    IdsForIs(recs, c.target);
    var a, b :| a in recs && b in recs && a.target == c.target && b.target == c.target && a.action != b.action;
    assert OnTarget(recs, c.target, a.id) && OnTarget(recs, c.target, b.id) && Oppose(a, b, c.target);
  }

  lemma DetectKeeps(d: Desk)
    requires Kept(d)
    ensures Kept(Detect(d)) && d.conflicts <= Detect(d).conflicts
    ensures forall t :: Contested(d.recs, t) ==> Filed(Detect(d).conflicts, t, IdsFor(d.recs, t))
    ensures forall i :: |d.conflicts| <= i < |Detect(d).conflicts| ==> NewConflict(d.recs, Detect(d).conflicts[i])
  {
    TargetsAre(d.recs);
    DetectedIs(d.recs, d.conflicts, Targets(d.recs));
    var after := Detect(d).conflicts;
    forall i | 0 <= i < |after| ensures Grounded(d.recs, after[i]) {
      if i < |d.conflicts| {
        assert after[i] == d.conflicts[i];
      } else {
        NewConflictGrounded(d.recs, after[i]);
      }
    }
    hide IdsFor;
  }

  lemma SettledKeeps(staff: Staff, recs: Recs, c: Conflict)
    requires IdsDistinct(recs) && Grounded(recs, c)
    ensures var s := Settled(staff, recs, c);
      Grounded(recs, s) && s.status == Resolved && s.target == c.target && s.ids == c.ids
    ensures c.status == Open ==>
      exists w :: Wins(staff, recs, c.ids, w) && Settled(staff, recs, c).selected == Some(w.id)
  {
    if c.status == Open {
      var a :| a in recs && a.id in c.ids;
      SettledIs(staff, recs, c);
    }
  }

  lemma ResolveKeeps(staff: Staff, d: Desk)
    requires Kept(d)
    ensures Kept(Resolve(staff, d)) && |Resolve(staff, d).conflicts| == |d.conflicts|
    ensures forall i :: 0 <= i < |d.conflicts| ==>
      var s := Resolve(staff, d).conflicts[i];
      s == Settled(staff, d.recs, d.conflicts[i]) && s.status == Resolved
      && s.target == d.conflicts[i].target && s.ids == d.conflicts[i].ids
  {
    forall i | 0 <= i < |d.conflicts| {
      SettledKeeps(staff, d.recs, d.conflicts[i]);
    }
    hide Settled, Grounded;
  }

  // ---------------------------------------------------------------- every run

  /** `Reassign` stands for the operations that only move a task's status. */
  datatype Op =
    | Submit(r: Recommendation)
    | DetectOp
    | ResolveOp(staff: Staff)
    | FinalizeOp(staff: Staff, governed: bool, answer: Option<bool>)
    | Reassign(status: TaskStatus)

  function Step(d: Desk, op: Op): Desk {
    match op
    case Submit(r) => d.(recs := d.recs + [r])
    case DetectOp => Detect(d)
    case ResolveOp(staff) => Resolve(staff, d)
    case FinalizeOp(staff, governed, answer) => Finalize(staff, governed, answer, d).0
    case Reassign(status) => d.(status := status)
  }

  /** Recommendations get new ids, and only finalising escalates a task. */
  predicate Allowed(d: Desk, op: Op) {
    && (op.Submit? ==> forall r :: r in d.recs ==> r.id != op.r.id)
    && (op.Reassign? ==> op.status != TaskEscalated)
  }

  predicate AllowedRun(d: Desk, ops: seq<Op>)
    decreases |ops|
  {
    ops == [] || (Allowed(d, ops[0]) && AllowedRun(Step(d, ops[0]), ops[1..]))
  }

  function Run(d: Desk, ops: seq<Op>): Desk
    decreases |ops|
  {
    if ops == [] then d else Run(Step(d, ops[0]), ops[1..])
  }

  lemma SubmitKeeps(d: Desk, r: Recommendation)
    requires Kept(d) && forall x :: x in d.recs ==> x.id != r.id
    ensures Kept(d.(recs := d.recs + [r]))
  {
    var recs := d.recs + [r];
    forall i | 0 <= i < |d.conflicts| ensures Grounded(recs, d.conflicts[i]) {
      var c := d.conflicts[i];
      assert Grounded(d.recs, c);
      forall id | id in c.ids ensures OnTarget(recs, c.target, id) {
        var x :| x in d.recs && x.target == c.target && x.id == id;
        assert x in recs;
      }
      var a, b :| a in d.recs && b in d.recs && a.id in c.ids && b.id in c.ids && Oppose(a, b, c.target);
      assert a in recs && b in recs;
    }
  }

  /** The conflicts a finalisation works with: all resolved, whatever was stored before. */
  function AtFinalize(staff: Staff, d: Desk): Desk { Resolve(staff, Detect(d)) }

  lemma FinalizeNeverBlocks(staff: Staff, governed: bool, answer: Option<bool>, d: Desk)
    requires Kept(d)
    ensures Kept(Finalize(staff, governed, answer, d).0)
    ensures var (after, decision) := Finalize(staff, governed, answer, d);
      && (decision.Some? ==> decision.value.status != Blocked && after.status != TaskEscalated)
      && (decision.None? ==> after.status == d.status && after.decision == d.decision)
  {
    DetectKeeps(d);
    ResolveKeeps(staff, Detect(d));
    hide Detect, Resolve, Grounded, Selection;
  }

  predicate Finished(status: TaskStatus) { status in {TaskCompleted, TaskFailed, TaskCancelled} }

  /** Governance need not be asked, or allows it. */
  predicate Permitted(governed: bool, answer: Option<bool>) { governed ==> answer == Some(true) }

  /**
   * How an unfinished task is decided: completed exactly when there is a recommendation and governance, if it
   * has to be asked, allows it; failed with nothing selected exactly when there is no recommendation or
   * governance denies it; and undecided exactly when governance has to be asked and the call raises.
   */
  lemma FinalizeDecides(staff: Staff, governed: bool, answer: Option<bool>, d: Desk)
    requires Kept(d) && !Finished(d.status)
    ensures var (after, decision) := Finalize(staff, governed, answer, d);
      && (decision.Some? && decision.value.status == Completed <==> d.recs != [] && Permitted(governed, answer))
      && (after.status == TaskCompleted <==> d.recs != [] && Permitted(governed, answer))
      && (decision.Some? && decision.value.status == Failed <==> d.recs == [] || (governed && answer == Some(false)))
      && (after.status == TaskFailed <==> d.recs == [] || (governed && answer == Some(false)))
      && (decision.None? <==> d.recs != [] && governed && answer == None)
      && (decision.Some? && decision.value.status == Failed ==> decision.value.selected == [])
      && (decision.Some? ==> after.decision == decision)
      && (decision.None? ==> after.decision == d.decision && after.status == d.status)
      && after.recs == d.recs
  {
    NothingUnsettled(staff, d);
    hide Detect, Resolve, Kept, Selection, Any, Keys;
  }

  lemma NothingUnsettled(staff: Staff, d: Desk)
    requires Kept(d)
    ensures var e := Resolve(staff, Detect(d));
      && !Any(e.conflicts, Open) && !Any(e.conflicts, Escalated)
      && e.recs == d.recs && e.status == d.status && e.decision == d.decision
  {
    DetectKeeps(d);
    ResolveKeeps(staff, Detect(d));
    hide Detected, SettledAll, Grounded;
  }

  /** A finished task is not finalised again. */
  lemma FinishedStays(staff: Staff, governed: bool, answer: Option<bool>, d: Desk)
    requires Finished(d.status)
    ensures Finalize(staff, governed, answer, d) == (d, None)
  {}

  /** Some finalisation of the run was permitted. */
  ghost predicate SomePermitted(ops: seq<Op>) {
    exists k :: 0 <= k < |ops| && ops[k].FinalizeOp? && Permitted(ops[k].governed, ops[k].answer)
  }

  predicate DecidedCompleted(d: Desk) { d.decision.Some? && d.decision.value.status == Completed }

  /**
   * In every run, a completed decision was permitted by governance wherever it had to be asked; and so was a
   * completed task, unless its status was assigned.
   */
  lemma {:induction false} CompletedWasPermitted(d: Desk, ops: seq<Op>)
    requires Inv(d) && AllowedRun(d, ops)
    ensures DecidedCompleted(Run(d, ops)) ==> DecidedCompleted(d) || SomePermitted(ops)
    ensures (forall op :: op in ops ==> !op.Reassign?) && Run(d, ops).status == TaskCompleted ==>
      d.status == TaskCompleted || SomePermitted(ops)
    decreases |ops|
  {
    if ops != [] {
      var d1, rest := Step(d, ops[0]), ops[1..];
      StepPermitted(d, ops[0]);
      NeverEscalated(d, [ops[0]]);
      assert [ops[0]][1..] == [] && Run(d1, []) == d1 && AllowedRun(d1, []);
      CompletedWasPermitted(d1, rest);
      if SomePermitted(rest) {
        var k :| 0 <= k < |rest| && rest[k].FinalizeOp? && Permitted(rest[k].governed, rest[k].answer);
        assert ops[k + 1] == rest[k];
      }
      hide Step, Inv, Allowed;
      if op :| op in rest && op.Reassign? { assert op in ops; }
    }
  }

  lemma StepPermitted(d: Desk, op: Op)
    requires Inv(d) && Allowed(d, op)
    ensures DecidedCompleted(Step(d, op)) ==> DecidedCompleted(d) || SomePermitted([op])
    ensures !op.Reassign? && Step(d, op).status == TaskCompleted ==> d.status == TaskCompleted || SomePermitted([op])
    ensures SomePermitted([op]) ==> op.FinalizeOp? && Permitted(op.governed, op.answer)
  {
    hide Finalize, Detected, SettledAll, Kept;
    if op.FinalizeOp? {
      if Finished(d.status) {
        FinishedStays(op.staff, op.governed, op.answer, d);
      } else {
        FinalizeDecides(op.staff, op.governed, op.answer, d);
        if Permitted(op.governed, op.answer) { assert SomePermitted([op]) by { assert [op][0] == op; } }
      }
    }
  }

  ghost predicate Inv(d: Desk) {
    Kept(d) && d.status != TaskEscalated && (d.decision.Some? ==> d.decision.value.status != Blocked)
  }

  /** No run of a task escalates it, or decides anything but completed or failed. */
  lemma {:induction false} NeverEscalated(d: Desk, ops: seq<Op>)
    requires Inv(d) && AllowedRun(d, ops)
    ensures Inv(Run(d, ops))
    decreases |ops|
  {
    if ops != [] {
      match ops[0] {
        case Submit(r) => SubmitKeeps(d, r);
        case DetectOp => DetectKeeps(d);
        case ResolveOp(staff) => ResolveKeeps(staff, d);
        case FinalizeOp(staff, governed, answer) => FinalizeNeverBlocks(staff, governed, answer, d);
        case Reassign(_) =>
      }
      NeverEscalated(Step(d, ops[0]), ops[1..]);
    }
  }

  // ---------------------------------------------------------------- what is selected

  lemma {:induction false} PicksAre(conflicts: seq<Conflict>)
    requires forall i :: 0 <= i < |conflicts| ==> conflicts[i].status == Resolved && conflicts[i].selected.Some?
    ensures |Picks(conflicts)| == |conflicts|
    ensures forall i :: 0 <= i < |conflicts| ==> Picks(conflicts)[i] == conflicts[i].selected.value
  {
    if conflicts != [] { PicksAre(conflicts[..|conflicts| - 1]); }
  }

  ghost predicate Listed(recs: Recs, id: string) { exists r :: r in recs && r.id == id }

  lemma {:induction false} UninvolvedAre(recs: Recs, conflicts: seq<Conflict>)
    ensures forall id :: id in Uninvolved(recs, conflicts) <==> Listed(recs, id) && !InConflict(conflicts, id)
    ensures IdsDistinct(recs) ==> Distinct(Uninvolved(recs, conflicts))
  {
    if recs != [] {
      var n := |recs| - 1;
      UninvolvedAre(recs[..n], conflicts);
      assert recs == recs[..n] + [recs[n]];
      forall id ensures Listed(recs, id) <==> Listed(recs[..n], id) || id == recs[n].id {
        if Listed(recs, id) { var r :| r in recs && r.id == id; assert r in recs[..n] || r == recs[n]; }
        if Listed(recs[..n], id) { var r :| r in recs[..n] && r.id == id; assert r in recs; }
        if id == recs[n].id { assert recs[n] in recs; }
      }
      if IdsDistinct(recs) { assert forall r :: r in recs[..n] ==> r.id != recs[n].id; }
      hide InConflict;
    }
  }

  /** Exactly one recommendation for every contested target, all of the others, and nothing twice. */
  ghost predicate OneEach(recs: Recs, selected: seq<string>) {
    && Distinct(selected)
    && (forall id :: id in selected ==> Listed(recs, id))
    && (forall r :: r in recs && !Contested(recs, r.target) ==> r.id in selected)
    && (forall r :: r in recs && Contested(recs, r.target) ==> SomeSelected(recs, selected, r.target))
    && (forall a, b :: a in recs && b in recs && Contested(recs, a.target) && Together(selected, a, b) ==> a == b)
  }

  predicate Together(selected: seq<string>, a: Recommendation, b: Recommendation) {
    a.target == b.target && a.id in selected && b.id in selected
  }

  ghost predicate SomeSelected(recs: Recs, selected: seq<string>, target: string) {
    exists r :: r in recs && r.target == target && r.id in selected
  }

  /** Every stored conflict still covers all recommendations on its target. */
  ghost predicate UpToDate(recs: Recs, conflicts: seq<Conflict>) {
    forall i :: 0 <= i < |conflicts| ==> conflicts[i].ids == IdsFor(recs, conflicts[i].target)
  }

  /** The conflicts a completed decision is made from. */
  ghost predicate Settlement(recs: Recs, cs: seq<Conflict>) {
    && IdsDistinct(recs) && KeysDistinct(cs)
    && (forall i :: 0 <= i < |cs| ==> Grounded(recs, cs[i]) && cs[i].status == Resolved)
    && (forall t :: Contested(recs, t) ==> Filed(cs, t, IdsFor(recs, t)))
  }

  lemma SameId(recs: Recs, a: Recommendation, b: Recommendation)
    requires IdsDistinct(recs) && a in recs && b in recs && a.id == b.id
    ensures a == b
  {}

  /** A recommendation is in a conflict exactly when its target is contested. */
  lemma InConflictIffContested(recs: Recs, cs: seq<Conflict>, r: Recommendation)
    requires Settlement(recs, cs) && r in recs
    ensures InConflict(cs, r.id) <==> Contested(recs, r.target)
    ensures forall i :: 0 <= i < |cs| && r.id in cs[i].ids ==> cs[i].target == r.target
  {
    forall i | 0 <= i < |cs| && r.id in cs[i].ids
      ensures cs[i].target == r.target && Contested(recs, r.target)
    {
      assert OnTarget(recs, cs[i].target, r.id);
      var x :| x in recs && x.target == cs[i].target && x.id == r.id;
      SameId(recs, x, r);
      var a, b :| a in recs && b in recs && Oppose(a, b, cs[i].target);
    }
    if Contested(recs, r.target) {
      IdsForIs(recs, r.target);
      var i :| 0 <= i < |cs| && cs[i].target == r.target && cs[i].ids == IdsFor(recs, r.target);
      assert OnTarget(recs, r.target, r.id);
      assert r.id in cs[i].ids;
    }
  }

  /** The recommendation that the `i`-th conflict selects. */
  lemma PickOf(recs: Recs, cs: seq<Conflict>, i: nat) returns (r: Recommendation)
    requires Settlement(recs, cs) && i < |cs|
    ensures r in recs && r.target == cs[i].target && r.id in cs[i].ids && cs[i].selected == Some(r.id)
    ensures i < |Picks(cs)| && Picks(cs)[i] == r.id && Picks(cs)[i] in Selection(recs, cs)
    ensures Contested(recs, r.target)
  {
    PicksAre(cs);
    var id := cs[i].selected.value;
    assert Grounded(recs, cs[i]) && OnTarget(recs, cs[i].target, id);
    r :| r in recs && r.target == cs[i].target && r.id == id;
    InConflictIffContested(recs, cs, r);
    assert InConflict(cs, r.id);
    assert Selection(recs, cs)[i] == Picks(cs)[i];
  }

  /** A selected recommendation on a contested target is the pick of a conflict on that target. */
  lemma PickIndex(recs: Recs, cs: seq<Conflict>, r: Recommendation) returns (i: nat)
    requires Settlement(recs, cs) && r in recs && Contested(recs, r.target) && r.id in Selection(recs, cs)
    ensures i < |cs| && cs[i].target == r.target && cs[i].selected == Some(r.id)
  {
    UninvolvedAre(recs, cs);
    InConflictIffContested(recs, cs, r);
    PicksAre(cs);
    assert r.id in Picks(cs);
    i :| 0 <= i < |Picks(cs)| && Picks(cs)[i] == r.id;
    var p := PickOf(recs, cs, i);
    SameId(recs, p, r);
  }

  /** With up-to-date conflicts, each target has one conflict. */
  lemma OneConflictEach(recs: Recs, cs: seq<Conflict>, i: nat, j: nat)
    requires KeysDistinct(cs) && UpToDate(recs, cs) && i < |cs| && j < |cs| && cs[i].target == cs[j].target
    ensures i == j
  {
    assert cs[i].ids == cs[j].ids;
  }

  lemma PicksDistinct(recs: Recs, cs: seq<Conflict>)
    requires Settlement(recs, cs) && UpToDate(recs, cs)
    ensures Distinct(Picks(cs))
  {
    PicksAre(cs);
    forall i, j | 0 <= i < j < |cs| ensures Picks(cs)[i] != Picks(cs)[j] {
      hide Settlement, Picks;
      var a := PickOf(recs, cs, i);
      var b := PickOf(recs, cs, j);
      if a.id == b.id {
        assert IdsDistinct(recs) && KeysDistinct(cs) by { SettlementParts(recs, cs); }
        SameId(recs, a, b);
        OneConflictEach(recs, cs, i, j);
      }
    }
  }

  lemma SettlementParts(recs: Recs, cs: seq<Conflict>)
    requires Settlement(recs, cs)
    ensures IdsDistinct(recs) && KeysDistinct(cs)
  {}

  lemma PicksListed(recs: Recs, cs: seq<Conflict>)
    requires Settlement(recs, cs)
    ensures forall id :: id in Picks(cs) ==> Listed(recs, id) && InConflict(cs, id)
  {
    PicksAre(cs);
    forall i | 0 <= i < |cs| ensures Listed(recs, Picks(cs)[i]) && InConflict(cs, Picks(cs)[i]) {
      hide Settlement, Picks;
      var r := PickOf(recs, cs, i);
    }
  }

  lemma SelectionDistinct(recs: Recs, cs: seq<Conflict>)
    requires Settlement(recs, cs) && UpToDate(recs, cs)
    ensures Distinct(Selection(recs, cs))
    ensures forall id :: id in Selection(recs, cs) ==> Listed(recs, id)
  {
    PicksDistinct(recs, cs);
    PicksListed(recs, cs);
    UninvolvedAre(recs, cs);
    hide UpToDate, Listed, InConflict, Picks, Uninvolved, Grounded, Filed;
    DistinctConcat(Picks(cs), Uninvolved(recs, cs));
  }

  lemma UpToDateSelectsOneEach(recs: Recs, cs: seq<Conflict>)
    requires Settlement(recs, cs) && UpToDate(recs, cs)
    ensures OneEach(recs, Selection(recs, cs))
  {
    var selected := Selection(recs, cs);
    SelectionDistinct(recs, cs);
    hide IdsFor, Grounded, Contested;
    forall r | r in recs && !Contested(recs, r.target) ensures r.id in selected {
      InConflictIffContested(recs, cs, r);
      UninvolvedAre(recs, cs);
      assert r.id in Uninvolved(recs, cs);
    }
    hide Selection;
    forall r | r in recs && Contested(recs, r.target) ensures SomeSelected(recs, selected, r.target) {
      assert Filed(cs, r.target, IdsFor(recs, r.target));
      var i :| 0 <= i < |cs| && cs[i].target == r.target && cs[i].ids == IdsFor(recs, r.target);
      var w := PickOf(recs, cs, i);
    }
    forall a, b | a in recs && b in recs && Contested(recs, a.target) && Together(selected, a, b)
      ensures a == b
    {
      var i := PickIndex(recs, cs, a);
      var j := PickIndex(recs, cs, b);
      OneConflictEach(recs, cs, i, j);
      SameId(recs, a, b);
    }
    hide Settlement, UpToDate;
  }

  lemma StaleSelectsTwice(recs: Recs, cs: seq<Conflict>)
    requires Settlement(recs, cs) && !UpToDate(recs, cs)
    ensures !OneEach(recs, Selection(recs, cs))
  {
    hide IdsFor;
    var i :| 0 <= i < |cs| && cs[i].ids != IdsFor(recs, cs[i].target);
    var a := PickOf(recs, cs, i);
    var j :| 0 <= j < |cs| && cs[j].target == cs[i].target && cs[j].ids == IdsFor(recs, cs[i].target);
    var b := PickOf(recs, cs, j);
    hide IdsFor, Grounded, Contested, Uninvolved;
    var selected := Selection(recs, cs);
    assert selected[i] == a.id && selected[j] == b.id;
    assert i != j;
    assert Together(selected, a, b);
  }

  lemma SettlementAt(staff: Staff, d: Desk)
    requires Kept(d)
    ensures Settlement(d.recs, AtFinalize(staff, d).conflicts)
    ensures UpToDate(d.recs, AtFinalize(staff, d).conflicts) <==> UpToDate(d.recs, d.conflicts)
  {
    DetectKeeps(d);
    ResolveKeeps(staff, Detect(d));
    var found, cs := Detect(d).conflicts, AtFinalize(staff, d).conflicts;
    hide Detect, Resolve, IdsFor, Grounded, Settled, Contested;
    forall t | Contested(d.recs, t) ensures Filed(cs, t, IdsFor(d.recs, t)) {
      var i :| 0 <= i < |found| && found[i].target == t && found[i].ids == IdsFor(d.recs, t);
      assert cs[i].target == t && cs[i].ids == IdsFor(d.recs, t);
    }
    assert Settlement(d.recs, cs);
    forall i | 0 <= i < |d.conflicts| ensures cs[i].ids == d.conflicts[i].ids && cs[i].target == d.conflicts[i].target {
      assert found[i] == d.conflicts[i];
    }
  }

  /**
   * A completed decision selects exactly one recommendation per contested target and all of the others
   * precisely when no stored conflict is out of date. With conflicts only ever detected by this
   * finalisation nothing is stored, so it always does.
   */
  lemma OneEachIffUpToDate(staff: Staff, governed: bool, answer: Option<bool>, d: Desk)
    requires Kept(d)
    ensures match Finalize(staff, governed, answer, d).1
      case None => true
      case Some(decision) =>
        decision.status == Completed ==> (OneEach(d.recs, decision.selected) <==> UpToDate(d.recs, d.conflicts))
  {
    hide OneEach, UpToDate, Settlement, Selection, Kept;
    SettlementAt(staff, d);
    var cs := AtFinalize(staff, d).conflicts;
    if UpToDate(d.recs, d.conflicts) {
      UpToDateSelectsOneEach(d.recs, cs);
    } else {
      StaleSelectsTwice(d.recs, cs);
    }
  }

  // ---------------------------------------------------------------- when the selected agree

  /** Recommendations selected together never disagree about a target. */
  ghost predicate Agree(recs: Recs, selected: seq<string>) {
    forall a, b :: a in recs && b in recs && Together(selected, a, b) ==> a.action == b.action
  }

  /** The action of the recommendation that `c` selects once it is settled. */
  function WinnerAction(staff: Staff, recs: Recs, c: Conflict): string {
    var s := Settled(staff, recs, c);
    if s.selected.None? then "" else
      var r := Lookup(recs, s.selected.value);
      if r.None? then "" else r.value.action
  }

  function Current(recs: Recs, target: string): Conflict { Conflict(target, IdsFor(recs, target), Open, None) }

  /** No stored conflict covers all recommendations on `target`. */
  predicate Outdated(recs: Recs, conflicts: seq<Conflict>, target: string) {
    !Filed(conflicts, target, IdsFor(recs, target))
  }

  /**
   * The winners of the stored conflicts on one target want the same action, and where no stored conflict
   * covers all its recommendations, so does the recommendation ranked first among them.
   */
  ghost predicate WinnersAgree(staff: Staff, recs: Recs, conflicts: seq<Conflict>) {
    && (forall i, j :: 0 <= i < j < |conflicts| && conflicts[i].target == conflicts[j].target ==>
        WinnerAction(staff, recs, conflicts[i]) == WinnerAction(staff, recs, conflicts[j]))
    && (forall i :: 0 <= i < |conflicts| && Outdated(recs, conflicts, conflicts[i].target) ==>
        WinnerAction(staff, recs, conflicts[i]) == WinnerAction(staff, recs, Current(recs, conflicts[i].target)))
  }

  /** `cs` are the settled conflicts `found`: the stored ones, then those that detection added. */
  ghost predicate SettledFrom(staff: Staff, recs: Recs, stored: seq<Conflict>, found: seq<Conflict>,
                              cs: seq<Conflict>) {
    && Settlement(recs, cs) && stored <= found && KeysDistinct(found) && |cs| == |found|
    && (forall i :: 0 <= i < |cs| ==>
        cs[i] == Settled(staff, recs, found[i]) && cs[i].target == found[i].target && cs[i].ids == found[i].ids)
    && (forall i :: |stored| <= i < |found| ==> found[i] == Current(recs, found[i].target))
  }

  lemma SettledFromAt(staff: Staff, d: Desk)
    requires Kept(d)
    ensures SettledFrom(staff, d.recs, d.conflicts, Detect(d).conflicts, AtFinalize(staff, d).conflicts)
  {
    DetectKeeps(d);
    ResolveKeeps(staff, Detect(d));
    SettlementAt(staff, d);
    hide Detected, SettledAll, IdsFor, Grounded, Settled, Contested, Settlement;
  }

  lemma PickAction(staff: Staff, recs: Recs, stored: seq<Conflict>, found: seq<Conflict>, cs: seq<Conflict>, i: nat,
                   r: Recommendation)
    requires SettledFrom(staff, recs, stored, found, cs) && i < |cs| && r in recs && cs[i].selected == Some(r.id)
    ensures WinnerAction(staff, recs, found[i]) == r.action
  {
    LookupIs(recs, r.id);
  }

  lemma WinnersAgreeWithin(staff: Staff, recs: Recs, stored: seq<Conflict>, found: seq<Conflict>, cs: seq<Conflict>,
                           i: nat, j: nat)
    requires SettledFrom(staff, recs, stored, found, cs) && WinnersAgree(staff, recs, stored)
    requires i < |found| && j < |found| && found[i].target == found[j].target
    ensures WinnerAction(staff, recs, found[i]) == WinnerAction(staff, recs, found[j])
  {
    hide IdsFor, WinnerAction, Settlement, Settled;
    var n := |stored|;
    if i >= n && j >= n {
      assert i == j;
    } else if i < n && j < n {
      assert found[i] == stored[i] && found[j] == stored[j];
    } else {
      var old_, new_ := if i < n then i else j, if i < n then j else i;
      assert found[old_] == stored[old_];
      NotFiledBefore(recs, stored, found, new_);
    }
  }

  lemma NotFiledBefore(recs: Recs, stored: seq<Conflict>, found: seq<Conflict>, j: nat)
    requires stored <= found && KeysDistinct(found) && |stored| <= j < |found|
    requires found[j] == Current(recs, found[j].target)
    ensures !Filed(stored, found[j].target, IdsFor(recs, found[j].target))
  {
    hide IdsFor;
    forall i | 0 <= i < |stored|
      ensures !(stored[i].target == found[j].target && stored[i].ids == IdsFor(recs, found[j].target))
    {
      assert found[i] == stored[i];
    }
  }

  lemma AgreeIffWinnersAgree(staff: Staff, recs: Recs, stored: seq<Conflict>, found: seq<Conflict>, cs: seq<Conflict>)
    requires SettledFrom(staff, recs, stored, found, cs)
    ensures Agree(recs, Selection(recs, cs)) <==> WinnersAgree(staff, recs, stored)
  {
    hide IdsFor, WinnerAction, Selection, Settled, Grounded, Contested, Current;
    var selected := Selection(recs, cs);
    if WinnersAgree(staff, recs, stored) {
      forall a, b | a in recs && b in recs && Together(selected, a, b) ensures a.action == b.action {
        if Contested(recs, a.target) {
          var i := PickIndex(recs, cs, a);
          var j := PickIndex(recs, cs, b);
          PickAction(staff, recs, stored, found, cs, i, a);
          PickAction(staff, recs, stored, found, cs, j, b);
          WinnersAgreeWithin(staff, recs, stored, found, cs, i, j);
        } else {
          Uncontested(recs, a, b);
        }
      }
    }
    if Agree(recs, selected) {
      forall i, j | 0 <= i < |found| && 0 <= j < |found| && found[i].target == found[j].target
        ensures WinnerAction(staff, recs, found[i]) == WinnerAction(staff, recs, found[j])
      {
        var a := PickOf(recs, cs, i);
        var b := PickOf(recs, cs, j);
        PickAction(staff, recs, stored, found, cs, i, a);
        PickAction(staff, recs, stored, found, cs, j, b);
        assert Together(selected, a, b);
      }
      StoredWinnersAgree(staff, recs, stored, found, cs);
    }
  }

  lemma Uncontested(recs: Recs, a: Recommendation, b: Recommendation)
    requires a in recs && b in recs && a.target == b.target && !Contested(recs, a.target)
    ensures a.action == b.action
  {}

  lemma StoredWinnersAgree(staff: Staff, recs: Recs, stored: seq<Conflict>, found: seq<Conflict>, cs: seq<Conflict>)
    requires SettledFrom(staff, recs, stored, found, cs)
    requires forall i, j :: 0 <= i < |found| && 0 <= j < |found| && found[i].target == found[j].target ==>
      WinnerAction(staff, recs, found[i]) == WinnerAction(staff, recs, found[j])
    ensures WinnersAgree(staff, recs, stored)
  {
    hide IdsFor, WinnerAction, Settled, Grounded, Current;
    forall i, j | 0 <= i < j < |stored| && stored[i].target == stored[j].target
      ensures WinnerAction(staff, recs, stored[i]) == WinnerAction(staff, recs, stored[j])
    {
      assert found[i] == stored[i] && found[j] == stored[j];
    }
    forall i | 0 <= i < |stored| && !Filed(stored, stored[i].target, IdsFor(recs, stored[i].target))
      ensures WinnerAction(staff, recs, stored[i]) == WinnerAction(staff, recs, Current(recs, stored[i].target))
    {
      var t := stored[i].target;
      assert found[i] == stored[i];
      var p := PickOf(recs, cs, i);
      assert Filed(cs, t, IdsFor(recs, t));
      var j :| 0 <= j < |cs| && cs[j].target == t && cs[j].ids == IdsFor(recs, t);
      assert forall k :: 0 <= k < |stored| ==> found[k] == stored[k];
      assert j >= |stored|;
    }
  }

  /**
   * The recommendations that a completed decision selects agree about every target if and only if the
   * stored winners agree with each other and, where no stored conflict is up to date, with the
   * recommendation ranked first now.
   */
  lemma DecisionAgreesIff(staff: Staff, governed: bool, answer: Option<bool>, d: Desk)
    requires Kept(d)
    ensures match Finalize(staff, governed, answer, d).1
      case None => true
      case Some(decision) =>
        decision.status == Completed ==>
          (Agree(d.recs, decision.selected) <==> WinnersAgree(staff, d.recs, d.conflicts))
  {
    hide Agree, WinnersAgree, SettledFrom, Selection, Kept;
    SettledFromAt(staff, d);
    AgreeIffWinnersAgree(staff, d.recs, d.conflicts, Detect(d).conflicts, AtFinalize(staff, d).conflicts);
  }

  /** With no out-of-date conflict stored, they always agree. */
  lemma UpToDateAgree(staff: Staff, d: Desk)
    requires Kept(d) && UpToDate(d.recs, d.conflicts)
    ensures WinnersAgree(staff, d.recs, d.conflicts)
  {
    hide IdsFor, WinnerAction, Grounded;
    forall i, j | 0 <= i < j < |d.conflicts| ensures d.conflicts[i].target != d.conflicts[j].target {
      assert d.conflicts[i].ids == IdsFor(d.recs, d.conflicts[i].target);
    }
  }

  // ---------------------------------------------------------------- how the selected rank

  /** What an agent's word counts for: trust times the authority of the role; an unknown agent's counts nothing. */
  function Standing(staff: Staff, agent: string): real {
    if agent !in staff.agents then 0.0
    else if staff.agents[agent].role in staff.authority
      then staff.agents[agent].trust * staff.authority[staff.agents[agent].role]
    else staff.agents[agent].trust / 2.0
  }

  /** `a` weighs more than `b`; or as much, and came earlier; or at the same time, from the agent named first. */
  predicate Outranks(staff: Staff, a: Recommendation, b: Recommendation) {
    var x, y := a.confidence * Standing(staff, a.agent), b.confidence * Standing(staff, b.agent);
    x > y || (x == y && StrLe(a.createdAt, b.createdAt) && (a.createdAt == b.createdAt ==> StrLe(a.agent, b.agent)))
  }

  lemma RankIsOutranks(staff: Staff, a: Recommendation, b: Recommendation)
    ensures RankLe(staff, a, b) <==> Outranks(staff, a, b)
  {
    StrLeIsTotalOrder();
    ScoreIs(staff, a);
    ScoreIs(staff, b);
    hide Score, Standing;
  }

  lemma ScoreIs(staff: Staff, r: Recommendation)
    ensures Score(staff, r) == r.confidence * Standing(staff, r.agent)
  {
    if r.agent in staff.agents {
      var agent := staff.agents[r.agent];
      if agent.role in staff.authority { Times(r.confidence, agent.trust, staff.authority[agent.role]); }
    }
  }

  lemma Times(x: real, y: real, z: real)
    ensures x * y * z == x * (y * z)
  {}

  /** An earlier resolution chose `r`. */
  ghost predicate ChosenBefore(conflicts: seq<Conflict>, r: Recommendation) {
    exists i :: 0 <= i < |conflicts| && conflicts[i].target == r.target && conflicts[i].status == Resolved
                && conflicts[i].selected == Some(r.id)
  }

  /** `ids` are the recommendations of an open stored conflict on `target`, or all there are now. */
  ghost predicate UpForDecision(recs: Recs, conflicts: seq<Conflict>, target: string, ids: seq<string>) {
    || ids == IdsFor(recs, target)
    || (exists i :: 0 <= i < |conflicts| && conflicts[i].target == target && conflicts[i].status == Open
                    && conflicts[i].ids == ids)
  }

  ghost predicate WonNow(staff: Staff, recs: Recs, conflicts: seq<Conflict>, r: Recommendation) {
    exists ids :: UpForDecision(recs, conflicts, r.target, ids) && Wins(staff, recs, ids, r)
  }

  lemma SettledPick(staff: Staff, recs: Recs, stored: seq<Conflict>, found: seq<Conflict>, cs: seq<Conflict>, i: nat,
                    r: Recommendation)
    requires SettledFrom(staff, recs, stored, found, cs) && i < |cs|
    requires forall k :: 0 <= k < |stored| ==> Grounded(recs, stored[k])
    requires r in recs && cs[i].target == r.target && cs[i].selected == Some(r.id)
    ensures ChosenBefore(stored, r) || WonNow(staff, recs, stored, r)
  {
    hide IdsFor;
    if i < |stored| {
      assert found[i] == stored[i];
      if stored[i].status == Open {
        SettledKeeps(staff, recs, stored[i]);
        var w :| Wins(staff, recs, stored[i].ids, w) && cs[i].selected == Some(w.id);
        SameId(recs, w, r);
        assert UpForDecision(recs, stored, r.target, stored[i].ids);
      }
    } else {
      SettledIs(staff, recs, found[i]);
      assert Grounded(recs, cs[i]);
      var w :| Wins(staff, recs, found[i].ids, w) && cs[i].selected == Some(w.id);
      SameId(recs, w, r);
      assert UpForDecision(recs, stored, r.target, found[i].ids);
    }
  }

  lemma WinsAll(staff: Staff, recs: Recs, r: Recommendation)
    requires IdsDistinct(recs) && Wins(staff, recs, IdsFor(recs, r.target), r)
    ensures forall x :: x in recs && x.target == r.target ==> Outranks(staff, r, x)
  {
    IdsForIs(recs, r.target);
    hide IdsFor, RankLe, Outranks;
    forall x | x in recs && x.target == r.target ensures Outranks(staff, r, x) {
      assert OnTarget(recs, r.target, x.id);
      RankIsOutranks(staff, r, x);
    }
  }

  /**
   * What is selected for a contested target was chosen by an earlier resolution, or ranks first among the
   * recommendations of an open stored conflict or among all there are; so it ranks first among all unless
   * a stored conflict on this very target is resolved already or out of date.
   */
  lemma SelectedRankFirst(staff: Staff, governed: bool, answer: Option<bool>, d: Desk, r: Recommendation)
    requires Kept(d) && r in d.recs && Contested(d.recs, r.target)
    requires var decision := Finalize(staff, governed, answer, d).1;
      decision.Some? && decision.value.status == Completed && r.id in decision.value.selected
    ensures ChosenBefore(d.conflicts, r) || WonNow(staff, d.recs, d.conflicts, r)
    ensures (forall i :: 0 <= i < |d.conflicts| && d.conflicts[i].target == r.target ==>
              d.conflicts[i].status == Open && d.conflicts[i].ids == IdsFor(d.recs, r.target)) ==>
      forall x :: x in d.recs && x.target == r.target ==> Outranks(staff, r, x)
  {
    hide IdsFor, Contested, Selection, Grounded, Detected, SettledAll, Outranks, Wins, SettledFrom;
    var recs, found, cs := d.recs, Detect(d).conflicts, AtFinalize(staff, d).conflicts;
    SettlementAt(staff, d);
    SettledFromAt(staff, d);
    var i := PickIndex(recs, cs, r);
    SettledPick(staff, recs, d.conflicts, found, cs, i, r);
    if forall k :: 0 <= k < |d.conflicts| && d.conflicts[k].target == r.target ==>
        d.conflicts[k].status == Open && d.conflicts[k].ids == IdsFor(recs, r.target)
    {
      assert Wins(staff, recs, IdsFor(recs, r.target), r);
      WinsAll(staff, recs, r);
    }
  }

  // ---------------------------------------------------------------- a late recommendation

  /**
   * The winner of an out-of-date conflict is selected along with a later recommendation that ranks
   * first on the same target, whatever their actions are.
   */
  lemma StaleWinnerStays(staff: Staff, d: Desk, i: nat, r: Recommendation)
    requires Kept(d) && i < |d.conflicts| && d.conflicts[i].status == Resolved && r in d.recs
    requires r.target == d.conflicts[i].target && r.id !in d.conflicts[i].ids
    requires forall j :: 0 <= j < |d.conflicts| ==> d.conflicts[j].ids != IdsFor(d.recs, r.target)
    requires forall x :: x in d.recs && x.target == r.target && x != r ==> !RankLe(staff, x, r)
    ensures var selected := Selection(d.recs, AtFinalize(staff, d).conflicts);
      d.conflicts[i].selected.Some? && d.conflicts[i].selected.value in selected && r.id in selected
  {
    hide IdsFor, Contested, Selection, Detect, Resolve, RankLe, Settled;
    var recs, found, cs := d.recs, Detect(d).conflicts, AtFinalize(staff, d).conflicts;
    SettledFromAt(staff, d);
    hide AtFinalize;
    assert Grounded(recs, d.conflicts[i]);
    assert found[i] == d.conflicts[i] && cs[i] == found[i] by { ResolvedStays(staff, recs, d.conflicts[i]); }
    var p := PickOf(recs, cs, i);
    var j := CurrentIndex(staff, recs, d.conflicts, found, cs, r.target);
    BestIsPicked(staff, recs, d.conflicts, found, cs, j, r);
  }

  /** Where no stored conflict covers all recommendations on a contested target, detection adds one that does. */
  lemma CurrentIndex(staff: Staff, recs: Recs, stored: seq<Conflict>, found: seq<Conflict>, cs: seq<Conflict>,
                     t: string)
    returns (j: nat)
    requires SettledFrom(staff, recs, stored, found, cs) && Contested(recs, t)
    requires forall i :: 0 <= i < |stored| ==> stored[i].ids != IdsFor(recs, t)
    ensures |stored| <= j < |found| && found[j].target == t
  {
    hide IdsFor, Settled, Grounded;
    assert Filed(cs, t, IdsFor(recs, t));
    j :| 0 <= j < |cs| && cs[j].target == t && cs[j].ids == IdsFor(recs, t);
    assert forall k :: 0 <= k < |stored| ==> found[k] == stored[k];
  }

  lemma ResolvedStays(staff: Staff, recs: Recs, c: Conflict)
    requires c.status == Resolved
    ensures Settled(staff, recs, c) == c
  {}

  /** The recommendation that outranks all others on its target is picked by a conflict over all of them. */
  lemma BestIsPicked(staff: Staff, recs: Recs, stored: seq<Conflict>, found: seq<Conflict>, cs: seq<Conflict>, j: nat,
                     r: Recommendation)
    requires SettledFrom(staff, recs, stored, found, cs) && |stored| <= j < |found| && found[j].target == r.target
    requires r in recs
    requires forall x :: x in recs && x.target == r.target && x != r ==> !RankLe(staff, x, r)
    ensures r.id in Selection(recs, cs)
  {
    hide IdsFor, Contested, Selection, RankLe, Settled, Grounded;
    IdsForIs(recs, r.target);
    assert OnTarget(recs, r.target, r.id);
    SettledIs(staff, recs, found[j]);
    var w :| Wins(staff, recs, found[j].ids, w) && cs[j].selected == Some(w.id);
    assert RankLe(staff, w, r) && OnTarget(recs, r.target, w.id);
    var x :| x in recs && x.target == r.target && x.id == w.id;
    SameId(recs, x, w);
    var q := PickOf(recs, cs, j);
  }

  const CREW := Staff(map["ann" := Agent(1.0, "dev"), "bob" := Agent(1.0, "dev")], map["dev" := 1.0])
  const KEEP := Recommendation("r1", "ann", "KEEP", "db", 0.5, "t1")
  const DROP := Recommendation("r2", "bob", "DROP", "db", 0.3, "t2")
  const LATE := Recommendation("r3", "bob", "DROP", "db", 0.9, "t3")

  const EARLY := [KEEP, DROP]

  lemma EarlyTargets()
    ensures Targets(EARLY) == ["db"]
  {
    assert EARLY[..1] == [KEEP];
    assert Targets([KEEP]) == ["db"];
  }

  lemma OneTarget(recs: Recs, t: string)
    requires Contested(recs, t)
    ensures Detected(recs, [], [t]) == [Conflict(t, IdsFor(recs, t), Open, None)]
  {
    assert Detected(recs, [], [t][..0]) == [];
  }

  /** Detecting and resolving the first two recommendations files one conflict, won by the first. */
  lemma EarlySettlement(d: Desk)
    requires d.recs == EARLY && d.conflicts == []
    ensures Kept(d) && Resolve(CREW, Detect(d)).conflicts == [Conflict("db", IdsFor(EARLY, "db"), Resolved, Some("r1"))]
    ensures "r1" in IdsFor(EARLY, "db") && "r3" !in IdsFor(EARLY, "db")
  {
    EarlyTargets();
    assert KEEP in EARLY && DROP in EARLY;
    assert Contested(EARLY, "db");
    OneTarget(EARLY, "db");
    IdsForIs(EARLY, "db");
    assert OnTarget(EARLY, "db", "r1") && !OnTarget(EARLY, "db", "r3");
    hide IdsFor, Detected, Targets, Contested;
    var c := Conflict("db", IdsFor(EARLY, "db"), Open, None);
    assert Detect(d).conflicts == [c];
    SettledIs(CREW, EARLY, c);
    EarlyScores();
    assert !RankLe(CREW, DROP, KEEP);
    hide RankLe, Score;
  }

  lemma EarlyScores()
    ensures Score(CREW, KEEP) == 0.5 && Score(CREW, DROP) == 0.3 && Score(CREW, LATE) == 0.9
  {}

  /**
   * A recommendation that arrives after an earlier detection makes finalisation select two opposing
   * actions for the same target.
   */
  lemma LateRecommendationOpposes(d: Desk)
    requires d.recs == EARLY && d.conflicts == [] && d.status == Review
    ensures var late := Step(Resolve(CREW, Detect(d)), Submit(LATE));
      match Finalize(CREW, false, None, late).1
      case None => false
      case Some(decision) =>
        decision.status == Completed && Together(decision.selected, KEEP, LATE) && KEEP.action != LATE.action
  {
    hide Kept, IdsFor, Selection, Finalize, AtFinalize, Detected, SettledAll, RankLe;
    EarlySettlement(d);
    DetectKeeps(d);
    var settled := Resolve(CREW, Detect(d));
    ResolveKeeps(CREW, Detect(d));
    assert settled.recs == EARLY && settled.status == Review;
    var late := Step(settled, Submit(LATE));
    LateIsKept(settled, late);
    LateRanksFirst(late.recs);
    StaleWinnerStays(CREW, late, 0, LATE);
    LateCompletes(late);
  }

  lemma LateIsKept(settled: Desk, late: Desk)
    requires Kept(settled) && settled.recs == EARLY && late == settled.(recs := EARLY + [LATE])
    ensures Kept(late) && LATE in late.recs && "r3" in IdsFor(late.recs, "db")
  {
    SubmitKeeps(settled, LATE);
    assert late.recs[2] == LATE;
    IdsForIs(late.recs, "db");
    assert OnTarget(late.recs, "db", "r3");
  }

  lemma LateRanksFirst(recs: Recs)
    requires recs == EARLY + [LATE]
    ensures forall x :: x in recs && x != LATE ==> !RankLe(CREW, x, LATE)
  {
    EarlyScores();
  }

  lemma LateCompletes(late: Desk)
    requires Kept(late) && late.recs != [] && late.status == Review
    ensures var out := Finalize(CREW, false, None, late).1;
      out.Some? && out.value.status == Completed
        && out.value.selected == Selection(late.recs, AtFinalize(CREW, late).conflicts)
  {
    FinalizeNeverBlocks(CREW, false, None, late);
    hide Detected, SettledAll, Selection, Kept;
  }
}
