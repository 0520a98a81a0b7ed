/** The safety interlocks that evidence about an evolved candidate has to clear before promotion. */
module SafetyInterlocks {
  import opened Order

  datatype SafetyPolicy = SafetyPolicy(
    requireSimulation: bool, requireVerification: bool, requireFitness: bool,
    requireCompiler: bool, requireFeedback: bool, requirePareto: bool, requireRollbackPlan: bool,
    forbidIncidents: bool, forbidSecurityFindings: bool, allowBreakingChanges: bool,
    maxComplexity: Option<real>, failOnConstraints: bool)

  datatype Evidence = Evidence(
    simulationStatus: Option<string>, verificationValid: Option<bool>, fitnessPassed: Option<bool>,
    constraints: seq<(string, bool)>, compilerPassed: Option<bool>, feedbackPassed: Option<bool>,
    criticalIncident: bool, criticalSecurityFinding: bool, paretoSelected: bool, complexity: Option<real>,
    publicApiRemoved: bool, breakingChangesAllowed: bool, rollbackPlan: Option<map<string, string>>)

  datatype Interlock =
    | Simulation | Verification | Fitness | Compiler | Feedback | Pareto | RollbackPlan
    | Incident | SecurityFinding | Complexity | PublicApi | Constraint(name: string)

  datatype Report = Report(passed: bool, issues: seq<Interlock>, errorCount: nat)

  /** The evidence leaves `lock` closed: it is switched on and the evidence does not clear it. */
  predicate Trips(e: Evidence, p: SafetyPolicy, lock: Interlock) {
    match lock
    case Simulation => p.requireSimulation && e.simulationStatus != Some("PASSED")
    case Verification => p.requireVerification && e.verificationValid != Some(true)
    case Fitness => p.requireFitness && e.fitnessPassed != Some(true)
    case Compiler => p.requireCompiler && e.compilerPassed != Some(true)
    case Feedback => p.requireFeedback && e.feedbackPassed != Some(true)
    case Pareto => p.requirePareto && !e.paretoSelected
    case RollbackPlan => p.requireRollbackPlan && (e.rollbackPlan.None? || e.rollbackPlan.value == map[])
    case Incident => p.forbidIncidents && e.criticalIncident
    case SecurityFinding => p.forbidSecurityFindings && e.criticalSecurityFinding
    case Complexity => e.complexity.Some? && p.maxComplexity.Some? && e.complexity.value > p.maxComplexity.value
    case PublicApi => !e.breakingChangesAllowed && !p.allowBreakingChanges && e.publicApiRemoved
    case Constraint(name) => p.failOnConstraints && (name, false) in e.constraints
  }

  /** The locks `e` can meet, in the order they are checked. */
  function Locks(e: Evidence): seq<Interlock> {
    [Simulation, Verification, Fitness, Compiler, Feedback, Pareto, RollbackPlan, Incident, SecurityFinding,
     Complexity, PublicApi]
    + seq(|e.constraints|, i requires 0 <= i < |e.constraints| => Constraint(e.constraints[i].0))
  }

  function Noted(issues: seq<Interlock>, trips: bool, lock: Interlock): seq<Interlock> {
    if trips then issues + [lock] else issues
  }

  function Closed(e: Evidence, p: SafetyPolicy, locks: seq<Interlock>): seq<Interlock> {
    if locks == [] then [] else
      var last := locks[|locks| - 1];
      Noted(Closed(e, p, locks[..|locks| - 1]), Trips(e, p, last), last)
  }

  function Assess(e: Evidence, p: SafetyPolicy): Report {
    var issues := Closed(e, p, Locks(e));
    Report(issues == [], issues, |issues|)
  }

  lemma {:induction false} ClosedAre(e: Evidence, p: SafetyPolicy, locks: seq<Interlock>)
    ensures forall lock :: lock in Closed(e, p, locks) <==> lock in locks && Trips(e, p, lock)
    ensures Distinct(locks) ==> Distinct(Closed(e, p, locks))
  {
    if locks != [] {
      var n := |locks| - 1;
      ClosedAre(e, p, locks[..n]);
      assert locks == locks[..n] + [locks[n]];
      if Distinct(locks) { assert locks[n] !in locks[..n]; }
    }
  }

  predicate Safe(e: Evidence, p: SafetyPolicy) { Assess(e, p).passed }

  /** The report names exactly the closed interlocks, and passes exactly when none is closed. */
  lemma ReportNamesClosedLocks(e: Evidence, p: SafetyPolicy)
    ensures forall lock :: lock in Assess(e, p).issues <==> Trips(e, p, lock)
    ensures Safe(e, p) <==> forall lock :: !Trips(e, p, lock)
  {
    ClosedAre(e, p, Locks(e));
    forall lock | Trips(e, p, lock) ensures lock in Locks(e) {
      if lock.Constraint? {
        var i :| 0 <= i < |e.constraints| && e.constraints[i] == (lock.name, false);
        assert Locks(e)[11 + i] == lock;
      } else {
        assert Locks(e)[..11] == [Simulation, Verification, Fitness, Compiler, Feedback, Pareto, RollbackPlan, Incident,
                                  SecurityFinding, Complexity, PublicApi];
        assert lock in Locks(e)[..11];
      }
    }
    if !Safe(e, p) { assert Trips(e, p, Assess(e, p).issues[0]); }
  }

  /** The report, issue by issue, on the fields of policy and evidence. */
  lemma IssuesTell(e: Evidence, p: SafetyPolicy)
    ensures var issues := Assess(e, p).issues;
      && (Simulation in issues <==> p.requireSimulation && e.simulationStatus != Some("PASSED"))
      && (Verification in issues <==> p.requireVerification && e.verificationValid != Some(true))
      && (Fitness in issues <==> p.requireFitness && e.fitnessPassed != Some(true))
      && (Compiler in issues <==> p.requireCompiler && e.compilerPassed != Some(true))
      && (Feedback in issues <==> p.requireFeedback && e.feedbackPassed != Some(true))
      && (Pareto in issues <==> p.requirePareto && !e.paretoSelected)
      && (RollbackPlan in issues <==> p.requireRollbackPlan && (e.rollbackPlan.None? || e.rollbackPlan.value == map[]))
      && (Incident in issues <==> p.forbidIncidents && e.criticalIncident)
      && (SecurityFinding in issues <==> p.forbidSecurityFindings && e.criticalSecurityFinding)
      && (PublicApi in issues <==> e.publicApiRemoved && !(e.breakingChangesAllowed || p.allowBreakingChanges))
      && (forall name :: Constraint(name) in issues <==> p.failOnConstraints && (name, false) in e.constraints)
    ensures Complexity in Assess(e, p).issues <==>
      match (e.complexity, p.maxComplexity) case (Some(found), Some(limit)) => found > limit case _ => false
    ensures Assess(e, p).errorCount == |Assess(e, p).issues| && (Assess(e, p).passed <==> Assess(e, p).issues == [])
  {
    ReportNamesClosedLocks(e, p);
    assert Assess(e, p).errorCount == |Assess(e, p).issues|;
    hide Assess;
  }

  /** What evidence has to show to get past every interlock. */
  predicate MeetsSafety(e: Evidence, p: SafetyPolicy) {
    && (p.requireSimulation ==> e.simulationStatus == Some("PASSED"))
    && (p.requireVerification ==> e.verificationValid == Some(true))
    && (p.requireFitness ==> e.fitnessPassed == Some(true))
    && (p.requireCompiler ==> e.compilerPassed == Some(true))
    && (p.requireFeedback ==> e.feedbackPassed == Some(true))
    && (p.requirePareto ==> e.paretoSelected)
    && (p.requireRollbackPlan ==> e.rollbackPlan.Some? && |e.rollbackPlan.value| > 0)
    && (p.forbidIncidents ==> !e.criticalIncident)
    && (p.forbidSecurityFindings ==> !e.criticalSecurityFinding)
    && (e.complexity.Some? && p.maxComplexity.Some? ==> e.complexity.value <= p.maxComplexity.value)
    && (e.publicApiRemoved ==> e.breakingChangesAllowed || p.allowBreakingChanges)
    && (p.failOnConstraints ==> forall c :: c in e.constraints ==> c.1)
  }

  lemma SafeIffMet(e: Evidence, p: SafetyPolicy)
    ensures Safe(e, p) <==> MeetsSafety(e, p)
  {
    ReportNamesClosedLocks(e, p);
    hide Safe, Assess;
    if MeetsSafety(e, p) {
      forall lock ensures !Trips(e, p, lock) {}
    } else {
      SomeLockTrips(e, p);
    }
  }

  lemma SomeLockTrips(e: Evidence, p: SafetyPolicy)
    requires !MeetsSafety(e, p)
    ensures exists lock :: Trips(e, p, lock)
  {
    if c :| c in e.constraints && !c.1 && p.failOnConstraints {
      assert c == (c.0, false);
      assert Trips(e, p, Constraint(c.0));
    } else {
      var locks := [Simulation, Verification, Fitness, Compiler, Feedback, Pareto, RollbackPlan, Incident,
                    SecurityFinding, Complexity, PublicApi];
      assert exists i :: 0 <= i < |locks| && Trips(e, p, locks[i]) by {
        assert Trips(e, p, locks[0]) || Trips(e, p, locks[1]) || Trips(e, p, locks[2]) || Trips(e, p, locks[3])
            || Trips(e, p, locks[4]) || Trips(e, p, locks[5]) || Trips(e, p, locks[6]) || Trips(e, p, locks[7])
            || Trips(e, p, locks[8]) || Trips(e, p, locks[9]) || Trips(e, p, locks[10]);
      }
    }
  }

  lemma ClosedNext(e: Evidence, p: SafetyPolicy, locks: seq<Interlock>, k: nat)
    requires k < |locks|
    ensures Closed(e, p, locks[..k + 1]) == Noted(Closed(e, p, locks[..k]), Trips(e, p, locks[k]), locks[k])
  {
    assert locks[..k + 1][..k] == locks[..k];
  }

  lemma NoConstraints(e: Evidence, p: SafetyPolicy, k: nat)
    requires !p.failOnConstraints && k <= |e.constraints|
    ensures Closed(e, p, Locks(e)[..11 + k]) == Closed(e, p, Locks(e)[..11])
  {
    if k > 0 {
      NoConstraints(e, p, k - 1);
      ClosedNext(e, p, Locks(e), 10 + k);
    }
  }

  /** The constraints come from a dictionary, so each name has one value. */
  predicate NamesDistinct(e: Evidence) {
    forall i, j :: 0 <= i < j < |e.constraints| ==> e.constraints[i].0 != e.constraints[j].0
  }

  lemma OneValue(e: Evidence, i: nat)
    requires NamesDistinct(e) && i < |e.constraints|
    ensures (e.constraints[i].0, false) in e.constraints <==> !e.constraints[i].1
  {
    if (e.constraints[i].0, false) in e.constraints {
      var j :| 0 <= j < |e.constraints| && e.constraints[j] == (e.constraints[i].0, false);
      assert i == j;
    } else {
      assert e.constraints[i] in e.constraints;
    }
  }

  lemma LocksDistinct(e: Evidence)
    requires NamesDistinct(e)
    ensures Distinct(Locks(e))
  {
    var locks := Locks(e);
    forall i, j | 0 <= i < j < |locks| ensures locks[i] != locks[j] {
      if i >= 11 { assert e.constraints[i - 11].0 != e.constraints[j - 11].0; }
    }
  }

  lemma EachLockOnce(e: Evidence, p: SafetyPolicy)
    requires NamesDistinct(e)
    ensures Distinct(Assess(e, p).issues)
  {
    LocksDistinct(e);
    ClosedAre(e, p, Locks(e));
  }

  lemma FixedLocks(e: Evidence)
    ensures var locks := Locks(e);
      && |locks| >= 11 && locks[0] == Simulation && locks[1] == Verification && locks[2] == Fitness
      && locks[3] == Compiler && locks[4] == Feedback && locks[5] == Pareto
      && locks[6] == RollbackPlan && locks[7] == Incident && locks[8] == SecurityFinding && locks[9] == Complexity
      && locks[10] == PublicApi
  {}

  class SafetyInterlockEngine {
    constructor () {}

    method Evaluate(e: Evidence, p: SafetyPolicy) returns (r: Report)
      requires NamesDistinct(e)
      ensures r == Assess(e, p)
      ensures Distinct(r.issues)
    {
      var issues := RequiredChecks(e, p);
      issues := ForbiddenChecks(e, p, issues);
      issues := WithConstraints(e, p, issues);
      r := Report(|issues| == 0, issues, |issues|);
      EachLockOnce(e, p);
    }

    /** The results a candidate must have. */
    method RequiredChecks(e: Evidence, p: SafetyPolicy) returns (issues: seq<Interlock>)
      ensures issues == Closed(e, p, Locks(e)[..6])
    {
      issues := [];
      ghost var locks := Locks(e);
      FixedLocks(e);
      assert issues == Closed(e, p, locks[..0]);
      hide Closed, Noted, Locks;
      issues := Noted(issues, p.requireSimulation && e.simulationStatus != Some("PASSED"), Simulation);
      ClosedNext(e, p, locks, 0);
      issues := Noted(issues, p.requireVerification && e.verificationValid != Some(true), Verification);
      ClosedNext(e, p, locks, 1);
      issues := Noted(issues, p.requireFitness && e.fitnessPassed != Some(true), Fitness);
      ClosedNext(e, p, locks, 2);
      issues := EvidenceChecks(e, p, issues);
    }

    method EvidenceChecks(e: Evidence, p: SafetyPolicy, before: seq<Interlock>) returns (issues: seq<Interlock>)
      requires before == Closed(e, p, Locks(e)[..3])
      ensures issues == Closed(e, p, Locks(e)[..6])
    {
      hide Closed, Noted, Locks;
      issues := before;
      ghost var locks := Locks(e);
      FixedLocks(e);
      issues := Noted(issues, p.requireCompiler && e.compilerPassed != Some(true), Compiler);
      ClosedNext(e, p, locks, 3);
      issues := Noted(issues, p.requireFeedback && e.feedbackPassed != Some(true), Feedback);
      ClosedNext(e, p, locks, 4);
      issues := Noted(issues, p.requirePareto && !e.paretoSelected, Pareto);
      ClosedNext(e, p, locks, 5);
    }

    /** The rollback plan, and the findings a candidate must not have. */
    method ForbiddenChecks(e: Evidence, p: SafetyPolicy, before: seq<Interlock>) returns (issues: seq<Interlock>)
      requires before == Closed(e, p, Locks(e)[..6])
      ensures issues == Closed(e, p, Locks(e)[..11])
    {
      hide Closed, Noted, Locks;
      issues := before;
      ghost var locks := Locks(e);
      FixedLocks(e);
      issues := Noted(issues, p.requireRollbackPlan
                      && (e.rollbackPlan.None? || e.rollbackPlan.value == map[]), RollbackPlan);
      ClosedNext(e, p, locks, 6);
      issues := Noted(issues, p.forbidIncidents && e.criticalIncident, Incident);
      ClosedNext(e, p, locks, 7);
      issues := Noted(issues, p.forbidSecurityFindings && e.criticalSecurityFinding, SecurityFinding);
      ClosedNext(e, p, locks, 8);
      issues := Noted(issues, e.complexity.Some? && p.maxComplexity.Some?
                      && e.complexity.value > p.maxComplexity.value, Complexity);
      ClosedNext(e, p, locks, 9);
      var breakingAllowed := e.breakingChangesAllowed || p.allowBreakingChanges;
      issues := Noted(issues, !breakingAllowed && e.publicApiRemoved, PublicApi);
      ClosedNext(e, p, locks, 10);
    }

    /** The last check: every fitness constraint that came out false. */
    method WithConstraints(e: Evidence, p: SafetyPolicy, before: seq<Interlock>) returns (issues: seq<Interlock>)
      requires NamesDistinct(e) && before == Closed(e, p, Locks(e)[..11])
      ensures issues == Closed(e, p, Locks(e))
    {
      hide Closed, Noted;
      ghost var locks := Locks(e);
      issues := before;
      if p.failOnConstraints {
        for i := 0 to |e.constraints|
          invariant issues == Closed(e, p, locks[..11 + i])
        {
          OneValue(e, i);
          ClosedNext(e, p, locks, 11 + i);
          issues := Noted(issues, !e.constraints[i].1, Constraint(e.constraints[i].0));
        }
      } else {
        NoConstraints(e, p, |e.constraints|);
      }
      assert locks[..11 + |e.constraints|] == locks;
    }
  }
}
