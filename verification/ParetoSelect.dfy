/** Selection of preferred candidates: eligibility, fronts, and the order within a front. */
module ParetoSelect {
  import opened Order
  import opened ParetoSort
  import opened ParetoFronts
  import opened ParetoCrowding

  datatype Fitness = Fitness(objectives: map<string, real>, constraints: map<string, bool>)
  datatype Evaluation = Evaluation(candidate: string, fitness: Option<Fitness>, feasible: bool)

  /** The model bounds `max_selected` below by one and `epsilon` below by zero. */
  datatype PolicyFields = Policy(objectives: seq<string>, maxSelected: nat, minObjective: real, epsilon: real,
                                 requireConstraints: bool)
  type Policy = p: PolicyFields | p.maxSelected >= 1 && p.epsilon >= 0.0 witness Policy([], 1, 0.2, 0.0, true)

  predicate Eligible(e: Evaluation, p: Policy) {
    && e.fitness.Some? && e.feasible
    && (p.requireConstraints ==>
        forall name :: name in e.fitness.value.constraints ==> e.fitness.value.constraints[name])
    && (forall o :: o in e.fitness.value.objectives ==> e.fitness.value.objectives[o] >= p.minObjective)
  }

  function EligibleOnes(es: seq<Evaluation>, p: Policy): seq<Evaluation> {
    if es == [] then []
    else EligibleOnes(es[..|es| - 1], p) + (if Eligible(es[|es| - 1], p) then [es[|es| - 1]] else [])
  }

  function Project(e: Evaluation, objectives: seq<string>): Values
    requires e.fitness.Some?
  {
    map o | o in objectives :: At(e.fitness.value.objectives, o)
  }

  /** A later evaluation of the same candidate overwrites the values but keeps the candidate's place. */
  function Tabulate(es: seq<Evaluation>, objectives: seq<string>): Table
    requires forall e :: e in es ==> e.fitness.Some?
  {
    if es == [] then Table([], map[])
    else
      var t, e := Tabulate(es[..|es| - 1], objectives), es[|es| - 1];
      Table(if e.candidate in t.values then t.ids else t.ids + [e.candidate],
            t.values[e.candidate := Project(e, objectives)])
  }

  lemma {:induction false} TabulateFacts(es: seq<Evaluation>, objectives: seq<string>)
    requires forall e :: e in es ==> e.fitness.Some?
    ensures Tabulate(es, objectives).Valid()
    ensures forall c :: c in Tabulate(es, objectives).ids <==> exists e :: e in es && e.candidate == c
  {
    if es != [] {
      var front, e := es[..|es| - 1], es[|es| - 1];
      assert es == front + [e];
      TabulateFacts(front, objectives);
      var t := Tabulate(front, objectives);
      if e.candidate !in t.values { DistinctAppend(t.ids, e.candidate); }
      forall c ensures c in Tabulate(es, objectives).ids <==> exists e :: e in es && e.candidate == c {
        if c == e.candidate { assert e in es; }
        if e' :| e' in es && e'.candidate == c { assert e' in front || e' == e; }
      }
    }
  }

  // ---------------------------------------------------------------- the order within a front

  function Distance(d: map<string, real>, c: string): real {
    if c in d then d[c] else 0.0
  }

  /** Larger values first, objective by objective. */
  predicate ValuesBefore(t: Table, objectives: seq<string>, a: string, b: string) {
    if objectives == [] then StrLe(a, b)
    else if Score(t, objectives[0], a) != Score(t, objectives[0], b)
      then Score(t, objectives[0], a) > Score(t, objectives[0], b)
    else ValuesBefore(t, objectives[1..], a, b)
  }

  /** The sort key: larger crowding distance, then larger values, then smaller id. */
  predicate Before(t: Table, objectives: seq<string>, d: map<string, real>, a: string, b: string) {
    if Distance(d, a) != Distance(d, b) then Distance(d, a) > Distance(d, b) else ValuesBefore(t, objectives, a, b)
  }

  lemma {:induction false} ValuesBeforeLaws(t: Table, objectives: seq<string>, a: string, b: string, c: string)
    ensures ValuesBefore(t, objectives, a, b) || ValuesBefore(t, objectives, b, a)
    ensures ValuesBefore(t, objectives, a, b) && ValuesBefore(t, objectives, b, c) ==> ValuesBefore(t, objectives, a, c)
  {
    if objectives == [] { StrLeIsTotalOrder(); } else { ValuesBeforeLaws(t, objectives[1..], a, b, c); }
  }

  lemma BeforeIsPreorder(t: Table, objectives: seq<string>, d: map<string, real>)
    ensures Preorder((a, b) => Before(t, objectives, d, a, b))
  {
    forall a, b, c
      ensures Before(t, objectives, d, a, b) || Before(t, objectives, d, b, a)
      ensures Before(t, objectives, d, a, b) && Before(t, objectives, d, b, c) ==> Before(t, objectives, d, a, c)
    {
      ValuesBeforeLaws(t, objectives, a, b, c);
    }
  }

  function Distances(t: Table, objectives: seq<string>, front: seq<string>): map<string, real> {
    map x | x in front :: if |front| <= 2 then LARGE else Crowding(t, front, objectives, |objectives|, x)
  }

  function Arrange(t: Table, objectives: seq<string>, front: seq<string>): seq<string> {
    var d := Distances(t, objectives, front);
    SortBy(front, (a, b) => Before(t, objectives, d, a, b))
  }

  /** What the result says of one candidate. */
  datatype ParetoCandidate = ParetoCandidate(candidate: string, rank: nat, crowding: real, objectives: Values)

  /** Front number `rank` as it is reported: its candidates in order, each with rank, distance and values. */
  function Reported(t: Table, objectives: seq<string>, front: seq<string>, rank: nat): seq<ParetoCandidate> {
    Models(t, Distances(t, objectives, front), rank, Arrange(t, objectives, front))
  }

  function Models(t: Table, d: map<string, real>, rank: nat, order: seq<string>): seq<ParetoCandidate> {
    if order == [] then []
    else
      var c := order[|order| - 1];
      Models(t, d, rank, order[..|order| - 1])
        + [ParetoCandidate(c, rank, Distance(d, c), if c in t.values then t.values[c] else map[])]
  }

  predicate ReportedEach(t: Table, objectives: seq<string>, fronts: seq<seq<string>>,
                         report: seq<seq<ParetoCandidate>>) {
    |report| <= |fronts| && forall k :: 0 <= k < |report| ==> report[k] == Reported(t, objectives, fronts[k], k)
  }

  lemma ReportNext(t: Table, objectives: seq<string>, fronts: seq<seq<string>>, report: seq<seq<ParetoCandidate>>)
    requires ReportedEach(t, objectives, fronts, report) && |report| < |fronts|
    ensures ReportedEach(t, objectives, fronts, report + [Reported(t, objectives, fronts[|report|], |report|)])
  {
    hide Reported;
  }

  /** Every front up to the one that fills the selection is reported. */
  predicate ReportedFronts(t: Table, objectives: seq<string>, fronts: seq<seq<string>>, n: nat,
                           report: seq<seq<ParetoCandidate>>) {
    && ReportedEach(t, objectives, fronts, report)
    && (|report| == |fronts| || |ArrangedTo(t, objectives, fronts, |report|)| >= n)
    && (|report| > 1 ==> |ArrangedTo(t, objectives, fronts, |report| - 1)| < n)
  }

  function Arranged(t: Table, objectives: seq<string>, fronts: seq<seq<string>>): seq<string> {
    if fronts == [] then []
    else Arranged(t, objectives, fronts[..|fronts| - 1]) + Arrange(t, objectives, fronts[|fronts| - 1])
  }

  /** The first `k` fronts, arranged. */
  function ArrangedTo(t: Table, objectives: seq<string>, fronts: seq<seq<string>>, k: nat): seq<string>
    requires k <= |fronts|
  {
    Arranged(t, objectives, fronts[..k])
  }

  function Prefix(xs: seq<string>, n: nat): seq<string> {
    if |xs| <= n then xs else xs[..n]
  }

  // ---------------------------------------------------------------- selection

  method FilterEligible(es: seq<Evaluation>, p: Policy) returns (r: seq<Evaluation>)
    ensures r == EligibleOnes(es, p)
    ensures forall e :: e in r <==> e in es && Eligible(e, p)
  {
    r := [];
    for i := 0 to |es|
      invariant r == EligibleOnes(es[..i], p)
      invariant forall e :: e in r <==> e in es[..i] && Eligible(e, p)
    {
      assert es[..i + 1][..i] == es[..i];
      if Eligible(es[i], p) { r := r + [es[i]]; }
    }
    assert es[..|es|] == es;
  }

  method BuildTable(es: seq<Evaluation>, objectives: seq<string>) returns (t: Table)
    requires forall e :: e in es ==> e.fitness.Some?
    ensures t == Tabulate(es, objectives)
  {
    t := Table([], map[]);
    for i := 0 to |es|
      invariant t == Tabulate(es[..i], objectives)
    {
      assert es[..i + 1][..i] == es[..i];
      var e := es[i];
      t := Table(if e.candidate in t.values then t.ids else t.ids + [e.candidate],
                 t.values[e.candidate := Project(e, objectives)]);
    }
    assert es[..|es|] == es;
  }

  /** The objective names of all evaluations, sorted, when the policy names none. */
  method ObjectiveNames(es: seq<Evaluation>) returns (names: seq<string>)
    requires forall e :: e in es ==> e.fitness.Some?
    ensures SortedBy(names, StrLe) && Distinct(names)
    ensures forall o :: o in names <==> exists e :: e in es && o in e.fitness.value.objectives
  {
    var found: set<string> := {};
    for i := 0 to |es|
      invariant forall o :: o in found <==> exists e :: e in es[..i] && o in e.fitness.value.objectives
    {
      assert es[..i + 1] == es[..i] + [es[i]];
      found := found + es[i].fitness.value.objectives.Keys;
    }
    assert es[..|es|] == es;
    names := SortedIds(found);
    assert forall o :: o in names <==> o in Members(names);
  }

  /**
   * Selects from the fronts in order, each arranged by its key, until enough are selected.
   * `table` and `fronts` are the candidates considered and all their fronts.
   */
  method SelectPareto(evaluations: seq<Evaluation>, p: Policy)
    returns (objectives: seq<string>, report: seq<seq<ParetoCandidate>>, selected: seq<string>, best: Option<string>,
             ghost table: Table, ghost fronts: seq<seq<string>>)
    ensures p.objectives != [] ==> objectives == p.objectives
    ensures p.objectives == [] ==> SortedBy(objectives, StrLe) && Distinct(objectives)
    ensures p.objectives == [] ==> forall o :: o in objectives <==> exists e :: e in evaluations && Measures(e, p, o)
    ensures table.Valid()
    ensures forall c :: c in table.ids <==> exists e :: e in evaluations && Eligible(e, p) && e.candidate == c
    ensures AreFronts(table, objectives, p.epsilon, fronts) && Front(table, objectives, p.epsilon, |fronts|) == {}
    ensures selected == Prefix(Arranged(table, objectives, fronts), p.maxSelected)
    ensures best == if selected == [] then None else Some(selected[0])
    ensures ReportedFronts(table, objectives, fronts, p.maxSelected, report)
    ensures forall e :: e in evaluations ==> (Eligible(e, p) <==> MeetsPolicy(e, p))
    ensures forall i :: Counts(evaluations, p, i) ==> TableTells(table, objectives, evaluations, i)
    ensures Distinct(selected) && forall c :: c in selected ==> exists i :: IsEntryOf(evaluations, p, i, c)
    ensures p.epsilon == 0.0 ==> var n := |table.ids|; |selected| == if p.maxSelected <= n then p.maxSelected else n
    ensures forall d, c :: Outdoes(evaluations, p, objectives, d, c) && evaluations[c].candidate in selected ==>
      evaluations[d].candidate in selected
    ensures best.Some? ==>
      forall d, c :: Outdoes(evaluations, p, objectives, d, c) ==> evaluations[c].candidate != best.value
    ensures ReportTells(table, objectives, fronts, report)
  {
    hide Distinct, AreFronts, Front, Eligible, Tabulate;
    var eligible := FilterEligible(evaluations, p);
    forall e | e in eligible ensures e.fitness.Some? { EligibleHasFitness(e, p); }
    EligibleMeetsPolicy(p);
    EmptyDistinct<string>();
    objectives := p.objectives;
    if eligible != [] && objectives == [] {
      objectives := ObjectiveNames(eligible);
    }
    NamedByEligible(evaluations, p, eligible, objectives);
    var t := BuildTable(eligible, objectives);
    TabulateFacts(eligible, objectives);
    var all := NonDominatedSort(t, objectives, p.epsilon);
    table, fronts := t, all;
    report, selected := SelectFrom(t, objectives, all, p.epsilon, p.maxSelected);
    best := if selected == [] then None else Some(selected[0]);
    SelectionTells(evaluations, p, objectives, t, all, selected);
    ReportIsTold(t, objectives, p.epsilon, all, report);
  }

  /** The loop over the fronts. */
  method SelectFrom(t: Table, objectives: seq<string>, all: seq<seq<string>>, ghost eps: real, n: nat)
    returns (report: seq<seq<ParetoCandidate>>, selected: seq<string>)
    requires AreFronts(t, objectives, eps, all) && n >= 1
    ensures ReportedFronts(t, objectives, all, n, report)
    ensures selected == Prefix(Arranged(t, objectives, all), n)
  {
    report, selected := [], [];
    assert ReportedEach(t, objectives, all, report);
    hide Distinct, AreFronts, Front, ArrangedTo, Arranged, Arrange, Reported, ReportedEach, ReportedFronts, Prefix;
    var rank := 0;
    ArrangedEnds(t, objectives, all);
    while rank < |all|
      invariant rank <= |all| && |report| == rank
      invariant ReportedEach(t, objectives, all, report)
      invariant |ArrangedTo(t, objectives, all, rank)| < n
      invariant rank > 0 ==> |ArrangedTo(t, objectives, all, rank - 1)| < n
      invariant selected == ArrangedTo(t, objectives, all, rank)
      decreases |all| - rank
    {
      FrontsAreDistinct(t, objectives, eps, all, rank);
      var sorted, models := RankFront(t, objectives, all[rank], rank);
      ArrangedNext(t, objectives, all, rank);
      ReportNext(t, objectives, all, report);
      report := report + [models];
      PrefixLength(selected, n);
      PrefixLength(selected + sorted, n);
      selected := TakeFrom(selected, sorted, selected, n);
      rank := rank + 1;
      if |selected| >= n {
        PrefixStays(t, objectives, all, rank, n);
        ReportEnds(t, objectives, all, n, report);
        return;
      }
    }
    PrefixLength(selected, n);
    ReportEnds(t, objectives, all, n, report);
  }

  lemma ReportEnds(t: Table, objectives: seq<string>, fronts: seq<seq<string>>, n: nat,
                   report: seq<seq<ParetoCandidate>>)
    requires ReportedEach(t, objectives, fronts, report) && |report| <= |fronts|
    requires |report| == |fronts| || |ArrangedTo(t, objectives, fronts, |report|)| >= n
    requires |report| > 0 ==> |ArrangedTo(t, objectives, fronts, |report| - 1)| < n
    ensures ReportedFronts(t, objectives, fronts, n, report)
  {
    hide ReportedEach;
  }

  lemma PrefixLength(xs: seq<string>, n: nat)
    ensures |Prefix(xs, n)| < n <==> |xs| < n
    ensures |xs| < n ==> Prefix(xs, n) == xs
  {}

  lemma ArrangedEnds(t: Table, objectives: seq<string>, all: seq<seq<string>>)
    ensures ArrangedTo(t, objectives, all, 0) == []
    ensures ArrangedTo(t, objectives, all, |all|) == Arranged(t, objectives, all)
  {
    assert all[..0] == [] && all[..|all|] == all;
  }

  lemma ArrangedNext(t: Table, objectives: seq<string>, all: seq<seq<string>>, rank: nat)
    requires rank < |all|
    ensures ArrangedTo(t, objectives, all, rank + 1)
      == ArrangedTo(t, objectives, all, rank) + Arrange(t, objectives, all[rank])
  {
    assert all[..rank + 1][..rank] == all[..rank];
  }

  /** One front in its order, with what is reported of each candidate. */
  method RankFront(t: Table, objectives: seq<string>, front: seq<string>, rank: nat)
    returns (sorted: seq<string>, models: seq<ParetoCandidate>)
    requires Distinct(front)
    ensures sorted == Arrange(t, objectives, front) && models == Reported(t, objectives, front, rank)
  {
    var distances := CrowdingDistance(front, objectives, t);
    assert distances == Distances(t, objectives, front);
    sorted := SortBy(front, (a, b) => Before(t, objectives, distances, a, b));
    models := BuildModels(t, distances, rank, sorted);
  }

  method BuildModels(t: Table, distances: map<string, real>, rank: nat,
                     order: seq<string>) returns (models: seq<ParetoCandidate>)
    ensures models == Models(t, distances, rank, order)
  {
    models := [];
    for i := 0 to |order|
      invariant models == Models(t, distances, rank, order[..i])
    {
      assert order[..i + 1][..i] == order[..i];
      var c := order[i];
      var values := if c in t.values then t.values[c] else map[];
      models := models + [ParetoCandidate(c, rank, Distance(distances, c), values)];
    }
    assert order[..|order|] == order;
  }

  lemma EligibleHasFitness(e: Evaluation, p: Policy)
    requires Eligible(e, p)
    ensures e.fitness.Some?
  {}

  lemma FrontsAreDistinct(t: Table, objectives: seq<string>, eps: real, fronts: seq<seq<string>>, k: nat)
    requires AreFronts(t, objectives, eps, fronts) && k < |fronts|
    ensures Distinct(fronts[k])
  {
    assert IsFront(t, objectives, eps, k, fronts[k]);
  }

  method TakeFrom(ghost before: seq<string>, sorted: seq<string>, chosen: seq<string>,
                  n: nat) returns (selected: seq<string>)
    requires chosen == Prefix(before, n)
    ensures selected == Prefix(before + sorted, n)
  {
    selected := chosen;
    for i := 0 to |sorted|
      invariant selected == Prefix(before + sorted[..i], n)
    {
      assert before + sorted[..i + 1] == (before + sorted[..i]) + [sorted[i]];
      if |selected| < n { selected := selected + [sorted[i]]; }
    }
    assert sorted[..|sorted|] == sorted;
  }

  lemma {:induction false} PrefixStays(t: Table, objectives: seq<string>, fronts: seq<seq<string>>, k: nat, n: nat)
    requires k <= |fronts| && |Prefix(ArrangedTo(t, objectives, fronts, k), n)| >= n
    ensures Prefix(Arranged(t, objectives, fronts), n) == Prefix(ArrangedTo(t, objectives, fronts, k), n)
    decreases |fronts|
  {
    if k < |fronts| {
      var front := fronts[..|fronts| - 1];
      assert front[..k] == fronts[..k];
      PrefixStays(t, objectives, front, k, n);
      assert Prefix(Arranged(t, objectives, fronts), n) == Arranged(t, objectives, front)[..n];
    } else {
      assert fronts[..k] == fronts;
    }
  }

  // ---------------------------------------------------------------- in terms of the evaluations

  /** What the policy asks of an evaluation, on its own fields. */
  ghost predicate MeetsPolicy(e: Evaluation, p: Policy) {
    match e.fitness
    case None => false
    case Some(fitness) =>
      && e.feasible
      && !(p.requireConstraints && false in fitness.constraints.Values)
      && !(exists o :: o in fitness.objectives && fitness.objectives[o] < p.minObjective)
  }

  ghost predicate Measures(e: Evaluation, p: Policy, o: string) {
    MeetsPolicy(e, p) && o in e.fitness.value.objectives
  }

  lemma EligibleMeetsPolicy(p: Policy)
    ensures forall e :: Eligible(e, p) <==> MeetsPolicy(e, p)
  {
    forall e ensures Eligible(e, p) <==> MeetsPolicy(e, p) {
      if e.fitness.Some? && false in e.fitness.value.constraints.Values {
        var name :| name in e.fitness.value.constraints && e.fitness.value.constraints[name] == false;
      }
    }
  }

  /** Evaluation `i` is the last eligible one of its candidate: the one whose values count. */
  ghost predicate Counts(es: seq<Evaluation>, p: Policy, i: int) {
    && 0 <= i < |es| && MeetsPolicy(es[i], p)
    && forall j :: i < j < |es| && MeetsPolicy(es[j], p) ==> es[j].candidate != es[i].candidate
  }

  ghost predicate IsEntryOf(es: seq<Evaluation>, p: Policy, i: int, c: string) {
    Counts(es, p, i) && es[i].candidate == c
  }

  /** The value an evaluation measured; an objective it lacks counts as zero. */
  function Measured(e: Evaluation, o: string): real {
    match e.fitness
    case Some(fitness) => if o in fitness.objectives then fitness.objectives[o] else 0.0
    case None => 0.0
  }

  ghost predicate TableTells(t: Table, objectives: seq<string>, es: seq<Evaluation>, i: int) {
    && 0 <= i < |es| && es[i].candidate in t.values
    && t.values[es[i].candidate].Keys == Members(objectives)
    && forall o :: o in objectives ==> t.values[es[i].candidate][o] == Measured(es[i], o)
  }

  /** By the evaluations that count, candidate `d` is as good as `c` everywhere and better somewhere. */
  ghost predicate Outdoes(es: seq<Evaluation>, p: Policy, objectives: seq<string>, d: int, c: int) {
    && Counts(es, p, d) && Counts(es, p, c)
    && (forall o :: o in objectives ==> Measured(es[d], o) >= Measured(es[c], o) - p.epsilon)
    && (exists o :: o in objectives && Measured(es[d], o) - Measured(es[c], o) > p.epsilon)
  }

  lemma {:induction false} EligibleOnesAre(es: seq<Evaluation>, p: Policy)
    ensures forall e :: e in EligibleOnes(es, p) <==> e in es && Eligible(e, p)
  {
    hide Eligible;
    if es != [] {
      EligibleOnesAre(es[..|es| - 1], p);
      assert es == es[..|es| - 1] + [es[|es| - 1]];
    }
  }

  lemma TabulateNext(es: seq<Evaluation>, e: Evaluation, objectives: seq<string>)
    requires e.fitness.Some? && forall x :: x in es ==> x.fitness.Some?
    ensures Tabulate(es + [e], objectives).values
         == Tabulate(es, objectives).values[e.candidate := Project(e, objectives)]
    ensures Project(e, objectives).Keys == Members(objectives)
    ensures forall o :: o in objectives ==> Project(e, objectives)[o] == Measured(e, o)
  {
    assert (es + [e])[..|es|] == es;
  }

  lemma NamedByEligible(es: seq<Evaluation>, p: Policy, eligible: seq<Evaluation>, objectives: seq<string>)
    requires forall e :: e in eligible <==> e in es && MeetsPolicy(e, p)
    requires forall e :: e in eligible ==> e.fitness.Some?
    requires p.objectives == [] ==>
      forall o :: o in objectives <==> exists e :: e in eligible && o in e.fitness.value.objectives
    ensures p.objectives == [] ==> forall o :: o in objectives <==> exists e :: e in es && Measures(e, p, o)
  {
    if p.objectives == [] {
      forall o ensures o in objectives <==> exists e :: e in es && Measures(e, p, o) {
        if e :| e in es && Measures(e, p, o) { assert e in eligible; }
      }
    }
  }

  lemma {:induction false} TabulatedLast(es: seq<Evaluation>, p: Policy, objectives: seq<string>, i: int)
    requires forall e :: e in EligibleOnes(es, p) ==> e.fitness.Some?
    requires Counts(es, p, i)
    ensures TableTells(Tabulate(EligibleOnes(es, p), objectives), objectives, es, i)
  {
    hide Eligible, MeetsPolicy, Tabulate, Measured;
    EligibleMeetsPolicy(p);
    EligibleOnesAre(es, p);
    var n := |es| - 1;
    var front, all := EligibleOnes(es[..n], p), EligibleOnes(es, p);
    forall e | e in front ensures e in all {}
    if i < n {
      TabulatedLast(es[..n], p, objectives, i);
      assert es[..n][i] == es[i];
    }
    if Eligible(es[n], p) {
      assert all == front + [es[n]];
      assert i < n ==> es[n].candidate != es[i].candidate;
      TabulateNext(front, es[n], objectives);
    } else {
      assert Eligible(es[i], p) && all == front;
    }
  }

  lemma {:induction false} LastEntry(es: seq<Evaluation>, p: Policy, k: nat) returns (i: int)
    requires k < |es| && MeetsPolicy(es[k], p)
    ensures k <= i && IsEntryOf(es, p, i, es[k].candidate)
    decreases |es| - k
  {
    hide MeetsPolicy;
    if j :| k < j < |es| && MeetsPolicy(es[j], p) && es[j].candidate == es[k].candidate {
      i := LastEntry(es, p, j);
    } else {
      i := k;
    }
  }

  lemma OutdoesBeats(es: seq<Evaluation>, p: Policy, objectives: seq<string>, t: Table, d: int, c: int)
    requires Outdoes(es, p, objectives, d, c)
    requires TableTells(t, objectives, es, d) && TableTells(t, objectives, es, c)
    ensures Beats(t, objectives, p.epsilon, es[d].candidate, es[c].candidate)
  {
    hide MeetsPolicy, Measured;
    var x, y := t.values[es[d].candidate], t.values[es[c].candidate];
    var o :| o in objectives && Measured(es[d], o) - Measured(es[c], o) > p.epsilon;
    var k :| 0 <= k < |objectives| && objectives[k] == o;
    assert At(x, objectives[k]) > At(y, objectives[k]) + p.epsilon;
    forall k | 0 <= k < |objectives| ensures At(x, objectives[k]) + p.epsilon >= At(y, objectives[k]) {
      assert objectives[k] in objectives;
    }
  }

  /** What is selected, told without the table: the evaluations and the policy alone. */
  lemma SelectionTells(es: seq<Evaluation>, p: Policy, objectives: seq<string>, t: Table, fronts: seq<seq<string>>,
                       selected: seq<string>)
    requires forall e :: e in EligibleOnes(es, p) ==> e.fitness.Some?
    requires t == Tabulate(EligibleOnes(es, p), objectives) && t.Valid()
    requires IsSelection(t, objectives, p.epsilon, p.maxSelected, fronts, selected)
    ensures forall i :: Counts(es, p, i) ==> TableTells(t, objectives, es, i)
    ensures Distinct(selected) && forall c :: c in selected ==> exists i :: IsEntryOf(es, p, i, c)
    ensures p.epsilon == 0.0 ==> var n := |t.ids|; |selected| == if p.maxSelected <= n then p.maxSelected else n
    ensures forall d, c :: Outdoes(es, p, objectives, d, c) && es[c].candidate in selected ==>
      es[d].candidate in selected
    ensures selected != [] ==>
      forall d, c :: Outdoes(es, p, objectives, d, c) ==> es[c].candidate != selected[0]
  {
    hide Tabulate, IsSelection, MeetsPolicy, Measured, TableTells;
    forall i | Counts(es, p, i) ensures TableTells(t, objectives, es, i) { TabulatedLast(es, p, objectives, i); }
    SelectionSize(t, objectives, p.epsilon, p.maxSelected, fronts, selected);
    forall c | c in selected ensures exists i :: IsEntryOf(es, p, i, c) {
      SelectedIsEntry(es, p, objectives, t, fronts, selected, c);
    }
    forall d, c | Outdoes(es, p, objectives, d, c)
      ensures es[c].candidate in selected ==> es[d].candidate in selected
      ensures selected != [] ==> es[c].candidate != selected[0]
    {
      OutdoesCounts(es, p, objectives, d, c);
      OutdoesBeats(es, p, objectives, t, d, c);
      if es[c].candidate in selected {
        SelectionClosedUpward(t, objectives, p.epsilon, p.maxSelected, fronts, selected,
                              es[c].candidate, es[d].candidate);
      }
      if selected != [] {
        BestIsUndominated(t, objectives, p.epsilon, p.maxSelected, fronts, selected, es[d].candidate);
      }
    }
  }

  lemma OutdoesCounts(es: seq<Evaluation>, p: Policy, objectives: seq<string>, d: int, c: int)
    requires Outdoes(es, p, objectives, d, c)
    ensures Counts(es, p, d) && Counts(es, p, c) && 0 <= d < |es| && 0 <= c < |es|
  {}

  lemma SelectedIsEntry(es: seq<Evaluation>, p: Policy, objectives: seq<string>, t: Table, fronts: seq<seq<string>>,
                        selected: seq<string>, c: string)
    requires forall e :: e in EligibleOnes(es, p) ==> e.fitness.Some?
    requires t == Tabulate(EligibleOnes(es, p), objectives) && t.Valid()
    requires IsSelection(t, objectives, p.epsilon, p.maxSelected, fronts, selected) && c in selected
    ensures exists i :: IsEntryOf(es, p, i, c)
  {
    hide Tabulate, AreFronts, Front, Arranged, MeetsPolicy, Eligible, IsEntryOf;
    ArrangedFacts(t, objectives, p.epsilon, fronts);
    assert c in Arranged(t, objectives, fronts);
    RankedIsCandidate(t, objectives, p.epsilon, fronts, c);
    TabulateFacts(EligibleOnes(es, p), objectives);
    EligibleOnesAre(es, p);
    EligibleMeetsPolicy(p);
    var e :| e in EligibleOnes(es, p) && e.candidate == c;
    var k :| 0 <= k < |es| && es[k] == e;
    var i := LastEntry(es, p, k);
  }

  /** Each reported front lists its candidates in order, with their front's number and their own values. */
  ghost predicate ReportTells(t: Table, objectives: seq<string>, fronts: seq<seq<string>>,
                              report: seq<seq<ParetoCandidate>>) {
    && |report| <= |fronts|
    && forall k :: 0 <= k < |report| ==>
         && |report[k]| == |fronts[k]|
         && (forall c :: c in fronts[k] <==> exists i :: 0 <= i < |report[k]| && report[k][i].candidate == c)
         && (|fronts[k]| <= 2 ==> forall i :: 0 <= i < |report[k]| ==> report[k][i].crowding == LARGE)
         && forall i :: 0 <= i < |report[k]| ==>
              && report[k][i].rank == k
              && report[k][i].candidate in t.values && report[k][i].objectives == t.values[report[k][i].candidate]
              && forall j :: i < j < |report[k]| ==> ListedBefore(objectives, report[k][i], report[k][j])
  }

  /** Larger distance first; then the larger value in the first objective that tells; then the smaller id. */
  ghost predicate ListedBefore(objectives: seq<string>, a: ParetoCandidate, b: ParetoCandidate) {
    || a.crowding > b.crowding
    || (a.crowding == b.crowding && exists n :: TellsApart(objectives, a, b, n))
  }

  predicate TellsApart(objectives: seq<string>, a: ParetoCandidate, b: ParetoCandidate, n: int) {
    && AgreeTo(objectives, a.objectives, b.objectives, n)
    && if n < |objectives| then At(a.objectives, objectives[n]) > At(b.objectives, objectives[n])
       else StrLe(a.candidate, b.candidate)
  }

  predicate AgreeTo(objectives: seq<string>, a: Values, b: Values, n: int) {
    0 <= n <= |objectives| && forall k :: 0 <= k < n ==> At(a, objectives[k]) == At(b, objectives[k])
  }

  lemma {:induction false} ValuesBeforeMeans(t: Table, objectives: seq<string>, a: string, b: string) returns (n: nat)
    requires a in t.values && b in t.values && ValuesBefore(t, objectives, a, b)
    ensures AgreeTo(objectives, t.values[a], t.values[b], n)
    ensures if n < |objectives| then At(t.values[a], objectives[n]) > At(t.values[b], objectives[n]) else StrLe(a, b)
    decreases |objectives|
  {
    if objectives == [] || Score(t, objectives[0], a) != Score(t, objectives[0], b) {
      n := 0;
    } else {
      var m := ValuesBeforeMeans(t, objectives[1..], a, b);
      n := m + 1;
      forall k | 0 <= k < n ensures At(t.values[a], objectives[k]) == At(t.values[b], objectives[k]) {
        if k > 0 { assert objectives[k] == objectives[1..][k - 1]; }
      }
    }
  }

  lemma {:induction false} ModelsAre(t: Table, d: map<string, real>, rank: nat, order: seq<string>)
    ensures |Models(t, d, rank, order)| == |order|
    ensures forall i :: 0 <= i < |order| ==>
      var values := if order[i] in t.values then t.values[order[i]] else map[];
      Models(t, d, rank, order)[i] == ParetoCandidate(order[i], rank, Distance(d, order[i]), values)
  {
    if order != [] { ModelsAre(t, d, rank, order[..|order| - 1]); }
  }

  lemma ReportIsTold(t: Table, objectives: seq<string>, eps: real, fronts: seq<seq<string>>,
                     report: seq<seq<ParetoCandidate>>)
    requires t.Valid() && AreFronts(t, objectives, eps, fronts) && ReportedEach(t, objectives, fronts, report)
    ensures ReportTells(t, objectives, fronts, report)
  {
    hide AreFronts, Arrange, Models, Distances, ListedBefore, ValuesBefore;
    forall k | 0 <= k < |report|
      ensures |report[k]| == |fronts[k]|
      ensures forall c :: c in fronts[k] <==> exists i :: 0 <= i < |report[k]| && report[k][i].candidate == c
      ensures forall i :: 0 <= i < |report[k]| ==>
        && report[k][i].rank == k
        && report[k][i].candidate in t.values && report[k][i].objectives == t.values[report[k][i].candidate]
      ensures forall i, j :: 0 <= i < j < |report[k]| ==> ListedBefore(objectives, report[k][i], report[k][j])
      ensures |fronts[k]| <= 2 ==> forall i :: 0 <= i < |report[k]| ==> report[k][i].crowding == LARGE
    {
      FrontIsTold(t, objectives, eps, fronts, k, report[k]);
    }
  }

  lemma FrontIsTold(t: Table, objectives: seq<string>, eps: real, fronts: seq<seq<string>>, k: nat,
                    models: seq<ParetoCandidate>)
    requires t.Valid() && AreFronts(t, objectives, eps, fronts) && k < |fronts|
    requires models == Reported(t, objectives, fronts[k], k)
    ensures |models| == |fronts[k]|
    ensures forall c :: c in fronts[k] <==> exists i :: 0 <= i < |models| && models[i].candidate == c
    ensures forall i :: 0 <= i < |models| ==>
      models[i].rank == k && models[i].candidate in t.values && models[i].objectives == t.values[models[i].candidate]
    ensures forall i, j :: 0 <= i < j < |models| ==> ListedBefore(objectives, models[i], models[j])
    ensures |fronts[k]| <= 2 ==> forall i :: 0 <= i < |models| ==> models[i].crowding == LARGE
  {
    hide AreFronts, Arrange, Models, Crowding;
    var order, d := Arrange(t, objectives, fronts[k]), Distances(t, objectives, fronts[k]);
    FrontsAreDistinct(t, objectives, eps, fronts, k);
    ArrangeFacts(t, objectives, fronts[k]);
    ModelsAre(t, d, k, order);
    forall i | 0 <= i < |order| ensures order[i] in t.values {
      assert order[i] in fronts[k] && Ranked(fronts, order[i]);
      RankedIsCandidate(t, objectives, eps, fronts, order[i]);
    }
    forall c | c in fronts[k] ensures exists i :: 0 <= i < |models| && models[i].candidate == c {
      var i :| 0 <= i < |order| && order[i] == c;
      assert models[i].candidate == c;
    }
    forall i, j | 0 <= i < j < |models| ensures ListedBefore(objectives, models[i], models[j]) {
      assert Before(t, objectives, d, order[i], order[j]);
      if models[i].crowding == models[j].crowding {
        var n := ValuesBeforeMeans(t, objectives, order[i], order[j]);
        assert TellsApart(objectives, models[i], models[j], n);
      }
    }
  }

  // ---------------------------------------------------------------- what a selection guarantees

  ghost predicate IsSelection(t: Table, objectives: seq<string>, eps: real, n: nat, fronts: seq<seq<string>>,
                              selected: seq<string>) {
    && AreFronts(t, objectives, eps, fronts) && Front(t, objectives, eps, |fronts|) == {}
    && selected == Prefix(Arranged(t, objectives, fronts), n)
  }

  lemma ArrangeFacts(t: Table, objectives: seq<string>, front: seq<string>)
    requires Distinct(front)
    ensures var r := Arrange(t, objectives, front);
      && Distinct(r) && |r| == |front| && (forall x :: x in r <==> x in front)
      && (forall i, j :: 0 <= i < j < |r| ==> Before(t, objectives, Distances(t, objectives, front), r[i], r[j]))
  {
    hide Before, Distances;
    var d := Distances(t, objectives, front);
    var le := (a, b) => Before(t, objectives, d, a, b);
    BeforeIsPreorder(t, objectives, d);
    SortBySorts(front, le);
    SortByDistinct(front, le);
    var r := Arrange(t, objectives, front);
    forall i, j | 0 <= i < j < |r| ensures Before(t, objectives, d, r[i], r[j]) {
      assert le(r[i], r[j]);
    }
  }

  /** Every ranked candidate stands once in the arrangement. */
  lemma {:induction false} ArrangedFacts(t: Table, objectives: seq<string>, eps: real, fronts: seq<seq<string>>)
    requires AreFronts(t, objectives, eps, fronts)
    ensures Distinct(Arranged(t, objectives, fronts))
    ensures forall c :: c in Arranged(t, objectives, fronts) <==> Ranked(fronts, c)
    decreases |fronts|
  {
    hide Front, Arrange;
    if fronts != [] {
      var k := |fronts| - 1;
      var init, last := fronts[..k], fronts[k];
      assert AreFronts(t, objectives, eps, init) by {
        forall j | 0 <= j < k ensures IsFront(t, objectives, eps, j, init[j]) {
          assert IsFront(t, objectives, eps, j, fronts[j]);
        }
      }
      ArrangedFacts(t, objectives, eps, init);
      FrontsAreDistinct(t, objectives, eps, fronts, k);
      ArrangeFacts(t, objectives, last);
      forall c | c in last ensures !Ranked(init, c) {
        if j :| 0 <= j < |init| && c in init[j] { FrontsAreDisjoint(t, objectives, eps, fronts, j, k, c); }
      }
      DistinctConcat(Arranged(t, objectives, init), Arrange(t, objectives, last));
      forall c ensures c in Arranged(t, objectives, fronts) <==> Ranked(fronts, c) {
        RankedSplit(fronts, c);
      }
    }
  }

  lemma RankedSplit(fronts: seq<seq<string>>, c: string)
    requires fronts != []
    ensures Ranked(fronts, c) <==> Ranked(fronts[..|fronts| - 1], c) || c in fronts[|fronts| - 1]
  {
    var init := fronts[..|fronts| - 1];
    if k :| 0 <= k < |fronts| && c in fronts[k] {
      if k < |init| { assert c in init[k]; }
    }
    if k :| 0 <= k < |init| && c in init[k] { assert c in fronts[k]; }
  }

  /**
   * Without tolerance, exactly `min(n, eligible)` distinct candidates are selected; with tolerance
   * the bound is the number of ranked candidates.
   */
  lemma SelectionSize(t: Table, objectives: seq<string>, eps: real, n: nat, fronts: seq<seq<string>>,
                      selected: seq<string>)
    requires t.Valid() && IsSelection(t, objectives, eps, n, fronts, selected)
    ensures Distinct(selected)
    ensures var ranked := |set c | c in t.ids && Ranked(fronts, c)|; |selected| == if n <= ranked then n else ranked
    ensures eps == 0.0 ==> |selected| == if n <= |t.ids| then n else |t.ids|
  {
    hide AreFronts, Front, Ranked;
    var all := Arranged(t, objectives, fronts);
    ArrangedFacts(t, objectives, eps, fronts);
    DistinctSize(all);
    forall c | Ranked(fronts, c) ensures c in t.ids { RankedIsCandidate(t, objectives, eps, fronts, c); }
    assert (set c | c in all) == (set c | c in t.ids && Ranked(fronts, c));
    if eps == 0.0 {
      forall c | c in t.ids ensures Ranked(fronts, c) { ZeroToleranceRanksAll(t, objectives, fronts, c); }
      assert (set c | c in t.ids && Ranked(fronts, c)) == (set c | c in t.ids);
      DistinctSize(t.ids);
    }
  }

  lemma RankedIsCandidate(t: Table, objectives: seq<string>, eps: real, fronts: seq<seq<string>>, c: string)
    requires t.Valid() && AreFronts(t, objectives, eps, fronts) && Ranked(fronts, c)
    ensures c in t.ids
  {
    var k :| 0 <= k < |fronts| && c in fronts[k];
    assert IsFront(t, objectives, eps, k, fronts[k]);
    FrontIn(t, objectives, eps, k, c);
  }

  ghost function Position(t: Table, objectives: seq<string>, fronts: seq<seq<string>>, k: nat): nat
    requires k <= |fronts|
  {
    |Arranged(t, objectives, fronts[..k])|
  }

  /** Front `k` occupies its own stretch of the arrangement. */
  lemma {:induction false} ArrangedAt(t: Table, objectives: seq<string>, fronts: seq<seq<string>>, k: nat)
    requires k < |fronts|
    ensures var from, r := Position(t, objectives, fronts, k), Arrange(t, objectives, fronts[k]);
      var all := Arranged(t, objectives, fronts);
      && from + |r| == Position(t, objectives, fronts, k + 1) <= |all| && all[from..from + |r|] == r
    decreases |fronts|
  {
    hide Arrange;
    var last := |fronts| - 1;
    var init := fronts[..last];
    assert fronts[..k + 1][..k] == fronts[..k];
    if k < last {
      ArrangedAt(t, objectives, init, k);
      assert init[..k] == fronts[..k] && init[..k + 1] == fronts[..k + 1];
    } else {
      assert fronts[..k + 1] == fronts;
    }
  }

  lemma {:induction false} PositionsGrow(t: Table, objectives: seq<string>, fronts: seq<seq<string>>, j: nat, k: nat)
    requires j <= k <= |fronts|
    ensures Position(t, objectives, fronts, j) <= Position(t, objectives, fronts, k)
    decreases k - j
  {
    if j < k {
      ArrangedAt(t, objectives, fronts, j);
      PositionsGrow(t, objectives, fronts, j + 1, k);
    }
  }

  /** Where a selected candidate stands. */
  lemma FrontPosition(t: Table, objectives: seq<string>, eps: real, fronts: seq<seq<string>>, k: nat,
                      c: string) returns (i: nat)
    requires AreFronts(t, objectives, eps, fronts) && k < |fronts| && c in fronts[k]
    ensures Position(t, objectives, fronts, k) <= i < Position(t, objectives, fronts, k + 1)
      <= |Arranged(t, objectives, fronts)|
    ensures Arranged(t, objectives, fronts)[i] == c
    ensures i - Position(t, objectives, fronts, k) < |Arrange(t, objectives, fronts[k])|
    ensures Arrange(t, objectives, fronts[k])[i - Position(t, objectives, fronts, k)] == c
  {
    hide AreFronts, Arrange, Arranged, Position;
    var r, from := Arrange(t, objectives, fronts[k]), Position(t, objectives, fronts, k);
    FrontsAreDistinct(t, objectives, eps, fronts, k);
    ArrangeFacts(t, objectives, fronts[k]);
    ArrangedAt(t, objectives, fronts, k);
    var j :| 0 <= j < |r| && r[j] == c;
    i := from + j;
    assert Arranged(t, objectives, fronts)[from..from + |r|][j] == c;
  }

  lemma SelectedIffEarly(all: seq<string>, n: nat, i: nat)
    requires Distinct(all) && i < |all|
    ensures all[i] in Prefix(all, n) <==> i < n
  {
    if all[i] in Prefix(all, n) {
      var j :| 0 <= j < |Prefix(all, n)| && Prefix(all, n)[j] == all[i];
      assert all[j] == all[i];
    }
    if i < n { assert Prefix(all, n)[i] == all[i]; }
  }

  /** For any tolerance, whatever dominates a selected candidate is itself selected. */
  lemma SelectionClosedUpward(t: Table, objectives: seq<string>, eps: real, n: nat, fronts: seq<seq<string>>,
                              selected: seq<string>, c: string, d: string)
    requires IsSelection(t, objectives, eps, n, fronts, selected)
    requires c in selected && Beats(t, objectives, eps, d, c)
    ensures d in selected
  {
    hide AreFronts, Front, Beats, Position, Distinct, Arrange;
    var all := Arranged(t, objectives, fronts);
    ArrangedFacts(t, objectives, eps, fronts);
    assert c in all;
    var k :| 0 <= k < |fronts| && c in fronts[k];
    DominatorsComeFirst(t, objectives, eps, fronts, k, c, d);
    var j :| 0 <= j < k && d in fronts[j];
    var ic := FrontPosition(t, objectives, eps, fronts, k, c);
    var id := FrontPosition(t, objectives, eps, fronts, j, d);
    PositionsGrow(t, objectives, fronts, j + 1, k);
    SelectedIffEarly(all, n, ic);
    SelectedIffEarly(all, n, id);
  }

  /** The single chosen candidate is dominated by no candidate. */
  lemma BestIsUndominated(t: Table, objectives: seq<string>, eps: real, n: nat, fronts: seq<seq<string>>,
                          selected: seq<string>, d: string)
    requires IsSelection(t, objectives, eps, n, fronts, selected) && selected != []
    ensures !Beats(t, objectives, eps, d, selected[0])
  {
    hide AreFronts, Front, Beats, Position, Distinct, Arrange;
    if Beats(t, objectives, eps, d, selected[0]) {
      var all, c := Arranged(t, objectives, fronts), selected[0];
      ArrangedFacts(t, objectives, eps, fronts);
      assert all[0] == c;
      assert c in all;
      var k :| 0 <= k < |fronts| && c in fronts[k];
      DominatorsComeFirst(t, objectives, eps, fronts, k, c, d);
      var j :| 0 <= j < k && d in fronts[j];
      var ic := FrontPosition(t, objectives, eps, fronts, k, c);
      var id := FrontPosition(t, objectives, eps, fronts, j, d);
      PositionsGrow(t, objectives, fronts, j + 1, k);
      SelectedIffEarly(all, 1, ic);
      SelectedIffEarly(all, 1, 0);
      assert false;
    }
  }

  /** Within a front that is cut off, end points of any objective are selected before all others. */
  lemma EndPointsFirst(t: Table, objectives: seq<string>, eps: real, n: nat, fronts: seq<seq<string>>,
                       selected: seq<string>, k: nat, interior: string, end: string)
    requires IsSelection(t, objectives, eps, n, fronts, selected) && k < |fronts| && |fronts[k]| > 2
    requires |objectives| as real < LARGE
    requires interior in fronts[k] && end in fronts[k] && interior in selected
    requires !EndSomewhere(t, fronts[k], objectives, |objectives|, interior)
    requires EndSomewhere(t, fronts[k], objectives, |objectives|, end)
    ensures end in selected
  {
    hide AreFronts, Front, Position, Arranged, Arrange, Crowding, EndSomewhere;
    var all, front := Arranged(t, objectives, fronts), fronts[k];
    var d := Distances(t, objectives, front);
    ArrangedFacts(t, objectives, eps, fronts);
    FrontsAreDistinct(t, objectives, eps, fronts, k);
    CrowdingBands(t, front, objectives, |objectives|, interior);
    CrowdingBands(t, front, objectives, |objectives|, end);
    assert Distance(d, end) > Distance(d, interior);
    ArrangeFacts(t, objectives, front);
    var from := Position(t, objectives, fronts, k);
    var i := FrontPosition(t, objectives, eps, fronts, k, interior);
    var e := FrontPosition(t, objectives, eps, fronts, k, end);
    assert !Before(t, objectives, d, interior, end);
    if i < e { assert false; }
    SelectedIffEarly(all, n, i);
    SelectedIffEarly(all, n, e);
  }
}
