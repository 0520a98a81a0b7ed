/** What the fronts of non-dominated sorting mean. */
module ParetoFronts {
  import opened Order
  import opened ParetoSort

  /** A sequence of candidates each of which dominates the next. */
  ghost predicate Chain(t: Table, objectives: seq<string>, eps: real, p: seq<string>) {
    && p != []
    && (forall i :: 0 <= i < |p| ==> p[i] in t.values)
    && (forall i :: 0 < i < |p| ==> Beats(t, objectives, eps, p[i - 1], p[i]))
  }

  ghost predicate ChainTo(t: Table, objectives: seq<string>, eps: real, p: seq<string>, c: string) {
    Chain(t, objectives, eps, p) && p[|p| - 1] == c
  }

  lemma {:induction false} ShortChains(t: Table, objectives: seq<string>, eps: real, k: nat, c: string, p: seq<string>)
    requires c in Below(t, objectives, eps, k) && ChainTo(t, objectives, eps, p, c)
    ensures |p| <= k
  {
    if |p| > 1 {
      var d := p[|p| - 2];
      assert Beats(t, objectives, eps, d, p[|p| - 1]);
      assert d in Dominators(t, objectives, eps, c);
      assert ChainTo(t, objectives, eps, p[..|p| - 1], d);
      ShortChains(t, objectives, eps, k - 1, d, p[..|p| - 1]);
    }
  }

  lemma DominatorsIn(t: Table, objectives: seq<string>, eps: real, d: string, c: string)
    requires d in Dominators(t, objectives, eps, c)
    ensures d in t.values
  {}

  lemma {:induction false} LongChain(t: Table, objectives: seq<string>, eps: real, k: nat,
                                     c: string) returns (p: seq<string>)
    requires c in t.values && c !in Below(t, objectives, eps, k)
    ensures ChainTo(t, objectives, eps, p, c) && |p| == k + 1
  {
    hide Beats, Dominators, Below;
    p := [c];
    if k > 0 {
      BelowStep(t, objectives, eps, k - 1, c);
      var d :| d in Dominators(t, objectives, eps, c) && d !in Below(t, objectives, eps, k - 1);
      BeatsMeansDominator(t, objectives, eps, d, c);
      DominatorsIn(t, objectives, eps, d, c);
      var q := LongChain(t, objectives, eps, k - 1, d);
      p := q + [c];
    }
  }

  /**
   * A candidate is in front `k` exactly when the longest dominance chain ending in it has `k` others
   * before it. This holds for every tolerance, not only zero.
   */
  lemma FrontIsLongestChain(t: Table, objectives: seq<string>, eps: real, fronts: seq<seq<string>>, k: nat, c: string)
    requires AreFronts(t, objectives, eps, fronts) && k < |fronts| && c in t.values
    ensures c in fronts[k] <==>
      && (exists p :: ChainTo(t, objectives, eps, p, c) && |p| == k + 1)
      && (forall p :: ChainTo(t, objectives, eps, p, c) ==> |p| <= k + 1)
  {
    assert IsFront(t, objectives, eps, k, fronts[k]);
    if c in fronts[k] {
      var p := LongChain(t, objectives, eps, k, c);
      forall q | ChainTo(t, objectives, eps, q, c) ensures |q| <= k + 1 {
        ShortChains(t, objectives, eps, k + 1, c, q);
      }
    } else if c in Below(t, objectives, eps, k) {
      forall p | ChainTo(t, objectives, eps, p, c) ensures |p| != k + 1 {
        ShortChains(t, objectives, eps, k, c, p);
      }
    } else {
      var p := LongChain(t, objectives, eps, k + 1, c);
      assert ChainTo(t, objectives, eps, p, c) && |p| > k + 1;
    }
  }

  /** No candidate appears twice, within one front or in two. */
  lemma FrontsAreDisjoint(t: Table, objectives: seq<string>, eps: real, fronts: seq<seq<string>>, j: nat, k: nat,
                          c: string)
    requires AreFronts(t, objectives, eps, fronts) && j < k < |fronts| && c in fronts[j]
    ensures c !in fronts[k]
  {
    hide Below, Distinct;
    assert IsFront(t, objectives, eps, j, fronts[j]) && IsFront(t, objectives, eps, k, fronts[k]);
    BelowMonotone(t, objectives, eps, j + 1, k);
  }

  /** A dominator sits in a strictly earlier front than what it dominates. */
  lemma DominatorsComeFirst(t: Table, objectives: seq<string>, eps: real, fronts: seq<seq<string>>, k: nat, c: string,
                            d: string)
    requires AreFronts(t, objectives, eps, fronts) && k < |fronts| && c in fronts[k] && Beats(t, objectives, eps, d, c)
    ensures exists j :: 0 <= j < k && d in fronts[j]
  {
    assert IsFront(t, objectives, eps, k, fronts[k]);
    assert d in Dominators(t, objectives, eps, c) && d in Below(t, objectives, eps, k);
    var j := Layer(t, objectives, eps, k, d);
    assert IsFront(t, objectives, eps, j, fronts[j]);
  }

  lemma {:induction false} Layer(t: Table, objectives: seq<string>, eps: real, k: nat, c: string) returns (j: nat)
    requires c in Below(t, objectives, eps, k)
    ensures j < k && c in Front(t, objectives, eps, j)
  {
    if c in Below(t, objectives, eps, k - 1) {
      j := Layer(t, objectives, eps, k - 1, c);
    } else {
      j := k - 1;
    }
  }

  ghost predicate Ranked(fronts: seq<seq<string>>, c: string) {
    exists k :: 0 <= k < |fronts| && c in fronts[k]
  }

  lemma RankedIsBelow(t: Table, objectives: seq<string>, eps: real, fronts: seq<seq<string>>, c: string)
    requires AreFronts(t, objectives, eps, fronts)
    ensures Ranked(fronts, c) <==> c in Below(t, objectives, eps, |fronts|)
  {
    hide Below, Distinct;
    if Ranked(fronts, c) {
      var k :| 0 <= k < |fronts| && c in fronts[k];
      assert IsFront(t, objectives, eps, k, fronts[k]);
      BelowMonotone(t, objectives, eps, k + 1, |fronts|);
    }
    if c in Below(t, objectives, eps, |fronts|) {
      var j := Layer(t, objectives, eps, |fronts|, c);
      assert IsFront(t, objectives, eps, j, fronts[j]);
    }
  }

  /** A set of candidates each of which is dominated from within the set. */
  ghost predicate Entangled(t: Table, objectives: seq<string>, eps: real, xs: set<string>) {
    && xs <= t.values.Keys
    && forall x :: x in xs ==> exists y :: y in xs && Beats(t, objectives, eps, y, x)
  }

  lemma {:induction false} EntangledNeverFree(t: Table, objectives: seq<string>, eps: real, xs: set<string>, k: nat,
                                              x: string)
    requires Entangled(t, objectives, eps, xs) && x in xs
    ensures x !in Below(t, objectives, eps, k)
  {
    hide Beats, Below, Dominators, Entangled;
    if k == 0 {
      NothingBelowZero(t, objectives, eps, x);
    } else {
      var y := EntangledBy(t, objectives, eps, xs, x);
      EntangledNeverFree(t, objectives, eps, xs, k - 1, y);
      BelowStep(t, objectives, eps, k - 1, x);
    }
  }

  lemma EntangledBy(t: Table, objectives: seq<string>, eps: real, xs: set<string>, x: string) returns (y: string)
    requires Entangled(t, objectives, eps, xs) && x in xs
    ensures y in xs && y in Dominators(t, objectives, eps, x)
  {
    hide Beats, Dominators;
    y :| y in xs && Beats(t, objectives, eps, y, x);
    BeatsMeansDominator(t, objectives, eps, y, x);
  }

  lemma NothingBelowZero(t: Table, objectives: seq<string>, eps: real, x: string)
    ensures x !in Below(t, objectives, eps, 0)
  {}

  lemma UnrankedAreEntangled(t: Table, objectives: seq<string>, eps: real, n: nat)
    requires Front(t, objectives, eps, n) == {}
    ensures Entangled(t, objectives, eps, t.values.Keys - Below(t, objectives, eps, n))
  {
    hide Beats, Below;
    var rest := t.values.Keys - Below(t, objectives, eps, n);
    forall x | x in rest ensures exists y :: y in rest && Beats(t, objectives, eps, y, x) {
      assert x !in Front(t, objectives, eps, n);
      BelowStep(t, objectives, eps, n, x);
      var y :| y in Dominators(t, objectives, eps, x) && y !in Below(t, objectives, eps, n);
      assert y in rest;
    }
  }

  /** Sorting drops exactly the candidates that belong to a set dominated from within. */
  lemma DroppedIffEntangled(t: Table, objectives: seq<string>, eps: real, fronts: seq<seq<string>>, c: string)
    requires AreFronts(t, objectives, eps, fronts) && Front(t, objectives, eps, |fronts|) == {} && c in t.values
    ensures !Ranked(fronts, c) <==> exists xs :: c in xs && Entangled(t, objectives, eps, xs)
  {
    hide Entangled, Below, AreFronts, Ranked;
    RankedIsBelow(t, objectives, eps, fronts, c);
    if c !in Below(t, objectives, eps, |fronts|) {
      UnrankedAreEntangled(t, objectives, eps, |fronts|);
      assert c in t.values.Keys - Below(t, objectives, eps, |fronts|);
    }
    if xs :| c in xs && Entangled(t, objectives, eps, xs) {
      EntangledNeverFree(t, objectives, eps, xs, |fronts|, c);
    }
  }

  // ---------------------------------------------------------------- zero tolerance

  function Total(v: Values, objectives: seq<string>): real {
    if objectives == [] then 0.0 else At(v, objectives[0]) + Total(v, objectives[1..])
  }

  lemma {:induction false} TotalGrows(a: Values, b: Values, objectives: seq<string>)
    requires forall k :: 0 <= k < |objectives| ==> At(a, objectives[k]) >= At(b, objectives[k])
    ensures Total(a, objectives) >= Total(b, objectives)
    ensures (exists k :: 0 <= k < |objectives| && At(a, objectives[k]) > At(b, objectives[k]))
            ==> Total(a, objectives) > Total(b, objectives)
  {
    if objectives != [] {
      var rest := objectives[1..];
      forall k | 0 <= k < |rest| ensures At(a, rest[k]) >= At(b, rest[k]) {
        assert rest[k] == objectives[k + 1];
      }
      TotalGrows(a, b, rest);
      assert At(a, objectives[0]) >= At(b, objectives[0]);
      if k :| 0 <= k < |objectives| && At(a, objectives[k]) > At(b, objectives[k]) {
        if k > 0 { assert rest[k - 1] == objectives[k]; }
      }
    }
  }

  lemma DominatesMeansMore(a: Values, b: Values, objectives: seq<string>)
    requires Dominates(a, b, objectives, 0.0)
    ensures Total(a, objectives) > Total(b, objectives)
  {
    forall k | 0 <= k < |objectives| ensures At(a, objectives[k]) >= At(b, objectives[k]) {
      assert At(a, objectives[k]) + 0.0 >= At(b, objectives[k]);
    }
    var k :| 0 <= k < |objectives| && At(a, objectives[k]) > At(b, objectives[k]) + 0.0;
    TotalGrows(a, b, objectives);
  }

  lemma {:induction false} BestTotal(t: Table, objectives: seq<string>, xs: set<string>) returns (best: string)
    requires xs != {} && xs <= t.values.Keys
    ensures best in xs && forall x :: x in xs ==> Total(t.values[x], objectives) <= Total(t.values[best], objectives)
    decreases |xs|
  {
    best :| best in xs;
    if xs != {best} {
      var other := BestTotal(t, objectives, xs - {best});
      if Total(t.values[best], objectives) < Total(t.values[other], objectives) { best := other; }
    }
  }

  /** Without tolerance no set is dominated from within, so the fronts partition the candidates. */
  lemma ZeroToleranceRanksAll(t: Table, objectives: seq<string>, fronts: seq<seq<string>>, c: string)
    requires AreFronts(t, objectives, 0.0, fronts) && Front(t, objectives, 0.0, |fronts|) == {} && c in t.values
    ensures Ranked(fronts, c)
  {
    hide AreFronts, Front, Ranked, Dominates, Total;
    DroppedIffEntangled(t, objectives, 0.0, fronts, c);
    if xs :| c in xs && Entangled(t, objectives, 0.0, xs) {
      var best := BestTotal(t, objectives, xs);
      var y :| y in xs && Beats(t, objectives, 0.0, y, best);
      DominatesMeansMore(t.values[y], t.values[best], objectives);
    }
  }

  const CIRCLE_A: Values := map["x" := 1.5, "y" := 0.0, "z" := 0.75]
  const CIRCLE_B: Values := map["x" := 0.0, "y" := 0.75, "z" := 1.5]
  const CIRCLE_C: Values := map["x" := 0.75, "y" := 1.5, "z" := 0.0]
  const CIRCLE := Table(["a", "b", "c"], map["a" := CIRCLE_A, "b" := CIRCLE_B, "c" := CIRCLE_C])

  lemma Surpasses(a: Values, b: Values, objectives: seq<string>, eps: real, k: nat)
    requires forall j :: 0 <= j < |objectives| ==> At(a, objectives[j]) + eps >= At(b, objectives[j])
    requires k < |objectives| && At(a, objectives[k]) > At(b, objectives[k]) + eps
    ensures Dominates(a, b, objectives, eps)
  {}

  lemma CircleIsEntangled()
    ensures Entangled(CIRCLE, ["x", "y", "z"], 1.0, {"a", "b", "c"})
  {
    var objectives := ["x", "y", "z"];
    assert Dominates(CIRCLE_A, CIRCLE_B, objectives, 1.0) by { Surpasses(CIRCLE_A, CIRCLE_B, objectives, 1.0, 0); }
    assert Dominates(CIRCLE_B, CIRCLE_C, objectives, 1.0) by { Surpasses(CIRCLE_B, CIRCLE_C, objectives, 1.0, 2); }
    assert Dominates(CIRCLE_C, CIRCLE_A, objectives, 1.0) by { Surpasses(CIRCLE_C, CIRCLE_A, objectives, 1.0, 1); }
    hide Dominates;
    var t := CIRCLE;
    assert Beats(t, objectives, 1.0, "a", "b") && Beats(t, objectives, 1.0, "b", "c")
      && Beats(t, objectives, 1.0, "c", "a");
  }

  /** With tolerance one, three candidates can dominate each other in a circle: sorting returns no front. */
  lemma ToleranceCanDropEverything(fronts: seq<seq<string>>, c: string)
    requires AreFronts(CIRCLE, ["x", "y", "z"], 1.0, fronts) && Front(CIRCLE, ["x", "y", "z"], 1.0, |fronts|) == {}
    requires c in {"a", "b", "c"}
    ensures !Ranked(fronts, c)
  {
    hide AreFronts, Front, Ranked, Entangled;
    CircleIsEntangled();
    assert c in CIRCLE.values;
    DroppedIffEntangled(CIRCLE, ["x", "y", "z"], 1.0, fronts, c);
  }
}
