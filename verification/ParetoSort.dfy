/** Pareto dominance and fast non-dominated sorting. Objective values are reals: rounding is not modelled. */
module ParetoSort {
  import opened Order

  type Values = map<string, real>

  /** Candidate ids in insertion order, with the values of each. */
  datatype Table = Table(ids: seq<string>, values: map<string, Values>) {
    ghost predicate Valid() {
      Distinct(ids) && forall id :: id in values <==> id in ids
    }
  }

  function At(v: Values, objective: string): real {
    if objective in v then v[objective] else 0.0
  }

  /** At least as good everywhere and strictly better somewhere, both up to `eps`. */
  predicate Dominates(a: Values, b: Values, objectives: seq<string>, eps: real) {
    && (forall k :: 0 <= k < |objectives| ==> At(a, objectives[k]) + eps >= At(b, objectives[k]))
    && (exists k :: 0 <= k < |objectives| && At(a, objectives[k]) > At(b, objectives[k]) + eps)
  }

  method ComputeDominates(a: Values, b: Values, objectives: seq<string>, eps: real) returns (r: bool)
    ensures r <==> Dominates(a, b, objectives, eps)
  {
    r := false;
    for k := 0 to |objectives|
      invariant forall j :: 0 <= j < k ==> At(a, objectives[j]) + eps >= At(b, objectives[j])
      invariant r <==> exists j :: 0 <= j < k && At(a, objectives[j]) > At(b, objectives[j]) + eps
    {
      if At(a, objectives[k]) + eps < At(b, objectives[k]) {
        assert !(At(a, objectives[k]) + eps >= At(b, objectives[k]));
        return false;
      }
      if At(a, objectives[k]) > At(b, objectives[k]) + eps { r := true; }
    }
    if r {
      var j :| 0 <= j < |objectives| && At(a, objectives[j]) > At(b, objectives[j]) + eps;
      assert Dominates(a, b, objectives, eps);
    }
  }

  /** For any tolerance, two candidates never dominate each other; none dominates itself. */
  lemma DominanceAsymmetric(a: Values, b: Values, objectives: seq<string>, eps: real)
    requires eps >= 0.0 && Dominates(a, b, objectives, eps)
    ensures !Dominates(b, a, objectives, eps)
  {
    var k :| 0 <= k < |objectives| && At(a, objectives[k]) > At(b, objectives[k]) + eps;
    assert At(b, objectives[k]) + eps < At(a, objectives[k]);
  }

  /** Without tolerance, dominance is transitive. */
  lemma DominanceTransitive(a: Values, b: Values, c: Values, objectives: seq<string>)
    requires Dominates(a, b, objectives, 0.0) && Dominates(b, c, objectives, 0.0)
    ensures Dominates(a, c, objectives, 0.0)
  {
    forall k | 0 <= k < |objectives| ensures At(a, objectives[k]) + 0.0 >= At(c, objectives[k]) {
      assert At(a, objectives[k]) + 0.0 >= At(b, objectives[k]);
      assert At(b, objectives[k]) + 0.0 >= At(c, objectives[k]);
    }
    var k :| 0 <= k < |objectives| && At(a, objectives[k]) > At(b, objectives[k]) + 0.0;
    assert At(b, objectives[k]) + 0.0 >= At(c, objectives[k]);
  }

  // ---------------------------------------------------------------- the layers that peeling must find

  predicate Beats(t: Table, objectives: seq<string>, eps: real, a: string, b: string) {
    a in t.values && b in t.values && Dominates(t.values[a], t.values[b], objectives, eps)
  }

  ghost function Dominators(t: Table, objectives: seq<string>, eps: real, c: string): set<string> {
    set d | d in t.values && Beats(t, objectives, eps, d, c)
  }

  /** The candidates all of whose dominators come before layer `k`. */
  ghost function Below(t: Table, objectives: seq<string>, eps: real, k: nat): set<string> {
    if k == 0 then {}
    else set c | c in t.values && Dominators(t, objectives, eps, c) <= Below(t, objectives, eps, k - 1)
  }

  ghost function Front(t: Table, objectives: seq<string>, eps: real, k: nat): set<string> {
    Below(t, objectives, eps, k + 1) - Below(t, objectives, eps, k)
  }

  lemma {:induction false} BelowGrows(t: Table, objectives: seq<string>, eps: real, k: nat)
    ensures Below(t, objectives, eps, k) <= Below(t, objectives, eps, k + 1)
  {
    if k > 0 {
      BelowGrows(t, objectives, eps, k - 1);
    }
  }

  lemma {:induction false} BelowMonotone(t: Table, objectives: seq<string>, eps: real, j: nat, k: nat)
    requires j <= k
    ensures Below(t, objectives, eps, j) <= Below(t, objectives, eps, k)
    decreases k - j
  {
    if j < k {
      BelowGrows(t, objectives, eps, j);
      BelowMonotone(t, objectives, eps, j + 1, k);
    }
  }

  // ---------------------------------------------------------------- sorting

  ghost predicate IsFront(t: Table, objectives: seq<string>, eps: real, k: nat, front: seq<string>) {
    && Distinct(front) && front != []
    && forall c :: c in front <==> c in Front(t, objectives, eps, k)
  }

  ghost predicate AreFronts(t: Table, objectives: seq<string>, eps: real, fronts: seq<seq<string>>) {
    forall k :: 0 <= k < |fronts| ==> IsFront(t, objectives, eps, k, fronts[k])
  }

  /** `dominated[a]` lists what `a` dominates; `count[c]` is the number of `c`'s dominators not yet `done`. */
  ghost predicate Counted(t: Table, objectives: seq<string>, eps: real,
                          dominated: map<string, seq<string>>, count: map<string, int>, done: set<string>) {
    && dominated.Keys == t.values.Keys && count.Keys == t.values.Keys
    && (forall a :: a in dominated ==> Distinct(dominated[a]))
    && (forall a, c :: a in dominated ==> (c in dominated[a] <==> Beats(t, objectives, eps, a, c)))
    && (forall c :: c in count ==> count[c] == |Dominators(t, objectives, eps, c) - done|)
  }

  /** One candidate compared with all: what it dominates, and by how many it is dominated. */
  method CompareWithAll(t: Table, objectives: seq<string>, eps: real, c: string) returns (dominated: seq<string>,
      count: int)
    requires t.Valid() && eps >= 0.0 && c in t.values
    ensures Distinct(dominated)
    ensures forall d :: d in dominated <==> Beats(t, objectives, eps, c, d)
    ensures count == |Dominators(t, objectives, eps, c)|
  {
    hide Dominates, Distinct;
    dominated, count := [], 0;
    assert Distinct(dominated) by { EmptyDistinct<string>(); }
    ghost var dominators: set<string> := {};
    for j := 0 to |t.ids|
      invariant Distinct(dominated)
      invariant forall d :: d in dominated <==> d in t.ids[..j] && Beats(t, objectives, eps, c, d)
      invariant forall d :: d in dominators <==> d in t.ids[..j] && Beats(t, objectives, eps, d, c)
      invariant count == |dominators|
    {
      var other := t.ids[j];
      FreshInPrefix(t.ids, j);
      if c != other {
        var forward := ComputeDominates(t.values[c], t.values[other], objectives, eps);
        if forward {
          DominanceAsymmetric(t.values[c], t.values[other], objectives, eps);
          DistinctAppend(dominated, other);
          dominated := dominated + [other];
        } else {
          var backward := ComputeDominates(t.values[other], t.values[c], objectives, eps);
          if backward {
            assert other !in dominators;
            count := count + 1;
            dominators := dominators + {other};
          }
        }
      } else if Beats(t, objectives, eps, c, c) {
        DominanceAsymmetric(t.values[c], t.values[c], objectives, eps);
      }
    }
    assert dominators == Dominators(t, objectives, eps, c);
  }

  lemma EmptyDistinct<T>()
    ensures Distinct<T>([])
  {}

  lemma FreshInPrefix<T>(xs: seq<T>, j: nat)
    requires Distinct(xs) && j < |xs|
    ensures xs[j] !in xs[..j]
    ensures forall x :: x in xs[..j + 1] <==> x in xs[..j] || x == xs[j]
  {
    assert xs[..j + 1] == xs[..j] + [xs[j]];
  }

  /** Strikes one processed candidate off the counters of what it dominates. */
  method Discount(t: Table, objectives: seq<string>, eps: real, dominated: map<string, seq<string>>,
                  counts: map<string, int>, freed: seq<string>, a: string,
                  ghost done: set<string>, ghost below: set<string>)
    returns (count: map<string, int>, next: seq<string>)
    requires Counted(t, objectives, eps, dominated, counts, done) && IsFreed(t, objectives, eps, counts, freed, below)
    requires a in t.values && a !in done && below <= done
    ensures Counted(t, objectives, eps, dominated, count, done + {a})
    ensures IsFreed(t, objectives, eps, count, next, below)
  {
    hide Dominators, Beats, Distinct, Counted, IsFreed;
    CountedParts(t, objectives, eps, dominated, counts, done);
    count, next := counts, freed;
    var targets := dominated[a];
    assert Distinct(targets);
    for q := 0 to |targets|
      invariant count.Keys == t.values.Keys
      invariant forall c :: c in count ==> count[c] == counts[c] - (if c in targets[..q] then 1 else 0)
      invariant IsFreed(t, objectives, eps, count, next, below)
    {
      var x := targets[q];
      FreshInPrefix(targets, q);
      assert x in targets && Beats(t, objectives, eps, a, x);
      assert x in count && a in Dominators(t, objectives, eps, x) - below by {
        BeatsMeansDominator(t, objectives, eps, a, x);
      }
      assert count[x] > 0 by { OneLess(t, objectives, eps, x, done, a); }
      FreedStep(t, objectives, eps, count, next, below, x);
      count := count[x := count[x] - 1];
      if count[x] == 0 {
        next := next + [x];
      }
    }
    assert targets[..|targets|] == targets;
    CountedNext(t, objectives, eps, dominated, counts, count, done, a);
  }

  lemma FreedStep(t: Table, objectives: seq<string>, eps: real, count: map<string, int>, next: seq<string>,
                  below: set<string>, x: string)
    requires IsFreed(t, objectives, eps, count, next, below)
    requires x in count && count[x] > 0 && Dominators(t, objectives, eps, x) - below != {}
    ensures IsFreed(t, objectives, eps, count[x := count[x] - 1], if count[x] == 1 then next + [x] else next, below)
  {
    hide Dominators, Beats, Distinct;
    if count[x] == 1 { DistinctAppend(next, x); }
  }

  lemma CountedParts(t: Table, objectives: seq<string>, eps: real,
                     dominated: map<string, seq<string>>, count: map<string, int>, done: set<string>)
    requires Counted(t, objectives, eps, dominated, count, done)
    ensures dominated.Keys == t.values.Keys && count.Keys == t.values.Keys
    ensures forall a :: a in dominated ==> Distinct(dominated[a])
    ensures forall a, c :: a in dominated ==> (c in dominated[a] <==> Beats(t, objectives, eps, a, c))
    ensures forall c :: c in count ==> count[c] == |Dominators(t, objectives, eps, c) - done| >= 0
  {}

  lemma CountedNext(t: Table, objectives: seq<string>, eps: real, dominated: map<string, seq<string>>,
                    counts: map<string, int>, count: map<string, int>, done: set<string>, a: string)
    requires Counted(t, objectives, eps, dominated, counts, done)
    requires a in t.values && a !in done && count.Keys == t.values.Keys
    requires forall c :: c in count ==> count[c] == counts[c] - (if c in dominated[a] then 1 else 0)
    ensures Counted(t, objectives, eps, dominated, count, done + {a})
  {
    hide Dominators, Beats, Distinct;
    forall c | c in count
      ensures count[c] == |Dominators(t, objectives, eps, c) - (done + {a})|
    {
      OneLess(t, objectives, eps, c, done, a);
    }
  }

  lemma BeatsMeansDominator(t: Table, objectives: seq<string>, eps: real, a: string, c: string)
    ensures Beats(t, objectives, eps, a, c) <==> c in t.values && a in Dominators(t, objectives, eps, c)
  {}

  /** Peels one layer off: processes the current front and returns the candidates that become free. */
  method Peel(t: Table, objectives: seq<string>, eps: real, dominated: map<string, seq<string>>,
              counts: map<string, int>, current: seq<string>, ghost k: nat)
    returns (count: map<string, int>, next: seq<string>)
    requires t.Valid() && Counted(t, objectives, eps, dominated, counts, Below(t, objectives, eps, k))
    requires IsFront(t, objectives, eps, k, current)
    ensures Counted(t, objectives, eps, dominated, count, Below(t, objectives, eps, k + 1))
    ensures forall c :: c in count ==> count[c] >= 0
    ensures Distinct(next) && forall c :: c in next <==> c in Front(t, objectives, eps, k + 1)
  {
    hide Dominators, Beats, Distinct, Below, Counted, IsFreed;
    count, next := counts, [];
    ghost var below := Below(t, objectives, eps, k);
    NothingFreed(t, objectives, eps, dominated, counts, below);
    assert current[..0] == [] && below + Members(current[..0]) == below;
    for p := 0 to |current|
      invariant Counted(t, objectives, eps, dominated, count, below + Members(current[..p]))
      invariant IsFreed(t, objectives, eps, count, next, below)
    {
      ghost var done := below + Members(current[..p]);
      FreshInPrefix(current, p);
      assert current[p] in current && current[p] in Front(t, objectives, eps, k);
      FrontIn(t, objectives, eps, k, current[p]);
      count, next := Discount(t, objectives, eps, dominated, count, next, current[p], done, below);
      assert below + Members(current[..p + 1]) == done + {current[p]};
    }
    assert current[..|current|] == current;
    BelowGrows(t, objectives, eps, k);
    assert below + Members(current) == Below(t, objectives, eps, k + 1);
    CountedParts(t, objectives, eps, dominated, count, Below(t, objectives, eps, k + 1));
    FreedIsFront(t, objectives, eps, dominated, count, next, k);
  }

  lemma FrontIn(t: Table, objectives: seq<string>, eps: real, k: nat, c: string)
    requires c in Front(t, objectives, eps, k)
    ensures c in t.values
  {}

  lemma NothingFreed(t: Table, objectives: seq<string>, eps: real, dominated: map<string, seq<string>>,
                     count: map<string, int>, below: set<string>)
    requires Counted(t, objectives, eps, dominated, count, below)
    ensures IsFreed(t, objectives, eps, count, [], below)
  {
    hide Dominators, Beats;
    assert Distinct<string>([]);
    forall c | c in count && count[c] == 0 ensures Dominators(t, objectives, eps, c) - below == {} {
      assert count[c] == |Dominators(t, objectives, eps, c) - below|;
    }
  }

  lemma FreedIsFront(t: Table, objectives: seq<string>, eps: real, dominated: map<string, seq<string>>,
                     count: map<string, int>, next: seq<string>, k: nat)
    requires Counted(t, objectives, eps, dominated, count, Below(t, objectives, eps, k + 1))
    requires IsFreed(t, objectives, eps, count, next, Below(t, objectives, eps, k))
    ensures Distinct(next) && forall c :: c in next <==> c in Front(t, objectives, eps, k + 1)
  {
    hide Dominators, Beats, Distinct;
    forall c ensures c in next <==> c in Front(t, objectives, eps, k + 1) {
      if c in count {
        EmptyMeansSubset(Dominators(t, objectives, eps, c), Below(t, objectives, eps, k + 1));
        EmptyMeansSubset(Dominators(t, objectives, eps, c), Below(t, objectives, eps, k));
      }
      BelowStep(t, objectives, eps, k + 1, c);
      BelowStep(t, objectives, eps, k, c);
    }
  }

  lemma BelowStep(t: Table, objectives: seq<string>, eps: real, k: nat, c: string)
    ensures c in Below(t, objectives, eps, k + 1)
      <==> c in t.values && Dominators(t, objectives, eps, c) <= Below(t, objectives, eps, k)
  {}

  /** The freed candidates: no dominator left to process, but some when the layer began. */
  ghost predicate IsFreed(t: Table, objectives: seq<string>, eps: real, count: map<string, int>, next: seq<string>,
                          below: set<string>) {
    && Distinct(next)
    && forall c :: c in next <==> c in count && count[c] == 0 && Dominators(t, objectives, eps, c) - below != {}
  }

  lemma EmptyMeansSubset(xs: set<string>, ys: set<string>)
    ensures |xs - ys| == 0 <==> xs <= ys
  {
    if xs <= ys { assert xs - ys == {}; }
    if |xs - ys| == 0 {
      assert xs - ys == {};
      forall x | x in xs ensures x in ys { assert x !in xs - ys; }
    }
  }

  lemma OneLess(t: Table, objectives: seq<string>, eps: real, c: string, done: set<string>, a: string)
    requires a !in done
    ensures |Dominators(t, objectives, eps, c) - (done + {a})|
         == |Dominators(t, objectives, eps, c) - done| - (if Beats(t, objectives, eps, a, c) then 1 else 0)
  {
    var rest := Dominators(t, objectives, eps, c) - done;
    assert Dominators(t, objectives, eps, c) - (done + {a}) == rest - {a};
    assert a in rest <==> Beats(t, objectives, eps, a, c);
  }

  /** The comparison phase: counters, dominated lists and the first front. */
  method CountDominators(t: Table, objectives: seq<string>, eps: real)
    returns (dominated: map<string, seq<string>>, count: map<string, int>, first: seq<string>)
    requires t.Valid() && eps >= 0.0
    ensures Counted(t, objectives, eps, dominated, count, Below(t, objectives, eps, 0))
    ensures Distinct(first) && forall c :: c in first <==> c in Front(t, objectives, eps, 0)
  {
    hide Dominators, Beats, Distinct, Below;
    dominated, count, first := map[], map[], [];
    EmptyDistinct<string>();
    for i := 0 to |t.ids|
      invariant count.Keys == dominated.Keys == Members(t.ids[..i])
      invariant forall a :: a in dominated ==> Distinct(dominated[a])
      invariant forall a, c :: a in dominated ==> (c in dominated[a] <==> Beats(t, objectives, eps, a, c))
      invariant forall c :: c in count ==> count[c] == |Dominators(t, objectives, eps, c)|
      invariant Distinct(first)
      invariant forall c :: c in first <==> c in count && count[c] == 0
    {
      var c := t.ids[i];
      FreshInPrefix(t.ids, i);
      var ds, n := CompareWithAll(t, objectives, eps, c);
      dominated, count := dominated[c := ds], count[c := n];
      if n == 0 {
        DistinctAppend(first, c);
        first := first + [c];
      }
    }
    assert t.ids[..|t.ids|] == t.ids;
    assert count.Keys == t.values.Keys;
    FirstLayer(t, objectives, eps, count, first);
  }

  lemma AddFront(t: Table, objectives: seq<string>, eps: real, fronts: seq<seq<string>>, next: seq<string>)
    requires AreFronts(t, objectives, eps, fronts) && next != [] && Distinct(next)
    requires forall c :: c in next <==> c in Front(t, objectives, eps, |fronts|)
    ensures AreFronts(t, objectives, eps, fronts + [next])
  {
    assert IsFront(t, objectives, eps, |fronts|, next);
  }

  lemma NoFront(t: Table, objectives: seq<string>, eps: real, k: nat, next: seq<string>)
    requires next == [] && forall c :: c in next <==> c in Front(t, objectives, eps, k)
    ensures Front(t, objectives, eps, k) == {}
  {}

  lemma FrontExtends(t: Table, objectives: seq<string>, eps: real, k: nat, front: seq<string>)
    requires IsFront(t, objectives, eps, k, front)
    ensures Below(t, objectives, eps, k) < Below(t, objectives, eps, k + 1) <= t.values.Keys
  {
    BelowGrows(t, objectives, eps, k);
    assert front[0] in front;
  }

  /**
   * Fast non-dominated sorting: the `k`-th list holds, without repetition, exactly the candidates
   * of layer `k`, and the lists stop where the layers do.
   */
  method NonDominatedSort(t: Table, objectives: seq<string>, eps: real) returns (fronts: seq<seq<string>>)
    requires t.Valid() && eps >= 0.0
    ensures AreFronts(t, objectives, eps, fronts)
    ensures Front(t, objectives, eps, |fronts|) == {}
  {
    hide Dominators, Beats, Distinct, Below, Front, Counted;
    if t.ids == [] {
      NoCandidates(t, objectives, eps);
      return [];
    }
    var dominated, count, first := CountDominators(t, objectives, eps);
    if first == [] {
      NoFront(t, objectives, eps, 0, first);
      return [];
    }
    fronts := [first];
    AddFront(t, objectives, eps, [], first);
    assert fronts == [] + [first];
    var current := first;
    ghost var k := 0;
    while true
      invariant |fronts| == k + 1 && current == fronts[k]
      invariant AreFronts(t, objectives, eps, fronts)
      invariant Counted(t, objectives, eps, dominated, count, Below(t, objectives, eps, k))
      decreases t.values.Keys - Below(t, objectives, eps, k)
    {
      var next;
      count, next := Peel(t, objectives, eps, dominated, count, current, k);
      if next == [] {
        NoFront(t, objectives, eps, k + 1, next);
        break;
      }
      FrontExtends(t, objectives, eps, k, current);
      AddFront(t, objectives, eps, fronts, next);
      fronts := fronts + [next];
      current := next;
      k := k + 1;
    }
  }

  lemma NoCandidates(t: Table, objectives: seq<string>, eps: real)
    requires t.Valid() && t.ids == []
    ensures Front(t, objectives, eps, 0) == {}
  {}

  lemma FirstLayer(t: Table, objectives: seq<string>, eps: real, count: map<string, int>, first: seq<string>)
    requires count.Keys == t.values.Keys
    requires forall c :: c in count ==> count[c] == |Dominators(t, objectives, eps, c)|
    requires forall c :: c in first <==> c in count && count[c] == 0
    ensures forall c :: c in first <==> c in Front(t, objectives, eps, 0)
    ensures forall c :: c in count ==> count[c] == |Dominators(t, objectives, eps, c) - Below(t, objectives, eps, 0)|
  {
    hide Dominators, Beats;
    forall c
      ensures c in first <==> c in Front(t, objectives, eps, 0)
      ensures c in count ==> count[c] == |Dominators(t, objectives, eps, c) - Below(t, objectives, eps, 0)|
    {
      if c in count {
        EmptyMeansSubset(Dominators(t, objectives, eps, c), {});
        assert Dominators(t, objectives, eps, c) - {} == Dominators(t, objectives, eps, c);
      }
      BelowStep(t, objectives, eps, 0, c);
    }
  }
}
