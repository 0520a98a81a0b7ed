/** Jaccard distance between feature sets, and greedy farthest-point selection over it. */
module Diversity {
  import opened Order

  type Features = map<string, set<string>>

  /** Similarity of two feature sets; two empty sets are alike. */
  function Jaccard(a: set<string>, b: set<string>): real {
    if a + b == {} then 1.0 else |a * b| as real / |a + b| as real
  }

  /** A candidate without registered features is similar to nothing, not even to itself. */
  function Similarity(f: Features, x: string, y: string): real {
    if x in f && y in f then Jaccard(f[x], f[y]) else 0.0
  }

  function Distance(f: Features, x: string, y: string): real {
    1.0 - Similarity(f, x, y)
  }

  // ---------------------------------------------------------------- the triangle inequality

  lemma SetSizes(a: set<string>, b: set<string>)
    ensures |a + b| == |a * b| + |a - b| + |b - a|
    ensures |a| == |a * b| + |a - b| && |b| == |a * b| + |b - a|
    ensures |a * b| <= |a + b|
  {
    assert a == (a * b) + (a - b);
    assert b == (a * b) + (b - a);
    assert a + b == a + (b - a);
  }

  /** How many features two sets do not share. */
  function Apart(a: set<string>, b: set<string>): nat { |a - b| + |b - a| }

  lemma ApartTriangle(a: set<string>, b: set<string>, c: set<string>)
    ensures Apart(a, c) <= Apart(a, b) + Apart(b, c)
  {
    SubsetSize(a - c, (a - b) + (b - c));
    SubsetSize(c - a, (c - b) + (b - a));
    SumSize(a - b, b - c);
    SumSize(c - b, b - a);
  }

  lemma SumSize(xs: set<string>, ys: set<string>)
    ensures |xs + ys| <= |xs| + |ys|
  {
    assert xs + ys == xs + (ys - xs);
    SubsetSize(ys - xs, ys);
  }

  lemma DistanceIsShare(a: set<string>, b: set<string>)
    requires a + b != {}
    ensures |a| + |b| + Apart(a, b) > 0
    ensures 1.0 - Jaccard(a, b) == 2.0 * Apart(a, b) as real / (|a| + |b| + Apart(a, b)) as real
  {
    SetSizes(a, b);
    var shared, whole := |a * b| as real, |a + b| as real;
    assert |a + b| > 0;
    assert (|a| + |b| + Apart(a, b)) as real == 2.0 * whole;
    assert Apart(a, b) as real == whole - shared;
    ShareOfWhole(shared, whole);
  }

  lemma ShareOfWhole(shared: real, whole: real)
    requires whole > 0.0
    ensures 1.0 - shared / whole == 2.0 * (whole - shared) / (2.0 * whole)
  {
    assert 2.0 * (whole - shared) / (2.0 * whole) == (whole - shared) / whole;
    assert (whole - shared) / whole == whole / whole - shared / whole;
  }

  /** `t / (n + t)` grows with `t`, and splits over a sum of numerators with smaller denominators. */
  lemma ShareTriangle(n: real, m: real, k: real, t: real, u: real, v: real)
    requires n >= 0.0 && m >= 0.0 && k >= 0.0 && t >= 0.0 && u >= 0.0 && v >= 0.0
    requires t <= u + v && n + t > 0.0 && m + u > 0.0 && k + v > 0.0
    requires m <= n + v && k <= n + u
    ensures t / (n + t) <= u / (m + u) + v / (k + v)
  {
    var w := u + v;
    if w > 0.0 {
      GrowingShare(n, t, w);
      SplitShare(u, v, n + w);
      SmallerDenominator(u, m + u, n + w);
      SmallerDenominator(v, k + v, n + w);
    } else {
      assert t == 0.0;
    }
  }

  lemma Cross(a: real, b: real, c: real, d: real)
    requires b > 0.0 && d > 0.0
    ensures a / b <= c / d <==> a * d <= c * b
  {
    var x, y := a / b, c / d;
    assert a == x * b && c == y * d;
    assert a * d == x * (b * d) && c * b == y * (b * d);
    assert b * d > 0.0;
    Scale(x, y, b * d);
  }

  lemma GrowingShare(n: real, t: real, w: real)
    requires n >= 0.0 && 0.0 <= t <= w && n + t > 0.0 && w > 0.0
    ensures t / (n + t) <= w / (n + w)
  {
    assert t * n <= w * n;
    assert t * (n + w) <= w * (n + t);
    Cross(t, n + t, w, n + w);
  }

  lemma SplitShare(u: real, v: real, d: real)
    requires d > 0.0
    ensures (u + v) / d == u / d + v / d
  {}

  lemma SmallerDenominator(u: real, d: real, e: real)
    requires u >= 0.0 && 0.0 < d <= e
    ensures u / e <= u / d
  {
    assert u * d <= u * e;
    Cross(u, e, u, d);
  }

  lemma JaccardTriangle(a: set<string>, b: set<string>, c: set<string>)
    ensures 1.0 - Jaccard(a, c) <= (1.0 - Jaccard(a, b)) + (1.0 - Jaccard(b, c))
  {
    hide Jaccard;
    JaccardRange(a, b);
    JaccardRange(b, c);
    JaccardRange(a, c);
    JaccardSelf(a);
    if a + b != {} && b + c != {} && a + c != {} {
      JaccardTriangleNonempty(a, b, c);
    } else if a + c == {} {
      EmptyAlike(a, c);
    } else if a + b == {} {
      assert a == b;
    } else {
      assert b == c;
    }
  }

  lemma EmptyAlike(a: set<string>, b: set<string>)
    requires a + b == {}
    ensures Jaccard(a, b) == 1.0
  {}

  lemma JaccardRange(a: set<string>, b: set<string>)
    ensures 0.0 <= Jaccard(a, b) <= 1.0
  {
    SetSizes(a, b);
    if a + b != {} { Fraction(|a * b| as real, |a + b| as real); }
  }

  lemma JaccardSelf(a: set<string>)
    ensures Jaccard(a, a) == 1.0
  {
    assert a * a == a && a + a == a;
  }

  lemma JaccardTriangleNonempty(a: set<string>, b: set<string>, c: set<string>)
    requires a + b != {} && b + c != {} && a + c != {}
    ensures 1.0 - Jaccard(a, c) <= (1.0 - Jaccard(a, b)) + (1.0 - Jaccard(b, c))
  {
    hide Jaccard, Apart;
    DistanceIsShare(a, b);
    DistanceIsShare(b, c);
    DistanceIsShare(a, c);
    ApartTriangle(a, b, c);
    ApartBounds(a, b, c);
    var n, m, k := (|a| + |c|) as real, (|a| + |b|) as real, (|b| + |c|) as real;
    var t, u, v := Apart(a, c) as real, Apart(a, b) as real, Apart(b, c) as real;
    ShareTriangle(n, m, k, t, u, v);
    Twice(t, n + t);
    Twice(u, m + u);
    Twice(v, k + v);
  }

  lemma ApartBounds(a: set<string>, b: set<string>, c: set<string>)
    ensures |b| <= |c| + Apart(b, c) && |b| <= |a| + Apart(a, b)
  {
    SetSizes(a, b);
    SetSizes(b, c);
  }

  lemma Twice(x: real, y: real)
    requires y > 0.0
    ensures 2.0 * x / y == 2.0 * (x / y)
  {}

  /** The distance used for selection is a pseudo-metric, registered or not. */
  lemma DistanceTriangle(f: Features, x: string, y: string, z: string)
    ensures Distance(f, x, z) <= Distance(f, x, y) + Distance(f, y, z)
    ensures 0.0 <= Distance(f, x, y) <= 1.0 && Distance(f, x, y) == Distance(f, y, x)
  {
    hide Jaccard;
    if x in f && y in f {
      JaccardRange(f[x], f[y]);
      JaccardSymmetric(f[x], f[y]);
    }
    if y in f && z in f { JaccardRange(f[y], f[z]); }
    if x in f && z in f { JaccardRange(f[x], f[z]); }
    if x in f && y in f && z in f { JaccardTriangle(f[x], f[y], f[z]); }
  }

  lemma JaccardSymmetric(a: set<string>, b: set<string>)
    ensures Jaccard(a, b) == Jaccard(b, a)
  {
    assert a * b == b * a && a + b == b + a;
  }

  // ---------------------------------------------------------------- what the distance measures

  lemma UnionSize(a: set<string>, b: set<string>)
    requires a != {} || b != {}
    ensures |a + b| > 0
  {
    SubsetSize(a, a + b);
    SubsetSize(b, a + b);
  }

  /**
   * The distance of two registered candidates is the share of their features that only one of them has; without
   * any features they are alike, and an unregistered candidate is as far as can be from every other.
   */
  lemma DistanceIsUnsharedPart(f: Features, x: string, y: string)
    ensures x in f && y in f && (f[x] != {} || f[y] != {}) ==>
      |f[x] + f[y]| > 0
      && Distance(f, x, y) * |f[x] + f[y]| as real == (|f[x] + f[y]| - |f[x] * f[y]|) as real
    ensures x in f && y in f && f[x] == {} && f[y] == {} ==> Distance(f, x, y) == 0.0
    ensures x !in f || y !in f ==> Distance(f, x, y) == 1.0
  {
    if x in f && y in f && (f[x] != {} || f[y] != {}) {
      UnionSize(f[x], f[y]);
      Unshared(|f[x] * f[y]| as real, |f[x] + f[y]| as real);
    }
  }

  lemma Unshared(shared: real, whole: real)
    requires whole > 0.0
    ensures (1.0 - shared / whole) * whole == whole - shared
  {
    var part := shared / whole;
    assert part * whole == shared;
  }

  /** Distance zero means the same features. */
  lemma AtNoDistance(f: Features, x: string, y: string)
    ensures Distance(f, x, y) == 0.0 <==> x in f && y in f && f[x] == f[y]
  {
    DistanceIsUnsharedPart(f, x, y);
    hide Distance;
    if x in f && y in f && (f[x] != {} || f[y] != {}) {
      SetSizes(f[x], f[y]);
      if f[x] == f[y] {
        assert f[x] * f[y] == f[x] + f[y];
        NoFactor(Distance(f, x, y), |f[x] + f[y]| as real);
      }
      if Distance(f, x, y) == 0.0 {
        assert |f[x] - f[y]| + |f[y] - f[x]| == 0;
        assert f[x] - f[y] == {} && f[y] - f[x] == {};
        assert f[x] == f[y];
      }
    }
  }

  lemma NoFactor(x: real, y: real)
    requires y > 0.0 && x * y == 0.0
    ensures x == 0.0
  {}

  // ---------------------------------------------------------------- selection

  /** A candidate's distance to the nearest reference, at most one. */
  function Nearest(f: Features, x: string, refs: seq<string>): real {
    if refs == [] then 1.0
    else
      var rest, d := Nearest(f, x, refs[..|refs| - 1]), Distance(f, x, refs[|refs| - 1]);
      if d < rest then d else rest
  }

  lemma {:induction false} NearestBounds(f: Features, x: string, refs: seq<string>)
    ensures Nearest(f, x, refs) <= 1.0
    ensures forall i :: 0 <= i < |refs| ==> Nearest(f, x, refs) <= Distance(f, x, refs[i])
    ensures refs != [] ==> exists i :: 0 <= i < |refs| && Nearest(f, x, refs) == Distance(f, x, refs[i])
  {
    if refs != [] {
      var front, last := refs[..|refs| - 1], refs[|refs| - 1];
      NearestBounds(f, x, front);
      DistanceTriangle(f, x, last, last);
      if front != [] {
        var i :| 0 <= i < |front| && Nearest(f, x, front) == Distance(f, x, front[i]);
        assert refs[i] == front[i];
      }
      forall i | 0 <= i < |refs| ensures Nearest(f, x, refs) <= Distance(f, x, refs[i]) {
        if i < |front| { assert refs[i] == front[i]; }
      }
      assert refs[|refs| - 1] == last;
    }
  }

  /** The greedy choice: farthest from the references, the smallest id among equals. */
  ghost predicate Farthest(f: Features, remaining: set<string>, refs: seq<string>, best: string) {
    && best in remaining
    && forall x :: x in remaining ==>
         Nearest(f, x, refs) < Nearest(f, best, refs) || (Nearest(f, x, refs) == Nearest(f, best, refs)
                                                          && StrLe(best, x))
  }

  /** `selected` was chosen greedily from `candidates`, starting from the references `existing`. */
  ghost predicate Greedy(f: Features, candidates: set<string>, existing: seq<string>, selected: seq<string>) {
    selected == [] ||
    (var front, last := selected[..|selected| - 1], selected[|selected| - 1];
     Greedy(f, candidates, existing, front) && Farthest(f, candidates - Members(front), existing + front, last))
  }

  /** `x` is registered with the very features of some reference. */
  ghost predicate Repeats(f: Features, x: string, refs: seq<string>) {
    exists i :: 0 <= i < |refs| && x in f && refs[i] in f && f[x] == f[refs[i]]
  }

  lemma NearestZeroIffRepeats(f: Features, x: string, refs: seq<string>)
    ensures Nearest(f, x, refs) == 0.0 <==> Repeats(f, x, refs)
  {
    hide Distance, Nearest;
    NearestBounds(f, x, refs);
    NearestPositive(f, x, refs);
    if Nearest(f, x, refs) == 0.0 {
      if refs == [] { NearestAlone(f, x); }
      var i :| 0 <= i < |refs| && Nearest(f, x, refs) == Distance(f, x, refs[i]);
      AtNoDistance(f, x, refs[i]);
    }
    if Repeats(f, x, refs) {
      var i :| 0 <= i < |refs| && x in f && refs[i] in f && f[x] == f[refs[i]];
      AtNoDistance(f, x, refs[i]);
    }
  }

  lemma NearestAlone(f: Features, x: string)
    ensures Nearest(f, x, []) == 1.0
  {}

  /**
   * A candidate that repeats the features of a reference or an earlier choice is taken only when every
   * remaining candidate does.
   */
  ghost predicate RepeatsLast(f: Features, candidates: set<string>, existing: seq<string>, selected: seq<string>) {
    forall i, x :: 0 <= i < |selected| && x in candidates - Members(selected[..i]) ==>
      Repeats(f, selected[i], existing + selected[..i]) ==> Repeats(f, x, existing + selected[..i])
  }

  lemma {:induction false} GreedyRepeatsLast(f: Features, candidates: set<string>, existing: seq<string>,
                                             selected: seq<string>)
    requires Greedy(f, candidates, existing, selected)
    ensures RepeatsLast(f, candidates, existing, selected)
  {
    hide Repeats, Nearest, Members;
    forall i, x |
      0 <= i < |selected| && x in candidates - Members(selected[..i])
        && Repeats(f, selected[i], existing + selected[..i])
      ensures Repeats(f, x, existing + selected[..i])
    {
      var refs := existing + selected[..i];
      PrefixGreedy(f, candidates, existing, selected, i + 1);
      assert selected[..i + 1][..i] == selected[..i];
      NearestZeroIffRepeats(f, selected[i], refs);
      NearestZeroIffRepeats(f, x, refs);
      NearestPositive(f, x, refs);
    }
  }

  method MinDistance(f: Features, x: string, refs: seq<string>) returns (d: real)
    ensures d == Nearest(f, x, refs)
  {
    d := 1.0;
    for i := 0 to |refs|
      invariant d == Nearest(f, x, refs[..i])
    {
      assert refs[..i + 1][..i] == refs[..i];
      var distance := 1.0 - Similarity(f, x, refs[i]);
      if distance < d { d := distance; }
    }
    assert refs[..|refs|] == refs;
  }

  /** Scans the remaining candidates in sorted order for the one farthest from the references. */
  method FindFarthest(f: Features, remaining: set<string>, refs: seq<string>) returns (best: string)
    requires remaining != {}
    ensures Farthest(f, remaining, refs, best)
  {
    var order := SortedIds(remaining);
    var found: Option<string> := None;
    var score := -1.0;
    for i := 0 to |order|
      invariant found.None? <==> i == 0
      invariant found.None? ==> score == -1.0
      invariant found.Some? ==> found.value in order[..i] && score == Nearest(f, found.value, refs)
      invariant found.Some? ==> forall x :: x in order[..i] ==>
        Nearest(f, x, refs) < score || (Nearest(f, x, refs) == score && StrLe(found.value, x))
    {
      var x := order[i];
      assert order[..i + 1] == order[..i] + [x];
      var d := MinDistance(f, x, refs);
      NearestPositive(f, x, refs);
      StrLeIsTotalOrder();
      if found.Some? {
        assert found.value in order[..i];
        var j :| 0 <= j < i && order[j] == found.value;
        assert StrLe(order[j], order[i]);
      }
      var comesFirst := match found case None => true case Some(b) => StrLe(x, b) && x != b;
      if d > score || (d == score && comesFirst) {
        score, found := d, Some(x);
      }
    }
    assert order[..|order|] == order;
    assert Members(order) != {};
    best := found.value;
  }

  lemma NearestPositive(f: Features, x: string, refs: seq<string>)
    ensures Nearest(f, x, refs) >= 0.0
  {
    NearestBounds(f, x, refs);
    if refs != [] {
      var i :| 0 <= i < |refs| && Nearest(f, x, refs) == Distance(f, x, refs[i]);
      DistanceTriangle(f, x, refs[i], refs[i]);
    }
  }

  lemma EmptySelection(f: Features, candidates: set<string>, existing: seq<string>)
    ensures Greedy(f, candidates, existing, []) && Distinct<string>([]) && Members<string>([]) == {}
  {}

  lemma MembersAppend(xs: seq<string>, x: string)
    ensures Members(xs + [x]) == Members(xs) + {x} && (x in Members(xs) <==> x in xs)
  {}

  lemma GreedyStep(f: Features, candidates: set<string>, existing: seq<string>, selected: seq<string>, best: string)
    requires Greedy(f, candidates, existing, selected)
    requires Farthest(f, candidates - Members(selected), existing + selected, best)
    ensures Greedy(f, candidates, existing, selected + [best]) && best in candidates && best !in selected
  {
    hide Nearest;
    assert (selected + [best])[..|selected|] == selected;
    assert best in candidates - Members(selected);
  }

  /** Picks up to `maxSelect` candidates, each as far as possible from those before it. */
  method SelectDiverse(f: Features, candidateIds: seq<string>, maxSelect: int,
                       existing: seq<string>) returns (selected: seq<string>)
    ensures Greedy(f, Members(candidateIds), existing, selected)
    ensures RepeatsLast(f, Members(candidateIds), existing, selected)
    ensures Distinct(selected) && Members(selected) <= Members(candidateIds)
    ensures var available := |Members(candidateIds)|;
      |selected| == if maxSelect < 0 then 0 else if maxSelect < available then maxSelect else available
  {
    hide Greedy, Farthest, Distinct, Members, RepeatsLast;
    var remaining := Members(candidateIds);
    EmptySelection(f, Members(candidateIds), existing);
    var references := existing;
    selected := [];
    while remaining != {} && |selected| < maxSelect
      invariant Greedy(f, Members(candidateIds), existing, selected)
      invariant Distinct(selected) && Members(selected) <= Members(candidateIds)
      invariant remaining == Members(candidateIds) - Members(selected) && references == existing + selected
      invariant |selected| == 0 || |selected| <= maxSelect
      invariant |remaining| + |selected| == |Members(candidateIds)|
      decreases remaining
    {
      var best := FindFarthest(f, remaining, references);
      GreedyStep(f, Members(candidateIds), existing, selected, best);
      DistinctAppend(selected, best);
      MembersAppend(selected, best);
      assert existing + (selected + [best]) == existing + selected + [best];
      selected := selected + [best];
      remaining := remaining - {best};
      references := references + [best];
    }
    GreedyRepeatsLast(f, Members(candidateIds), existing, selected);
  }

  // ---------------------------------------------------------------- how good the selection is

  lemma {:induction false} PrefixGreedy(f: Features, candidates: set<string>, existing: seq<string>,
                                        selected: seq<string>, k: nat)
    requires Greedy(f, candidates, existing, selected) && k <= |selected|
    ensures Greedy(f, candidates, existing, selected[..k])
  {
    if k < |selected| {
      assert selected[..|selected| - 1][..k] == selected[..k];
      PrefixGreedy(f, candidates, existing, selected[..|selected| - 1], k);
    } else {
      assert selected[..k] == selected;
    }
  }

  lemma NearestShrinks(f: Features, x: string, refs: seq<string>, r: string)
    ensures Nearest(f, x, refs + [r]) <= Nearest(f, x, refs)
  {
    assert (refs + [r])[..|refs|] == refs;
  }

  /** The score of the last choice is at most the distance between any two references-or-choices involving a choice. */
  lemma {:induction false} LastScoreIsSmallest(f: Features, candidates: set<string>, existing: seq<string>,
                                               selected: seq<string>, i: nat)
    requires Greedy(f, candidates, existing, selected) && i < |selected|
    ensures Score(f, existing, selected, |selected| - 1) <= Score(f, existing, selected, i)
    decreases |selected|
  {
    var last := |selected| - 1;
    if i < last {
      var front := selected[..last];
      LastScoreIsSmallest(f, candidates, existing, front, i);
      assert selected[..i] == front[..i] && selected[..last - 1] == front[..last - 1];
      var earlier := existing + selected[..last - 1];
      assert Greedy(f, candidates, existing, front);
      assert Farthest(f, candidates - Members(front[..last - 1]), existing + front[..last - 1], front[last - 1]);
      assert selected[last] in candidates - Members(front);
      assert selected[last] !in Members(front[..last - 1]);
      NearestShrinks(f, selected[last], earlier, selected[last - 1]);
      assert existing + selected[..last] == earlier + [selected[last - 1]];
    }
  }

  /** How far the `i`-th choice was from everything before it. */
  ghost function Score(f: Features, existing: seq<string>, selected: seq<string>, i: nat): real
    requires i < |selected|
  {
    Nearest(f, selected[i], existing + selected[..i])
  }

  /** Every candidate is within the last score of a reference or of an earlier choice, or is one. */
  lemma Covered(f: Features, candidates: set<string>, existing: seq<string>, selected: seq<string>,
                x: string) returns (c: nat)
    requires Greedy(f, candidates, existing, selected) && selected != [] && x in candidates
    requires existing != [] || |selected| >= 2
    ensures var refs := existing + selected[..|selected| - 1];
      && c < |refs|
      && ((c >= |existing| && refs[c] == x) || Distance(f, x, refs[c]) <= Score(f, existing, selected, |selected| - 1))
  {
    var front := selected[..|selected| - 1];
    var refs := existing + front;
    if x in front {
      var j :| 0 <= j < |front| && front[j] == x;
      c := |existing| + j;
    } else {
      assert x in candidates - Members(front);
      NearestBounds(f, x, refs);
      var j :| 0 <= j < |refs| && Nearest(f, x, refs) == Distance(f, x, refs[j]);
      c := j;
    }
  }

  /** The smallest distance a choice keeps from the references and the other choices. */
  ghost predicate KeepsApart(f: Features, existing: seq<string>, chosen: seq<string>, gap: real) {
    && (forall i, j :: 0 <= i < j < |chosen| ==> Distance(f, chosen[i], chosen[j]) >= gap)
    && (forall i, e :: 0 <= i < |chosen| && 0 <= e < |existing| ==> Distance(f, chosen[i], existing[e]) >= gap)
  }

  /** The greedy choice keeps everything at least the last score apart. */
  lemma SelectedApart(f: Features, candidates: set<string>, existing: seq<string>, selected: seq<string>)
    requires Greedy(f, candidates, existing, selected) && selected != []
    ensures KeepsApart(f, existing, selected, Score(f, existing, selected, |selected| - 1))
  {
    var gap := Score(f, existing, selected, |selected| - 1);
    forall i, j | 0 <= i < j < |selected| ensures Distance(f, selected[i], selected[j]) >= gap {
      LastScoreIsSmallest(f, candidates, existing, selected, j);
      var refs := existing + selected[..j];
      NearestBounds(f, selected[j], refs);
      assert refs[|existing| + i] == selected[i];
      DistanceTriangle(f, selected[i], selected[j], selected[j]);
    }
    forall i, e | 0 <= i < |selected| && 0 <= e < |existing| ensures Distance(f, selected[i], existing[e]) >= gap {
      LastScoreIsSmallest(f, candidates, existing, selected, i);
      var refs := existing + selected[..i];
      NearestBounds(f, selected[i], refs);
      assert refs[e] == existing[e];
    }
  }

  lemma {:induction false} Pigeonhole(holes: nat, at: seq<nat>) returns (i: nat, j: nat)
    requires |at| > holes && forall k :: 0 <= k < |at| ==> at[k] < holes
    ensures i < j < |at| && at[i] == at[j]
    decreases holes
  {
    var last := |at| - 1;
    if k :| 0 <= k < last && at[k] == at[last] {
      i, j := k, last;
    } else {
      var moved := seq(last, k requires 0 <= k < last => if at[k] == holes - 1 then at[last] else at[k]);
      if at[last] == holes - 1 {
        assert forall k :: 0 <= k < last ==> at[k] != holes - 1;
      }
      forall k | 0 <= k < |moved| ensures moved[k] < holes - 1 {}
      i, j := Pigeonhole(holes - 1, moved);
    }
  }

  /**
   * Greedy selection is within a factor two of the best: however many candidates are chosen instead,
   * the distance they all keep from each other and from the existing references is at most twice the
   * one the greedy choice keeps. Candidates need not be registered, and existing references are allowed.
   */
  lemma GreedyIsHalfOptimal(f: Features, candidates: set<string>, existing: seq<string>, selected: seq<string>,
                            other: seq<string>, gap: real)
    requires Greedy(f, candidates, existing, selected) && selected != []
    requires existing != [] || |selected| >= 2
    requires |other| == |selected| && Distinct(other) && (forall x :: x in other ==> x in candidates)
    requires KeepsApart(f, existing, other, gap)
    ensures KeepsApart(f, existing, selected, gap / 2.0)
  {
    hide Distance, Nearest, Greedy;
    SelectedApart(f, candidates, existing, selected);
    var score, front := Score(f, existing, selected, |selected| - 1), selected[..|selected| - 1];
    var refs := existing + front;
    var n, e := |other|, |existing|;
    var centre: seq<nat> := [];
    while |centre| < n
      invariant |centre| <= n
      invariant forall k :: 0 <= k < |centre| ==>
        && centre[k] < |refs|
        && ((centre[k] >= e && refs[centre[k]] == other[k]) || Distance(f, other[k], refs[centre[k]]) <= score)
    {
      assert other[|centre|] in other;
      var c := Covered(f, candidates, existing, selected, other[|centre|]);
      centre := centre + [c];
    }
    var all := seq(e + n, k requires 0 <= k < e + n => if k < e then k else centre[k - e]);
    var i, j := Pigeonhole(|refs|, all);
    NearestPositive(f, selected[|selected| - 1], refs);
    var x, c := other[j - e], refs[all[j]];
    if i < e {
      assert c == existing[i];
    } else {
      var y := other[i - e];
      assert x != y && Distance(f, y, x) >= gap;
      DistanceTriangle(f, y, c, x);
      DistanceTriangle(f, c, x, x);
      DistanceTriangle(f, x, y, y);
    }
    assert gap <= 2.0 * score;
    assert gap / 2.0 <= score;
  }
}
