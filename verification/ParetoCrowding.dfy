/** Crowding distance within one front. */
module ParetoCrowding {
  import opened Order
  import opened ParetoSort

  const LARGE: real := 1000000000.0

  function Score(t: Table, objective: string, c: string): real {
    if c in t.values then At(t.values[c], objective) else 0.0
  }

  /** The front in ascending order of one objective, ties in their original order. */
  function Ordered(t: Table, front: seq<string>, objective: string): seq<string> {
    SortBy(front, (a: string, b: string) => Score(t, objective, a) <= Score(t, objective, b))
  }

  lemma OrderedFacts(t: Table, front: seq<string>, objective: string)
    requires Distinct(front)
    ensures var s := Ordered(t, front, objective);
      && Distinct(s) && |s| == |front| && (forall x :: x in s <==> x in front)
      && (forall i, j :: 0 <= i < j < |s| ==> Score(t, objective, s[i]) <= Score(t, objective, s[j]))
  {
    var le := (a: string, b: string) => Score(t, objective, a) <= Score(t, objective, b);
    SortBySorts(front, le);
    SortByDistinct(front, le);
    var s := Ordered(t, front, objective);
    forall i, j | 0 <= i < j < |s| ensures Score(t, objective, s[i]) <= Score(t, objective, s[j]) {
      assert le(s[i], s[j]);
    }
  }

  function IndexOf(xs: seq<string>, x: string): (i: nat)
    requires x in xs
    ensures i < |xs| && xs[i] == x
  {
    if xs[0] == x then 0 else 1 + IndexOf(xs[1..], x)
  }

  lemma IndexOfAt(xs: seq<string>, i: nat)
    requires Distinct(xs) && i < |xs|
    ensures IndexOf(xs, xs[i]) == i
  {
    var j := IndexOf(xs, xs[i]);
    if j != i { assert false; }
  }

  function Spread(t: Table, objective: string, s: seq<string>): real
    requires s != []
  {
    Score(t, objective, s[|s| - 1]) - Score(t, objective, s[0])
  }

  /** What an interior position earns: the gap between its neighbours relative to the whole spread. */
  function Gap(t: Table, objective: string, s: seq<string>, i: nat): real
    requires 0 < i < |s| - 1
  {
    if Spread(t, objective, s) == 0.0 then 0.0
    else (Score(t, objective, s[i + 1]) - Score(t, objective, s[i - 1])) / Spread(t, objective, s)
  }

  predicate AtEnd(t: Table, front: seq<string>, objective: string, x: string) {
    var s := Ordered(t, front, objective);
    x in s && (IndexOf(s, x) == 0 || IndexOf(s, x) == |s| - 1)
  }

  /** The distance after the first `k` objectives: end points are overwritten, the others accumulate. */
  function Crowding(t: Table, front: seq<string>, objectives: seq<string>, k: nat, x: string): real
    requires k <= |objectives|
  {
    if k == 0 then 0.0
    else
      var s := Ordered(t, front, objectives[k - 1]);
      if x !in s then 0.0
      else
        var i := IndexOf(s, x);
        if i == 0 || i == |s| - 1 then LARGE
        else Crowding(t, front, objectives, k - 1, x) + Gap(t, objectives[k - 1], s, i)
  }

  method CrowdingDistance(front: seq<string>, objectives: seq<string>, t: Table) returns (distances: map<string, real>)
    requires Distinct(front)
    ensures forall x :: x in distances <==> x in front
    ensures forall x :: x in front ==>
              distances[x] == (if |front| <= 2 then LARGE else Crowding(t, front, objectives, |objectives|, x))
  {
    hide SortBy, Distinct, Gap;
    distances := map x | x in front :: if |front| <= 2 then LARGE else 0.0;
    if |front| <= 2 { return; }
    for k := 0 to |objectives|
      invariant forall x :: x in distances <==> x in front
      invariant forall x :: x in front ==> distances[x] == Crowding(t, front, objectives, k, x)
    {
      distances := AddObjective(front, objectives, t, k, distances);
    }
  }

  method AddObjective(front: seq<string>, objectives: seq<string>, t: Table, k: nat, before: map<string, real>)
    returns (distances: map<string, real>)
    requires Distinct(front) && |front| > 2 && k < |objectives|
    requires forall x :: x in before <==> x in front
    requires forall x :: x in front ==> before[x] == Crowding(t, front, objectives, k, x)
    ensures forall x :: x in distances <==> x in front
    ensures forall x :: x in front ==> distances[x] == Crowding(t, front, objectives, k + 1, x)
  {
    hide Crowding, SortBy, Ordered, Gap, Score, IndexOf;
    var o := objectives[k];
    var s := Ordered(t, front, o);
    OrderedFacts(t, front, o);
    var n := |s|;
    var low, high := Score(t, o, s[0]), Score(t, o, s[n - 1]);
    distances := before[s[0] := LARGE];
    distances := distances[s[n - 1] := LARGE];
    if high != low { distances := AddGaps(front, s, o, t, distances); }
    forall i | 0 <= i < n ensures distances[s[i]] == Crowding(t, front, objectives, k + 1, s[i]) {
      CrowdingStep(t, front, objectives, k, s, i);
      if high == low && 0 < i < n - 1 { NoSpread(t, o, s, i); }
    }
    Everywhere(front, s, distances, t, objectives, k + 1);
  }

  /** Adds to each interior distance the gap between its neighbours, as a share of the whole spread. */
  method AddGaps(front: seq<string>, s: seq<string>, o: string, t: Table, before: map<string, real>)
    returns (distances: map<string, real>)
    requires Distinct(s) && |s| > 2 && Spread(t, o, s) != 0.0
    requires (forall x :: x in before <==> x in front) && (forall x :: x in s <==> x in front)
    ensures forall x :: x in distances <==> x in front
    ensures forall j :: 0 <= j < |s| ==>
      distances[s[j]] == before[s[j]] + if 0 < j < |s| - 1 then Gap(t, o, s, j) else 0.0
  {
    hide Gap, Score;
    var n := |s|;
    var low, high := Score(t, o, s[0]), Score(t, o, s[n - 1]);
    distances := before;
    for i := 1 to n - 1
      invariant forall x :: x in distances <==> x in front
      invariant forall j :: 0 <= j < n ==> distances[s[j]] == before[s[j]] + if 0 < j < i then Gap(t, o, s, j) else 0.0
    {
      SomeSpread(t, o, s, i);
      distances := distances[s[i] := distances[s[i]] + (Score(t, o, s[i + 1]) - Score(t, o, s[i - 1])) / (high - low)];
    }
  }

  lemma Everywhere(front: seq<string>, s: seq<string>, distances: map<string, real>, t: Table, objectives: seq<string>,
                   k: nat)
    requires k <= |objectives| && (forall x :: x in distances <==> x in front) && (forall x :: x in front ==> x in s)
    requires forall i :: 0 <= i < |s| ==>
      s[i] in distances && distances[s[i]] == Crowding(t, front, objectives, k, s[i])
    ensures forall x :: x in front ==> distances[x] == Crowding(t, front, objectives, k, x)
  {}

  lemma NoSpread(t: Table, o: string, s: seq<string>, i: nat)
    requires 0 < i < |s| - 1 && Spread(t, o, s) == 0.0
    ensures Gap(t, o, s, i) == 0.0
  {}

  lemma SomeSpread(t: Table, o: string, s: seq<string>, i: nat)
    requires 0 < i < |s| - 1 && Spread(t, o, s) != 0.0
    ensures Gap(t, o, s, i)
      == (Score(t, o, s[i + 1]) - Score(t, o, s[i - 1])) / (Score(t, o, s[|s| - 1]) - Score(t, o, s[0]))
  {}

  lemma CrowdingStep(t: Table, front: seq<string>, objectives: seq<string>, k: nat, s: seq<string>, i: nat)
    requires k < |objectives| && s == Ordered(t, front, objectives[k]) && Distinct(s) && i < |s|
    ensures Crowding(t, front, objectives, k + 1, s[i]) ==
      if i == 0 || i == |s| - 1 then LARGE
      else Crowding(t, front, objectives, k, s[i]) + Gap(t, objectives[k], s, i)
  {
    hide Ordered, Gap;
    IndexOfAt(s, i);
  }

  // ---------------------------------------------------------------- bands

  ghost predicate EndSomewhere(t: Table, front: seq<string>, objectives: seq<string>, k: nat, x: string)
    requires k <= |objectives|
  {
    exists j :: 0 <= j < k && AtEnd(t, front, objectives[j], x)
  }

  lemma GapIsFraction(t: Table, objective: string, s: seq<string>, i: nat)
    requires 0 < i < |s| - 1
    requires forall i, j :: 0 <= i < j < |s| ==> Score(t, objective, s[i]) <= Score(t, objective, s[j])
    ensures 0.0 <= Gap(t, objective, s, i) <= 1.0
  {
    var a, b := Score(t, objective, s[i + 1]) - Score(t, objective, s[i - 1]), Spread(t, objective, s);
    assert Score(t, objective, s[0]) <= Score(t, objective, s[i - 1]) || i - 1 == 0;
    assert Score(t, objective, s[i + 1]) <= Score(t, objective, s[|s| - 1]) || i + 1 == |s| - 1;
    assert Score(t, objective, s[i - 1]) <= Score(t, objective, s[i + 1]);
    if b != 0.0 { Fraction(a, b); }
  }

  /**
   * A candidate at an end of some objective's ordering scores at least LARGE, any other at most the
   * number of objectives, whatever the order in which overwriting and accumulating alternate.
   */
  lemma {:induction false} CrowdingBands(t: Table, front: seq<string>, objectives: seq<string>, k: nat, x: string)
    requires Distinct(front) && |front| > 2 && k <= |objectives| && x in front
    ensures var d := Crowding(t, front, objectives, k, x);
      if EndSomewhere(t, front, objectives, k, x) then LARGE <= d <= LARGE + k as real else 0.0 <= d <= k as real
  {
    hide Ordered, Gap;
    if k > 0 {
      var s := Ordered(t, front, objectives[k - 1]);
      OrderedFacts(t, front, objectives[k - 1]);
      var i := IndexOf(s, x);
      CrowdingStep(t, front, objectives, k - 1, s, i);
      CrowdingBands(t, front, objectives, k - 1, x);
      if i == 0 || i == |s| - 1 {
        assert AtEnd(t, front, objectives[k - 1], x);
      } else {
        GapIsFraction(t, objectives[k - 1], s, i);
        assert !AtEnd(t, front, objectives[k - 1], x);
        assert EndSomewhere(t, front, objectives, k, x) <==> EndSomewhere(t, front, objectives, k - 1, x);
      }
    }
  }

  function GapSum(t: Table, objective: string, s: seq<string>, j: nat): real
    requires j < |s| - 1
  {
    if j == 0 then 0.0 else GapSum(t, objective, s, j - 1) + Gap(t, objective, s, j)
  }

  /** Within one objective the interior gaps telescope, so together they are worth at most two. */
  lemma {:induction false} GapsTelescope(t: Table, objective: string, s: seq<string>, j: nat)
    requires 0 < j < |s| - 1 && Spread(t, objective, s) > 0.0
    ensures GapSum(t, objective, s, j)
         == (Score(t, objective, s[j + 1]) + Score(t, objective, s[j])
             - Score(t, objective, s[1]) - Score(t, objective, s[0]))
            / Spread(t, objective, s)
  {
    if j > 1 {
      GapsTelescope(t, objective, s, j - 1);
      AddFractions(Score(t, objective, s[j]) + Score(t, objective, s[j - 1])
                   - Score(t, objective, s[1]) - Score(t, objective, s[0]),
                   Score(t, objective, s[j + 1]) - Score(t, objective, s[j - 1]), Spread(t, objective, s));
    } else {
      assert GapSum(t, objective, s, 0) == 0.0;
    }
  }

  lemma AddFractions(a: real, b: real, c: real)
    requires c > 0.0
    ensures a / c + b / c == (a + b) / c
  {}

  lemma GapsAtMostTwo(t: Table, front: seq<string>, objective: string)
    requires Distinct(front) && |front| > 2
    ensures var s := Ordered(t, front, objective);
      |s| > 2 && (Spread(t, objective, s) > 0.0 ==> GapSum(t, objective, s, |s| - 2) <= 2.0)
  {
    var s := Ordered(t, front, objective);
    OrderedFacts(t, front, objective);
    if Spread(t, objective, s) > 0.0 {
      var spread, n := Spread(t, objective, s), |s|;
      GapsTelescope(t, objective, s, n - 2);
      var low := Score(t, objective, s[0]);
      assert low <= Score(t, objective, s[1]);
      assert Score(t, objective, s[n - 2]) <= Score(t, objective, s[n - 1]);
      AtMostTwice(Score(t, objective, s[n - 1]) + Score(t, objective, s[n - 2])
                  - Score(t, objective, s[1]) - low, spread);
    }
  }

  lemma AtMostTwice(a: real, b: real)
    requires b > 0.0 && a <= 2.0 * b
    ensures a / b <= 2.0
  {
    Scale(a / b, 2.0, b);
  }
}
