/**
 * Policy-block crossover and its genome-guided variant: which parent each child's architectural blocks
 * come from. A block whose value is JSON null counts as absent, as it does in the program.
 */
module BlockCrossover {
  import opened Order
  import opened Json
  import opened CrossoverRecords

  const ARCHITECTURAL_BLOCKS: set<string> := {
    "architecture", "persistence", "infrastructure", "security", "messaging", "observability", "ai", "testing",
    "deployment", "frontend", "backend", "governance", "documentation", "performance", "reliability"}

  const OBJECTIVES: map<string, string> := map[
    "reliability" := "reliability", "security" := "security_posture", "performance" := "performance_efficiency",
    "observability" := "operational_stability", "infrastructure" := "cost_efficiency",
    "frontend" := "user_satisfaction", "testing" := "testability", "deployment" := "deployment_readiness",
    "documentation" := "documentation_quality", "governance" := "governance_readiness"]

  /** One parent's measured objectives, in dictionary order. */
  type Measures = seq<(string, real)>

  /** Both parents; `blocks` are the keys that name architectural blocks. */
  datatype Pair = Pair(a: Fields, b: Fields, idA: string, idB: string, measures: map<string, Measures>,
                       blocks: set<string>)

  // ---------------------------------------------------------------- the better parent

  function EndsWith(s: string, suffix: string): bool {
    |suffix| <= |s| && s[|s| - |suffix|..] == suffix
  }

  function Exact(ms: Measures, key: string): Option<real> {
    if ms == [] then None else if ms[0].0 == key then Some(ms[0].1) else Exact(ms[1..], key)
  }

  function Suffixed(ms: Measures, name: string): Option<real> {
    if ms == [] then None else if EndsWith(ms[0].0, name) then Some(ms[0].1) else Suffixed(ms[1..], name)
  }

  function ObjectiveValue(ms: Measures, name: string): Option<real> {
    FirstOf(ms, name, "feedback_" + name, "compiler_" + name)
  }

  /** How well `key` names the objective; four means not at all. */
  ghost function Closeness(key: string, name: string): nat {
    if key == name then 0
    else if key == "feedback_" + name then 1
    else if key == "compiler_" + name then 2
    else if exists before :: key == before + name then 3
    else 4
  }

  /** Entry `i` names the objective best, and is the first of those that name it as well. */
  ghost predicate Names(ms: Measures, name: string, i: int) {
    && 0 <= i < |ms| && Closeness(ms[i].0, name) < 4
    && (forall j :: 0 <= j < |ms| ==> Closeness(ms[i].0, name) <= Closeness(ms[j].0, name))
    && (forall j :: 0 <= j < i ==> Closeness(ms[i].0, name) < Closeness(ms[j].0, name))
  }

  lemma EndsWithIs(key: string, name: string)
    ensures EndsWith(key, name) <==> exists before :: key == before + name
  {
    if EndsWith(key, name) { assert key == key[..|key| - |name|] + name; }
  }

  lemma {:induction false} ExactIs(ms: Measures, key: string)
    ensures Exact(ms, key).None? <==> forall i :: 0 <= i < |ms| ==> ms[i].0 != key
    ensures Exact(ms, key).Some? ==> exists i :: 0 <= i < |ms| && ms[i].0 == key && Exact(ms, key) == Some(ms[i].1)
                                                && forall j :: 0 <= j < i ==> ms[j].0 != key
  {
    if ms != [] && ms[0].0 != key {
      ExactIs(ms[1..], key);
      if Exact(ms, key).Some? {
        var i :| 0 <= i < |ms| - 1 && ms[1..][i].0 == key && Exact(ms, key) == Some(ms[1..][i].1)
          && forall j :: 0 <= j < i ==> ms[1..][j].0 != key;
        assert ms[i + 1] == ms[1..][i];
        forall j | 0 <= j < i + 1 ensures ms[j].0 != key {
          if j > 0 { assert ms[j] == ms[1..][j - 1]; }
        }
      } else {
        forall i | 0 <= i < |ms| ensures ms[i].0 != key {
          if i > 0 { assert ms[i] == ms[1..][i - 1]; }
        }
      }
    }
  }

  lemma {:induction false} SuffixedIs(ms: Measures, name: string)
    ensures Suffixed(ms, name).None? <==> forall i :: 0 <= i < |ms| ==> !EndsWith(ms[i].0, name)
    ensures Suffixed(ms, name).Some? ==>
      exists i :: 0 <= i < |ms| && EndsWith(ms[i].0, name) && Suffixed(ms, name) == Some(ms[i].1)
                  && forall j :: 0 <= j < i ==> !EndsWith(ms[j].0, name)
  {
    hide EndsWith;
    if ms != [] && !EndsWith(ms[0].0, name) {
      SuffixedIs(ms[1..], name);
      if Suffixed(ms, name).Some? {
        var i :| 0 <= i < |ms| - 1 && EndsWith(ms[1..][i].0, name) && Suffixed(ms, name) == Some(ms[1..][i].1)
          && forall j :: 0 <= j < i ==> !EndsWith(ms[1..][j].0, name);
        assert ms[i + 1] == ms[1..][i];
        forall j | 0 <= j < i + 1 ensures !EndsWith(ms[j].0, name) {
          if j > 0 { assert ms[j] == ms[1..][j - 1]; }
        }
      } else {
        forall i | 0 <= i < |ms| ensures !EndsWith(ms[i].0, name) {
          if i > 0 { assert ms[i] == ms[1..][i - 1]; }
        }
      }
    }
  }

  /** The four degrees of closeness, by the tests that `ObjectiveValue` makes on the three direct keys. */
  ghost predicate Close(key: string, name: string, feedback: string, compiler: string) {
    && (Closeness(key, name) == 0 <==> key == name)
    && (Closeness(key, name) == 1 <==> key != name && key == feedback)
    && (Closeness(key, name) == 2 <==> key != name && key != feedback && key == compiler)
    && (Closeness(key, name) == 3 <==> key != name && key != feedback && key != compiler && EndsWith(key, name))
    && Closeness(key, name) <= 4
  }

  lemma ClosenessIs(key: string, name: string)
    ensures Close(key, name, "feedback_" + name, "compiler_" + name)
  {
    EndsWithIs(key, name);
    hide EndsWith;
  }

  /** The first answer among the direct keys and the endings. */
  function FirstOf(ms: Measures, name: string, feedback: string, compiler: string): Option<real> {
    if Exact(ms, name).Some? then Exact(ms, name)
    else if Exact(ms, feedback).Some? then Exact(ms, feedback)
    else if Exact(ms, compiler).Some? then Exact(ms, compiler)
    else Suffixed(ms, name)
  }

  lemma FirstOfIsNamedBest(ms: Measures, name: string, feedback: string, compiler: string)
    requires forall k :: 0 <= k < |ms| ==> Close(ms[k].0, name, feedback, compiler)
    ensures FirstOf(ms, name, feedback, compiler).None? <==> forall i :: !Names(ms, name, i)
    ensures FirstOf(ms, name, feedback, compiler).Some? ==>
      exists i :: Names(ms, name, i) && FirstOf(ms, name, feedback, compiler).value == ms[i].1
  {
    ExactIs(ms, name);
    ExactIs(ms, feedback);
    ExactIs(ms, compiler);
    SuffixedIs(ms, name);
    hide EndsWith, Closeness, Exact, Suffixed;
    if FirstOf(ms, name, feedback, compiler).None? {
      forall i ensures !Names(ms, name, i) {}
    } else if Exact(ms, name).Some? {
      var i :| 0 <= i < |ms| && ms[i].0 == name && Exact(ms, name) == Some(ms[i].1)
        && forall j :: 0 <= j < i ==> ms[j].0 != name;
      assert Names(ms, name, i);
    } else if Exact(ms, feedback).Some? {
      var i :| 0 <= i < |ms| && ms[i].0 == feedback && Exact(ms, feedback) == Some(ms[i].1)
        && forall j :: 0 <= j < i ==> ms[j].0 != feedback;
      assert Names(ms, name, i);
    } else if Exact(ms, compiler).Some? {
      var i :| 0 <= i < |ms| && ms[i].0 == compiler && Exact(ms, compiler) == Some(ms[i].1)
        && forall j :: 0 <= j < i ==> ms[j].0 != compiler;
      assert Names(ms, name, i);
    } else {
      var i :| 0 <= i < |ms| && EndsWith(ms[i].0, name) && Suffixed(ms, name) == Some(ms[i].1)
        && forall j :: 0 <= j < i ==> !EndsWith(ms[j].0, name);
      assert Names(ms, name, i);
    }
  }

  /** An objective's value is that of the entry that names it best, the first among equals. */
  lemma ObjectiveIsNamedBest(ms: Measures, name: string)
    ensures ObjectiveValue(ms, name).None? <==> forall i :: !Names(ms, name, i)
    ensures ObjectiveValue(ms, name).Some? ==>
      exists i :: Names(ms, name, i) && ObjectiveValue(ms, name).value == ms[i].1
  {
    forall k | 0 <= k < |ms| ensures Close(ms[k].0, name, "feedback_" + name, "compiler_" + name) {
      ClosenessIs(ms[k].0, name);
    }
    FirstOfIsNamedBest(ms, name, "feedback_" + name, "compiler_" + name);
    hide Names, Exact, Suffixed, Close;
  }

  function Measured(p: Pair, id: string, block: string): Option<real> {
    var objective := if block in OBJECTIVES then OBJECTIVES[block] else block;
    ObjectiveValue(if id in p.measures then p.measures[id] else [], objective)
  }

  /** The id of the parent that measures better on the block's objective. */
  function BetterParent(p: Pair, block: string, fallback: string): string {
    var x, y := Measured(p, p.idA, block), Measured(p, p.idB, block);
    if x.None? && y.None? then fallback
    else if x.None? then p.idB
    else if y.None? then p.idA
    else if x.value == y.value then fallback
    else if x.value > y.value then p.idA else p.idB
  }

  /** The first child's source for the block in position `index`; the second child takes the other parent. */
  function FirstChoice(p: Pair, block: string, index: nat): string {
    if block in p.a && block in p.b then BetterParent(p, block, if index % 2 == 0 then p.idA else p.idB)
    else if block in p.a then p.idA else p.idB
  }

  function SecondChoice(p: Pair, block: string, index: nat): string {
    if block in p.a && block in p.b then (if FirstChoice(p, block, index) == p.idA then p.idB else p.idA)
    else FirstChoice(p, block, index)
  }

  // ---------------------------------------------------------------- children

  function Value(fields: Fields, block: string): Option<Json> {
    if block in fields && fields[block] != Null then Some(fields[block]) else None
  }

  function From(p: Pair, id: string): Fields { if id == p.idA then p.a else p.b }

  /** The child that takes each chosen block from its source and everything else from the base parent. */
  ghost predicate IsChild(p: Pair, base: Fields, choices: map<string, string>, record: Json, child: Fields) {
    && (forall k :: k !in p.blocks && k != "evolution" ==>
        (k in child <==> k in base) && (k in child ==> child[k] == base[k]))
    && (forall k :: k in p.blocks ==>
        Value(child, k) == (if k in choices then Value(From(p, choices[k]), k) else None)
        && (k in child ==> child[k] != Null))
    && Recorded(base, record).Some? && "evolution" in child
      && child["evolution"] == Recorded(base, record).value["evolution"]
  }

  method BuildOffspring(p: Pair, keepBase: bool, blocks: seq<string>, choices: map<string, string>, record: Json)
    returns (child: Option<Fields>)
    requires "evolution" !in p.blocks
    requires Distinct(blocks) && forall k :: (k in choices <==> k in blocks) && (k in choices ==> k in p.blocks)
    ensures var base := if keepBase then p.a else p.b;
      match child
      case None => Recorded(base, record).None?
      case Some(c) => IsChild(p, base, choices, record, c)
  {
    hide Recorded;
    var base := if keepBase then p.a else p.b;
    var fields := CopyBlocks(p, base - p.blocks, blocks, choices);
    child := Recorded(fields, record);
    RecordedAgrees(fields, base, record);
    if child.Some? {
      forall k | k in p.blocks ensures
        && Value(child.value, k) == (if k in choices then Value(From(p, choices[k]), k) else None)
        && (k in child.value ==> child.value[k] != Null)
      {
        assert k != "evolution";
        assert Value(child.value, k) == Value(fields, k);
        hide From;
      }
      assert forall k :: k !in p.blocks ==> k !in blocks;
    }
  }

  method CopyBlocks(p: Pair, stripped: Fields, blocks: seq<string>, choices: map<string,
                    string>) returns (fields: Fields)
    requires Distinct(blocks) && forall k :: k in choices <==> k in blocks
    requires forall k :: k in blocks ==> k !in stripped
    ensures forall k :: k !in blocks ==> (k in fields <==> k in stripped) && (k in fields ==> fields[k] == stripped[k])
    ensures forall k :: k in blocks ==>
      Value(fields, k) == Value(From(p, choices[k]), k) && (k in fields ==> fields[k] != Null)
  {
    fields := stripped;
    for i := 0 to |blocks|
      invariant forall k :: k !in blocks[..i] ==>
        (k in fields <==> k in stripped) && (k in fields ==> fields[k] == stripped[k])
      invariant forall k :: k in blocks[..i] ==>
        Value(fields, k) == Value(From(p, choices[k]), k) && (k in fields ==> fields[k] != Null)
    {
      var block := blocks[i];
      assert blocks[..i + 1] == blocks[..i] + [block];
      var source := if choices[block] == p.idA then p.a else p.b;
      if block in source && source[block] != Null {
        fields := fields[block := source[block]];
      }
    }
    assert blocks[..|blocks|] == blocks;
  }

  /** The blocks that are recombined: those of either parent, or only the active ones when there are any. */
  method SelectBlocks(p: Pair, active: set<string>) returns (blocks: seq<string>)
    ensures SortedBy(blocks, StrLe) && Distinct(blocks) && Recombines(p, active, blocks)
  {
    var present := set k | k in p.blocks && (k in p.a || k in p.b);
    var chosen := if active == {} then present else set k | k in present && k in active;
    blocks := SortedIds(chosen);
    assert forall k :: k in blocks <==> k in Members(blocks);
  }

  predicate Recombined(p: Pair, active: set<string>, k: string) {
    k in p.blocks && (k in p.a || k in p.b) && (active == {} || k in active)
  }

  ghost predicate Recombines(p: Pair, active: set<string>, blocks: seq<string>) {
    forall k :: k in blocks <==> Recombined(p, active, k)
  }

  /** The recombined blocks' positions in `blocks` decide ties. */
  ghost predicate Chosen(p: Pair, blocks: seq<string>, one: map<string, string>, two: map<string, string>) {
    && (forall k :: (k in one <==> k in blocks) && (k in two <==> k in blocks))
    && forall i :: 0 <= i < |blocks| ==>
      blocks[i] in one && one[blocks[i]] == FirstChoice(p, blocks[i], i)
      && blocks[i] in two && two[blocks[i]] == SecondChoice(p, blocks[i], i)
  }

  lemma ChosenNext(p: Pair, blocks: seq<string>, i: nat, one: map<string, string>, two: map<string, string>)
    requires Distinct(blocks) && i < |blocks| && Chosen(p, blocks[..i], one, two)
    ensures Chosen(p, blocks[..i + 1],
                   one[blocks[i] := FirstChoice(p, blocks[i], i)], two[blocks[i] := SecondChoice(p, blocks[i], i)])
  {
    hide FirstChoice, SecondChoice;
    assert blocks[..i + 1] == blocks[..i] + [blocks[i]];
    assert blocks[i] !in blocks[..i];
  }

  method Choose(p: Pair, blocks: seq<string>) returns (one: map<string, string>, two: map<string, string>)
    requires Distinct(blocks)
    ensures Chosen(p, blocks, one, two)
  {
    hide BetterParent;
    one, two := map[], map[];
    for i := 0 to |blocks|
      invariant Chosen(p, blocks[..i], one, two)
    {
      var block := blocks[i];
      var hasA, hasB := block in p.a, block in p.b;
      var first, second;
      if hasA && hasB {
        first := BetterParent(p, block, if i % 2 == 0 then p.idA else p.idB);
        second := if first == p.idA then p.idB else p.idA;
      } else if hasA {
        first, second := p.idA, p.idA;
      } else {
        first, second := p.idB, p.idB;
      }
      assert first == FirstChoice(p, block, i) && second == SecondChoice(p, block, i);
      ChosenNext(p, blocks, i, one, two);
      one, two := one[block := first], two[block := second];
    }
    assert blocks[..|blocks|] == blocks;
  }

  /** Both children, or None where recording the crossover raises. */
  method Recombine(p: Pair, keepBase: bool, active: set<string>, recordOne: Json, recordTwo: Json)
    returns (children: Option<(Fields, Fields)>)
    requires p.blocks == ARCHITECTURAL_BLOCKS
    ensures var base := if keepBase then p.a else p.b;
      match children
      case None => Recorded(base, recordOne).None? || Recorded(base, recordTwo).None?
      case Some(c) => Children(p, base, active, recordOne, recordTwo, c.0, c.1)
  {
    var blocks := SelectBlocks(p, active);
    var one, two := Choose(p, blocks);
    var first := BuildOffspring(p, keepBase, blocks, one, recordOne);
    var second := BuildOffspring(p, keepBase, blocks, two, recordTwo);
    if first.None? || second.None? { return None; }
    assert Sourced(p, if keepBase then p.a else p.b, blocks, one, two, recordOne, recordTwo, first.value, second.value);
    children := Some((first.value, second.value));
  }

  ghost predicate Sourced(p: Pair, base: Fields, order: seq<string>, x: map<string, string>, y: map<string, string>,
                          recordOne: Json, recordTwo: Json, one: Fields, two: Fields)
  {
    Chosen(p, order, x, y) && IsChild(p, base, x, recordOne, one) && IsChild(p, base, y, recordTwo, two)
  }

  /** The two children of `p`, the recombined blocks taken in their sorted order. */
  ghost predicate Children(p: Pair, base: Fields, active: set<string>, recordOne: Json, recordTwo: Json, one: Fields,
                           two: Fields) {
    exists order, x, y :: SortedBy(order, StrLe) && Distinct(order) && Recombines(p, active, order)
      && Sourced(p, base, order, x, y, recordOne, recordTwo, one, two)
  }

  // ---------------------------------------------------------------- what the children hold

  /** The two children hold what the two parents hold: each version of a shared block survives in one of them. */
  predicate Swapped(p: Pair, block: string, one: Fields, two: Fields) {
    || (Value(one, block) == Value(p.a, block) && Value(two, block) == Value(p.b, block))
    || (Value(one, block) == Value(p.b, block) && Value(two, block) == Value(p.a, block))
  }

  lemma BlockSources(p: Pair, base: Fields, active: set<string>, r1: Json, r2: Json, one: Fields, two: Fields,
                     k: string)
    returns (i: nat)
    requires Children(p, base, active, r1, r2, one, two) && Recombined(p, active, k)
    ensures Value(one, k) == Value(From(p, FirstChoice(p, k, i)), k)
    ensures Value(two, k) == Value(From(p, SecondChoice(p, k, i)), k)
  {
    hide FirstChoice, SecondChoice, Value, From, Recorded;
    assert k in p.blocks;
    var order, x, y :| Recombines(p, active, order) && Sourced(p, base, order, x, y, r1, r2, one, two);
    assert Recombines(p, active, order) && k in order;
    i :| 0 <= i < |order| && order[i] == k;
    assert Sourced(p, base, order, x, y, r1, r2, one, two);
    assert order[i] in x && order[i] in y;
  }

  predicate Shared(p: Pair, active: set<string>, k: string) { Recombined(p, active, k) && k in p.a && k in p.b }

  /**
   * For blocks both parents have, the children split the two versions between them exactly when the
   * parents' ids differ or the versions are the same: with equal ids both children copy the first parent.
   */
  lemma SharedBlocksSplit(p: Pair, base: Fields, active: set<string>, r1: Json, r2: Json, one: Fields, two: Fields)
    requires Children(p, base, active, r1, r2, one, two)
    ensures (forall k :: Shared(p, active, k) ==> Swapped(p, k, one, two))
      <==> (p.idA != p.idB || forall k :: Shared(p, active, k) ==> Value(p.a, k) == Value(p.b, k))
  {
    hide Recombined, Children;
    forall k | Shared(p, active, k)
      ensures Swapped(p, k, one, two) <==> p.idA != p.idB || Value(p.a, k) == Value(p.b, k)
    {
      var i := BlockSources(p, base, active, r1, r2, one, two, k);
    }
  }

  /**
   * A block only one parent has goes to both children, except that with equal ids a block of the second
   * parent alone is lost.
   */
  lemma LoneBlocksKept(p: Pair, base: Fields, active: set<string>, r1: Json, r2: Json, one: Fields, two: Fields,
                       k: string)
    requires Children(p, base, active, r1, r2, one, two)
    requires Recombined(p, active, k) && (k in p.a) != (k in p.b)
    ensures var source := if k in p.a then p.a else p.b;
      (Value(one, k) == Value(source, k) && Value(two, k) == Value(source, k))
      <==> (k in p.a || p.idA != p.idB || Value(p.b, k).None?)
  {
    hide Recombined, Children;
    var i := BlockSources(p, base, active, r1, r2, one, two, k);
  }

  /** The first child has the better measured version of every shared block, the second the other one. */
  lemma FirstChildTakesTheBetter(p: Pair, base: Fields, active: set<string>, r1: Json, r2: Json, one: Fields,
                                 two: Fields, k: string)
    requires Children(p, base, active, r1, r2, one, two) && p.idA != p.idB && Shared(p, active, k)
    requires var x, y := Measured(p, p.idA, k), Measured(p, p.idB, k); x.Some? && y.Some? && x.value != y.value
    ensures if Measured(p, p.idA, k).value > Measured(p, p.idB, k).value
      then Value(one, k) == Value(p.a, k) && Value(two, k) == Value(p.b, k)
      else Value(one, k) == Value(p.b, k) && Value(two, k) == Value(p.a, k)
  {
    hide Recombined, Children, Measured;
    var i := BlockSources(p, base, active, r1, r2, one, two, k);
  }

  /**
   * A block that is not recombined is dropped, not inherited: the children agree with the base parent on
   * all such blocks exactly when the base parent holds none of them.
   */
  lemma InactiveBlocksDropped(p: Pair, base: Fields, active: set<string>, r1: Json, r2: Json, one: Fields, two: Fields)
    requires Children(p, base, active, r1, r2, one, two)
    ensures forall k :: k in p.blocks && !Recombined(p, active, k) ==> k !in one && k !in two
    ensures (forall k :: k in p.blocks && !Recombined(p, active, k) ==> Value(one, k) == Value(base, k))
      <==> (forall k :: k in p.blocks && !Recombined(p, active, k) ==> Value(base, k).None?)
  {
    var order, x, y :| Recombines(p, active, order) && Sourced(p, base, order, x, y, r1, r2, one, two);
    assert Recombines(p, active, order);
    forall k | k in p.blocks && !Recombined(p, active, k) ensures k !in one && k !in two {
      assert k !in order;
    }
  }

  /** With equal ids every recombined block of both children is the first parent's. */
  lemma EqualIdsCopyFirst(p: Pair, base: Fields, active: set<string>, r1: Json, r2: Json, one: Fields, two: Fields,
                          k: string)
    requires Children(p, base, active, r1, r2, one, two) && Recombined(p, active, k) && p.idA == p.idB
    ensures Value(one, k) == Value(p.a, k) && Value(two, k) == Value(p.a, k)
  {
    hide Recombined, Children;
    var i := BlockSources(p, base, active, r1, r2, one, two, k);
  }

  /**
   * What becomes of one block, told on the parents alone: a block that is not active, or that neither parent has, is
   * in no child; with different ids a shared one is split between the children and a lone one goes to both; with
   * equal ids both have what the first parent has.
   */
  lemma BlockFate(p: Pair, base: Fields, active: set<string>, r1: Json, r2: Json, one: Fields, two: Fields, k: string)
    requires Children(p, base, active, r1, r2, one, two) && k in p.blocks
    ensures
      if active != {} && k !in active then k !in one && k !in two
      else if k !in p.a && k !in p.b then k !in one && k !in two
      else if p.idA == p.idB then Value(one, k) == Value(two, k) == Value(p.a, k)
      else if k in p.a && k in p.b then Swapped(p, k, one, two)
      else Value(one, k) == Value(two, k) == Value(if k in p.a then p.a else p.b, k)
  {
    if Recombined(p, active, k) {
      hide Children, IsChild;
      var i := BlockSources(p, base, active, r1, r2, one, two, k);
    } else {
      InactiveBlocksDropped(p, base, active, r1, r2, one, two);
    }
  }

  /** Everything but the blocks is as in the base parent, with the record of the crossover added. */
  lemma RestInherited(p: Pair, base: Fields, active: set<string>, r1: Json, r2: Json, one: Fields, two: Fields)
    requires Children(p, base, active, r1, r2, one, two) && "evolution" !in p.blocks
    ensures forall k :: k !in p.blocks && k != "evolution" ==>
      && (k in one <==> k in base) && (k in two <==> k in base)
      && (k in base ==> one[k] == base[k] && two[k] == base[k])
    ensures Notes(base, one, r1) && Notes(base, two, r2)
  {
    hide Recorded, Value, Chosen;
    var order, x, y :| Recombines(p, active, order) && Sourced(p, base, order, x, y, r1, r2, one, two);
    assert Sourced(p, base, order, x, y, r1, r2, one, two);
    RecordedNotes(base, r1);
    RecordedNotes(base, r2);
  }

  /** The recombined blocks that come before `k`. */
  ghost function Earlier(p: Pair, active: set<string>, k: string): set<string> {
    set j | j in p.blocks && Recombined(p, active, j) && StrLe(j, k) && j != k
  }

  lemma TurnOf(p: Pair, base: Fields, active: set<string>, r1: Json, r2: Json, one: Fields, two: Fields, k: string)
    requires Children(p, base, active, r1, r2, one, two) && Recombined(p, active, k)
    ensures var i := |Earlier(p, active, k)|;
      && Value(one, k) == Value(From(p, FirstChoice(p, k, i)), k)
      && Value(two, k) == Value(From(p, SecondChoice(p, k, i)), k)
  {
    hide FirstChoice, SecondChoice, Value, From, Recorded, IsChild, Chosen, SortedBy, Distinct;
    assert k in p.blocks;
    var order, x, y :| SortedBy(order, StrLe) && Distinct(order) && Recombines(p, active, order)
      && Sourced(p, base, order, x, y, r1, r2, one, two);
    assert Recombines(p, active, order) && k in order;
    var i :| 0 <= i < |order| && order[i] == k;
    SourcedAt(p, base, order, x, y, r1, r2, one, two, i);
    hide Sourced;
    CountBefore(order, i);
    forall j ensures j in Earlier(p, active, k) <==> j in Before(order, k) {
      assert Recombined(p, active, j) ==> j in p.blocks;
    }
    hide Earlier, Before;
    assert Earlier(p, active, k) == Before(order, k);
  }

  /** Where the two parents measure alike on a shared block, or not at all, they take turns, block by block in order. */
  lemma TiesAlternate(p: Pair, base: Fields, active: set<string>, r1: Json, r2: Json, one: Fields, two: Fields,
                      k: string)
    requires Children(p, base, active, r1, r2, one, two) && p.idA != p.idB && Shared(p, active, k)
    requires Measured(p, p.idA, k) == Measured(p, p.idB, k)
    ensures if |Earlier(p, active, k)| % 2 == 0
      then Value(one, k) == Value(p.a, k) && Value(two, k) == Value(p.b, k)
      else Value(one, k) == Value(p.b, k) && Value(two, k) == Value(p.a, k)
  {
    hide Recombined, Children, Measured, Earlier;
    TurnOf(p, base, active, r1, r2, one, two, k);
  }

  lemma SourcedAt(p: Pair, base: Fields, order: seq<string>, x: map<string, string>, y: map<string, string>,
                  r1: Json, r2: Json, one: Fields, two: Fields, i: nat)
    requires Sourced(p, base, order, x, y, r1, r2, one, two) && i < |order| && order[i] in p.blocks
    ensures Value(one, order[i]) == Value(From(p, FirstChoice(p, order[i], i)), order[i])
    ensures Value(two, order[i]) == Value(From(p, SecondChoice(p, order[i], i)), order[i])
  {
    hide FirstChoice, SecondChoice, Value, From, Recorded;
    assert order[i] in x && order[i] in y;
  }

  ghost function Before(order: seq<string>, k: string): set<string> {
    set j | j in order && StrLe(j, k) && j != k
  }

  /** In a sorted list without repetition, as many elements come before one as its position says. */
  lemma CountBefore(order: seq<string>, i: nat)
    requires SortedBy(order, StrLe) && Distinct(order) && i < |order|
    ensures |Before(order, order[i])| == i
  {
    var front := order[..i];
    DistinctSize(front);
    forall j ensures j in Before(order, order[i]) <==> j in front {
      if j in Before(order, order[i]) {
        var n :| 0 <= n < |order| && order[n] == j;
        if n > i {
          assert StrLe(order[i], order[n]);
          StrLeAntisymmetric(order[i], order[n]);
        }
        assert front[n] == j;
      }
      if j in front {
        var n :| 0 <= n < i && front[n] == j;
        assert order[n] == j && StrLe(order[n], order[i]);
      }
    }
    hide Before, StrLe;
    assert Before(order, order[i]) == (set j | j in front);
  }

  /** A parent that is measured on a shared block counts as better than one that is not. */
  lemma MeasuredIsBetter(p: Pair, base: Fields, active: set<string>, r1: Json, r2: Json, one: Fields, two: Fields,
                         k: string)
    requires Children(p, base, active, r1, r2, one, two) && p.idA != p.idB && Shared(p, active, k)
    requires Measured(p, p.idA, k).Some? != Measured(p, p.idB, k).Some?
    ensures if Measured(p, p.idA, k).Some?
      then Value(one, k) == Value(p.a, k) && Value(two, k) == Value(p.b, k)
      else Value(one, k) == Value(p.b, k) && Value(two, k) == Value(p.a, k)
  {
    hide Recombined, Children, Measured;
    var i := BlockSources(p, base, active, r1, r2, one, two, k);
  }

  // ---------------------------------------------------------------- concrete parents

  function ChildRecord(p: Pair, operator: string, role: string): Json {
    CrossoverRecord(operator, Context([p.idA, p.idB], 1), role)
  }

  /** The children of two parents without crossover history. */
  method Cross(p: Pair, active: set<string>, operator: string) returns (one: Fields, two: Fields)
    requires p.blocks == ARCHITECTURAL_BLOCKS && "evolution" !in p.a
    ensures Children(p, p.a, active, ChildRecord(p, operator, "policy_block_child_one"),
                     ChildRecord(p, operator, "policy_block_child_two"), one, two)
  {
    var children := Recombine(p, true, active, ChildRecord(p, operator, "policy_block_child_one"),
                              ChildRecord(p, operator, "policy_block_child_two"));
    one, two := children.value.0, children.value.1;
  }

  /**
   * Two parents under one id: the second one's version of a block both have reaches neither child, and
   * neither does the block that it alone has.
   */
  method EqualIdsLoseBlocks() returns (p: Pair, one: Fields, two: Fields)
    ensures p.idA == p.idB && Children(p, p.a, {}, ChildRecord(p, "policy_block", "policy_block_child_one"),
                                       ChildRecord(p, "policy_block", "policy_block_child_two"), one, two)
    ensures Shared(p, {}, "security") && !Swapped(p, "security", one, two)
    ensures Recombined(p, {}, "testing") && "testing" !in p.a && Value(p.b, "testing").Some?
    ensures Value(one, "testing").None? && Value(two, "testing").None?
  {
    p := Pair(map["security" := Str("lax")], map["security" := Str("strict"), "testing" := Str("full")],
              "candidate", "candidate", map[], ARCHITECTURAL_BLOCKS);
    one, two := Cross(p, {}, "policy_block");
    hide Children;
    forall k | Recombined(p, {}, k) ensures Value(one, k) == Value(p.a, k) && Value(two, k) == Value(p.a, k) {
      EqualIdsCopyFirst(p, p.a, {}, ChildRecord(p, "policy_block", "policy_block_child_one"),
                        ChildRecord(p, "policy_block", "policy_block_child_two"), one, two, k);
    }
  }

  /** Only security is active: the base parent's testing block is missing from both children. */
  method InactiveBlockLost() returns (p: Pair, one: Fields, two: Fields)
    ensures p.idA != p.idB
    ensures Children(p, p.a, {"security"}, ChildRecord(p, "genome_guided", "policy_block_child_one"),
                     ChildRecord(p, "genome_guided", "policy_block_child_two"), one, two)
    ensures Value(p.a, "testing").Some? && "testing" !in one && "testing" !in two
  {
    p := Pair(map["security" := Str("lax"), "testing" := Str("full")], map["security" := Str("strict")],
              "first", "second", map[], ARCHITECTURAL_BLOCKS);
    one, two := Cross(p, {"security"}, "genome_guided");
    assert "testing" in p.blocks && !Recombined(p, {"security"}, "testing");
    InactiveBlocksDropped(p, p.a, {"security"}, ChildRecord(p, "genome_guided", "policy_block_child_one"),
                          ChildRecord(p, "genome_guided", "policy_block_child_two"), one, two);
  }
}
