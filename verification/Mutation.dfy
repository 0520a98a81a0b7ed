/**
 * The mutation engine. Trees are values here: an edit rebuilds the path it addresses, where the
 * program writes into its private deep copy.
 */
module Mutation {
  import opened Order
  import opened Json

  datatype Kind = SetValue | AddItem | RemoveItem | MergeObject
  datatype Operation = Operation(kind: Kind, path: string, value: Json)
  datatype Spec = Spec(id: Json, operator: string, family: string, gene: string, rationale: string,
                       operations: seq<Operation>)

  /** Ok carries the new tree; Err stands for the exceptions the program raises. */
  datatype Result<+T> = Ok(value: T) | Err

  // ---------------------------------------------------------------- edits

  /** The edit itself, at the parent that holds the last path segment. */
  function EditAt(intOf: IntOf, kind: Kind, parent: Json, key: string, value: Json): Result<Json> {
    match kind
    case SetValue => SetAt(intOf, parent, key, value)
    case RemoveItem => RemoveAt(intOf, parent, key)
    case MergeObject => MergeAt(parent, key, value)
    case AddItem =>
      var list := Child(intOf, parent, key);
      if list.Some? && list.value.Arr? then Ok(WithChild(intOf, parent, key, Arr(list.value.items + [value]))) else Err
  }

  /** A dictionary takes any key; a list takes an index in range, or one past the end to append. */
  function SetAt(intOf: IntOf, parent: Json, key: string, value: Json): Result<Json> {
    match parent
    case Obj(fields) => Ok(Obj(fields[key := value]))
    case Arr(items) =>
      var i := intOf(key);
      if i.None? then Err
      else if i.value == |items| then Ok(Arr(items + [value]))
      else if 0 <= i.value < |items| then Ok(Arr(items[i.value := value]))
      else Err
    case _ => Err
  }

  function RemoveAt(intOf: IntOf, parent: Json, key: string): Result<Json> {
    match parent
    case Obj(fields) => if key in fields then Ok(Obj(fields - {key})) else Err
    case Arr(items) =>
      var i := intOf(key);
      if i.None? || i.value < 0 || i.value >= |items| then Err
      else Ok(Arr(items[..i.value] + items[i.value + 1..]))
    case _ => Err
  }

  function MergeAt(parent: Json, key: string, value: Json): Result<Json> {
    match parent
    case Obj(fields) =>
      if key in fields && fields[key].Obj? && value.Obj?
      then Ok(Obj(fields[key := Obj(fields[key].fields + value.fields)]))
      else Ok(Obj(fields[key := value]))
    case _ => Err
  }

  function Edit(intOf: IntOf, kind: Kind, j: Json, path: seq<string>, value: Json): Result<Json>
    decreases |path|
  {
    if path == [] then (if kind.AddItem? && j.Arr? then Ok(Arr(j.items + [value])) else Err)
    else if |path| == 1 then EditAt(intOf, kind, j, path[0], value)
    else
      var child := Child(intOf, j, path[0]);
      if child.None? then Err
      else
        var inner := Edit(intOf, kind, child.value, path[1..], value);
        if inner.Err? then Err else Ok(WithChild(intOf, j, path[0], inner.value))
  }

  // ---------------------------------------------------------------- edits as the program makes them

  /** The tree with `inner` in the place that `path` leads to. */
  function Put(intOf: IntOf, j: Json, path: seq<string>, inner: Json): Json
    requires Lookup(intOf, j, path).Some?
    decreases |path|
  {
    if path == [] then inner
    else WithChild(intOf, j, path[0], Put(intOf, Child(intOf, j, path[0]).value, path[1..], inner))
  }

  /** An edit is one at the parent of its last segment. */
  lemma {:induction false} EditIsPut(intOf: IntOf, kind: Kind, j: Json, path: seq<string>, value: Json)
    requires path != []
    ensures var last := |path| - 1;
      var parent := Lookup(intOf, j, path[..last]);
      Edit(intOf, kind, j, path, value) ==
        if parent.None? || EditAt(intOf, kind, parent.value, path[last], value).Err? then Err
        else Ok(Put(intOf, j, path[..last], EditAt(intOf, kind, parent.value, path[last], value).value))
    decreases |path|
  {
    hide EditAt;
    if |path| > 1 {
      var child := Child(intOf, j, path[0]);
      assert path[..|path| - 1][1..] == path[1..][..|path| - 2];
      if child.Some? { EditIsPut(intOf, kind, child.value, path[1..], value); }
    }
  }

  /** Adding an item appends to the list its path leads to. */
  lemma {:induction false} AddIsPut(intOf: IntOf, j: Json, path: seq<string>, value: Json)
    ensures var list := Lookup(intOf, j, path);
      Edit(intOf, AddItem, j, path, value) ==
        if list.None? || !list.value.Arr? then Err else Ok(Put(intOf, j, path, Arr(list.value.items + [value])))
    decreases |path|
  {
    if path != [] {
      var child := Child(intOf, j, path[0]);
      if |path| == 1 {
        assert path[1..] == [];
      } else if child.Some? {
        AddIsPut(intOf, child.value, path[1..], value);
      }
    }
  }

  /** The loop that walks down the tree. */
  method Walk(intOf: IntOf, obj: Json, segments: seq<string>) returns (r: Result<Json>)
    ensures r == var at := Lookup(intOf, obj, segments); if at.None? then Err else Ok(at.value)
  {
    var current := obj;
    for k := 0 to |segments|
      invariant Lookup(intOf, obj, segments) == Lookup(intOf, current, segments[k..])
    {
      var segment := segments[k];
      assert segments[k..][1..] == segments[k + 1..];
      if current.Obj? {
        if segment !in current.fields { return Err; }
        current := current.fields[segment];
      } else if current.Arr? {
        var index := intOf(segment);
        if index.None? { return Err; }
        if index.value < 0 || index.value >= |current.items| { return Err; }
        current := current.items[index.value];
      } else {
        return Err;
      }
    }
    return Ok(current);
  }

  method GetContainer(intOf: IntOf, obj: Json, path: string) returns (r: Result<Json>)
    ensures r == var at := Lookup(intOf, obj, Split(path)); if at.None? then Err else Ok(at.value)
  {
    r := Walk(intOf, obj, Split(path));
  }

  method GetParentAndKey(intOf: IntOf, obj: Json, path: string) returns (r: Result<(Json, string)>)
    ensures var segments := Split(path);
      match r
      case Err => segments == [] || Lookup(intOf, obj, segments[..|segments| - 1]).None?
      case Ok((parent, key)) =>
        segments != [] && key == segments[|segments| - 1]
          && Lookup(intOf, obj, segments[..|segments| - 1]) == Some(parent)
  {
    var segments := Split(path);
    if segments == [] { return Err; }
    var parent := Walk(intOf, obj, segments[..|segments| - 1]);
    if parent.Err? { return Err; }
    return Ok((parent.value, segments[|segments| - 1]));
  }

  /** Performs one operation: finds the container or the parent, and changes it. */
  method Perform(intOf: IntOf, obj: Json, op: Operation) returns (r: Result<Json>)
    ensures r == Edit(intOf, op.kind, obj, Split(op.path), op.value)
  {
    hide EditAt, Edit, Split, Lookup;
    var segments := Split(op.path);
    if op.kind.AddItem? {
      AddIsPut(intOf, obj, segments, op.value);
      var container := GetContainer(intOf, obj, op.path);
      if container.Err? || !container.value.Arr? { return Err; }
      return Ok(Put(intOf, obj, segments, Arr(container.value.items + [op.value])));
    }
    var found := GetParentAndKey(intOf, obj, op.path);
    if segments == [] {
      EditNowhere(intOf, op.kind, obj, op.value);
      return Err;
    }
    EditIsPut(intOf, op.kind, obj, segments, op.value);
    if found.Err? { return Err; }
    var edited := EditAt(intOf, op.kind, found.value.0, found.value.1, op.value);
    if edited.Err? { return Err; }
    return Ok(Put(intOf, obj, segments[..|segments| - 1], edited.value));
  }

  lemma EditNowhere(intOf: IntOf, kind: Kind, j: Json, value: Json)
    requires !kind.AddItem?
    ensures Edit(intOf, kind, j, [], value) == Err
  {}

  // ---------------------------------------------------------------- what an edit leaves alone

  /** Two keys address the same slot of `j`. */
  predicate SameSlot(intOf: IntOf, j: Json, a: string, b: string) {
    match j
    case Obj(_) => a == b
    case Arr(_) => intOf(a).Some? && intOf(a) == intOf(b)
    case _ => false
  }

  /**
   * Reading `q` does not pass through what editing `p` changes: the two part ways before either
   * ends, and where the edit removes a list element `q` stays on its left.
   */
  predicate Untouched(intOf: IntOf, kind: Kind, j: Json, p: seq<string>, q: seq<string>)
    decreases |p|
  {
    && p != [] && q != []
    && if SameSlot(intOf, j, p[0], q[0])
       then |p| > 1 && Child(intOf, j, p[0]).Some?
         && Untouched(intOf, kind, Child(intOf, j, p[0]).value, p[1..], q[1..])
       else |p| == 1 && kind.RemoveItem? && j.Arr? && intOf(p[0]).Some? && intOf(q[0]).Some?
            ==> intOf(q[0]).value < intOf(p[0]).value
  }

  lemma EditAtElsewhere(intOf: IntOf, kind: Kind, j: Json, key: string, value: Json, other: string)
    requires EditAt(intOf, kind, j, key, value).Ok? && !SameSlot(intOf, j, key, other)
    requires kind.RemoveItem? && j.Arr? && intOf(key).Some? && intOf(other).Some? ==>
      intOf(other).value < intOf(key).value
    ensures Child(intOf, EditAt(intOf, kind, j, key, value).value, other) == Child(intOf, j, other)
  {}

  lemma WithChildElsewhere(intOf: IntOf, j: Json, key: string, child: Json, other: string)
    requires Child(intOf, j, key).Some?
    ensures Child(intOf, WithChild(intOf, j, key, child), other) ==
      if SameSlot(intOf, j, key, other) then Some(child) else Child(intOf, j, other)
  {}

  lemma SameSlotSameChild(intOf: IntOf, j: Json, a: string, b: string)
    requires SameSlot(intOf, j, a, b)
    ensures Child(intOf, j, a) == Child(intOf, j, b)
  {}

  /** An edit leaves every untouched path reading as before. */
  lemma {:induction false} EditFrame(intOf: IntOf, kind: Kind, j: Json, p: seq<string>, value: Json, q: seq<string>)
    requires Edit(intOf, kind, j, p, value).Ok? && Untouched(intOf, kind, j, p, q)
    ensures Lookup(intOf, Edit(intOf, kind, j, p, value).value, q) == Lookup(intOf, j, q)
    decreases |p|
  {
    hide EditAt;
    if |p| == 1 {
      EditAtElsewhere(intOf, kind, j, p[0], value, q[0]);
    } else {
      var child := Child(intOf, j, p[0]).value;
      var inner := Edit(intOf, kind, child, p[1..], value).value;
      WithChildElsewhere(intOf, j, p[0], inner, q[0]);
      if SameSlot(intOf, j, p[0], q[0]) {
        SameSlotSameChild(intOf, j, p[0], q[0]);
        EditFrame(intOf, kind, child, p[1..], value, q[1..]);
      }
    }
  }

  /** After setting a value, its path reads that value, whatever list or dictionary holds it. */
  lemma {:induction false} SetReadsBack(intOf: IntOf, j: Json, p: seq<string>, value: Json)
    requires Edit(intOf, SetValue, j, p, value).Ok?
    ensures Lookup(intOf, Edit(intOf, SetValue, j, p, value).value, p) == Some(value)
    decreases |p|
  {
    if |p| == 1 {
      assert Lookup(intOf, value, p[1..]) == Some(value);
    } else {
      var child := Child(intOf, j, p[0]).value;
      SetReadsBack(intOf, child, p[1..], value);
      WithChildElsewhere(intOf, j, p[0], Edit(intOf, SetValue, child, p[1..], value).value, p[0]);
    }
  }

  /** Keys that are different strings and do not denote the same index. */
  predicate KeysApart(intOf: IntOf, a: string, b: string) {
    a != b && (intOf(a).None? || intOf(a) != intOf(b))
  }

  /**
   * A check that needs no tree: `p` and `q` have different keys at a common position, and if the edit
   * removes its last key there, the removal cannot move what `q` reads: one of the two keys is no
   * index, or `q` stays on its left. Equal-valued indexes such as "1" and "01" count as the same key.
   */
  predicate Parts(intOf: IntOf, kind: Kind, p: seq<string>, q: seq<string>) {
    exists i :: 0 <= i < |p| && i < |q| && KeysApart(intOf, p[i], q[i]) && Harmless(intOf, kind, p, q, i)
  }

  predicate Harmless(intOf: IntOf, kind: Kind, p: seq<string>, q: seq<string>, i: nat)
    requires i < |p| && i < |q|
  {
    kind.RemoveItem? && i == |p| - 1 && intOf(p[i]).Some? && intOf(q[i]).Some? ==> intOf(q[i]).value < intOf(p[i]).value
  }

  lemma {:induction false} PartsAt(intOf: IntOf, kind: Kind, j: Json, p: seq<string>, value: Json, q: seq<string>,
                                   i: nat)
    requires Edit(intOf, kind, j, p, value).Ok? && i < |p| && i < |q|
    requires KeysApart(intOf, p[i], q[i]) && Harmless(intOf, kind, p, q, i)
    ensures Untouched(intOf, kind, j, p, q)
    decreases i
  {
    hide EditAt;
    if SameSlot(intOf, j, p[0], q[0]) {
      assert i > 0;
      assert p[1..][i - 1] == p[i] && q[1..][i - 1] == q[i];
      PartsAt(intOf, kind, Child(intOf, j, p[0]).value, p[1..], value, q[1..], i - 1);
    }
  }

  /** Paths that part are untouched by each other's edits, in whatever tree the edit succeeds. */
  lemma PartsIsUntouched(intOf: IntOf, kind: Kind, j: Json, p: seq<string>, value: Json, q: seq<string>)
    requires Edit(intOf, kind, j, p, value).Ok? && Parts(intOf, kind, p, q)
    ensures Untouched(intOf, kind, j, p, q)
  {
    var i :| 0 <= i < |p| && i < |q| && KeysApart(intOf, p[i], q[i]) && Harmless(intOf, kind, p, q, i);
    PartsAt(intOf, kind, j, p, value, q, i);
  }

  // ---------------------------------------------------------------- what an edit leaves at its path

  lemma {:induction false} PutReadsBack(intOf: IntOf, j: Json, path: seq<string>, inner: Json)
    requires Lookup(intOf, j, path).Some?
    ensures Lookup(intOf, Put(intOf, j, path, inner), path) == Some(inner)
    decreases |path|
  {
    if path != [] {
      var child := Child(intOf, j, path[0]).value;
      PutReadsBack(intOf, child, path[1..], inner);
      WithChildElsewhere(intOf, j, path[0], Put(intOf, child, path[1..], inner), path[0]);
    }
  }

  /** A successful edit at a path: what its parent was, and what it is now. */
  lemma EditedParent(intOf: IntOf, kind: Kind, j: Json, path: seq<string>, value: Json) returns (was: Json, now: Json)
    requires path != [] && Edit(intOf, kind, j, path, value).Ok?
    ensures var front, key, j' := path[..|path| - 1], path[|path| - 1], Edit(intOf, kind, j, path, value).value;
      && Lookup(intOf, j, front) == Some(was) && Lookup(intOf, j', front) == Some(now)
      && EditAt(intOf, kind, was, key, value) == Ok(now)
      && Lookup(intOf, j, path) == Child(intOf, was, key) && Lookup(intOf, j', path) == Child(intOf, now, key)
  {
    hide EditAt;
    var front, key := path[..|path| - 1], path[|path| - 1];
    assert path == front + [key];
    EditIsPut(intOf, kind, j, path, value);
    was := Lookup(intOf, j, front).value;
    now := EditAt(intOf, kind, was, key, value).value;
    PutReadsBack(intOf, j, front, now);
    LookupExtends(intOf, j, front, key);
    LookupExtends(intOf, Edit(intOf, kind, j, path, value).value, front, key);
  }

  /**
   * A removal takes exactly the addressed entry out of its parent: a dictionary loses the key, and the elements
   * of a list behind the removed one move up.
   */
  lemma RemoveTakesOut(intOf: IntOf, j: Json, path: seq<string>, value: Json)
    requires Edit(intOf, RemoveItem, j, path, value).Ok?
    ensures path != [] && Lookup(intOf, j, path).Some?
    ensures var front, key, j' := path[..|path| - 1], path[|path| - 1], Edit(intOf, RemoveItem, j, path, value).value;
      match Lookup(intOf, j, front)
      case Some(Obj(fields)) => Lookup(intOf, j', path).None? && Lookup(intOf, j', front) == Some(Obj(fields - {key}))
      case Some(Arr(items)) =>
        && intOf(key).Some? && 0 <= intOf(key).value < |items|
        && var after := Lookup(intOf, j', front);
           && after.Some? && after.value.Arr? && |after.value.items| == |items| - 1
           && forall i :: 0 <= i < |items| - 1 ==>
                after.value.items[i] == items[if i < intOf(key).value then i else i + 1]
      case _ => false
  {
    var was, now := EditedParent(intOf, RemoveItem, j, path, value);
  }

  /**
   * Merging two dictionaries keeps the keys of both, the new value winning; in every other case the path
   * reads the new value.
   */
  lemma MergeReadsBack(intOf: IntOf, j: Json, path: seq<string>, value: Json)
    requires Edit(intOf, MergeObject, j, path, value).Ok?
    ensures path != []
    ensures var j' := Edit(intOf, MergeObject, j, path, value).value;
      var held := Lookup(intOf, j, path);
      if held.Some? && held.value.Obj? && value.Obj?
      then
        && Lookup(intOf, j', path).Some? && Lookup(intOf, j', path).value.Obj?
        && forall k :: Lookup(intOf, j', path + [k]) ==
                         if k in value.fields then Some(value.fields[k]) else Lookup(intOf, j, path + [k])
      else Lookup(intOf, j', path) == Some(value)
  {
    var was, now := EditedParent(intOf, MergeObject, j, path, value);
    var j' := Edit(intOf, MergeObject, j, path, value).value;
    var held := Lookup(intOf, j, path);
    hide Edit, Lookup;
    forall k
      ensures Lookup(intOf, j, path + [k]) == if held.None? then None else Child(intOf, held.value, k)
      ensures var merged := Lookup(intOf, j', path);
        Lookup(intOf, j', path + [k]) == if merged.None? then None else Child(intOf, merged.value, k)
    {
      LookupExtends(intOf, j, path, k);
      LookupExtends(intOf, j', path, k);
    }
  }

  /** Adding an item appends it to the list that the path leads to. */
  lemma AddAppends(intOf: IntOf, j: Json, path: seq<string>, value: Json)
    requires Edit(intOf, AddItem, j, path, value).Ok?
    ensures match Lookup(intOf, j, path)
      case Some(Arr(items)) =>
        Lookup(intOf, Edit(intOf, AddItem, j, path, value).value, path) == Some(Arr(items + [value]))
      case _ => false
  {
    AddIsPut(intOf, j, path, value);
    PutReadsBack(intOf, j, path, Arr(Lookup(intOf, j, path).value.items + [value]));
  }

  /** An index of a list of `n` elements. */
  predicate IsIndex(intOf: IntOf, key: string, n: nat) { intOf(key).Some? && 0 <= intOf(key).value < n }

  /** Exactly when an operation raises, from what its path reads. */
  lemma EditRaisesIff(intOf: IntOf, kind: Kind, j: Json, path: seq<string>, value: Json)
    ensures Edit(intOf, kind, j, path, value).Err? <==>
      if kind.AddItem? then Lookup(intOf, j, path).None? || !Lookup(intOf, j, path).value.Arr?
      else
        path == [] ||
        match Lookup(intOf, j, path[..|path| - 1])
        case Some(Obj(fields)) => kind.RemoveItem? && path[|path| - 1] !in fields
        case Some(Arr(items)) =>
          kind.MergeObject? || !IsIndex(intOf, path[|path| - 1], |items| + if kind.SetValue? then 1 else 0)
        case _ => true
  {
    AddIsPut(intOf, j, path, value);
    if path != [] { EditIsPut(intOf, kind, j, path, value); }
  }

  // ---------------------------------------------------------------- applying a specification

  function Run(intOf: IntOf, j: Json, ops: seq<Operation>): Result<Json> {
    if ops == [] then Ok(j)
    else
      var before := Run(intOf, j, ops[..|ops| - 1]);
      if before.Err? then Err
      else Edit(intOf, ops[|ops| - 1].kind, before.value, Split(ops[|ops| - 1].path), ops[|ops| - 1].value)
  }

  /** No operation of the run touches `q`, each judged on the tree it is applied to. */
  ghost predicate AllUntouched(intOf: IntOf, j: Json, ops: seq<Operation>, q: seq<string>) {
    ops == [] ||
    (var front, op := ops[..|ops| - 1], ops[|ops| - 1];
     && AllUntouched(intOf, j, front, q)
     && (Run(intOf, j, front).Ok? ==> Untouched(intOf, op.kind, Run(intOf, j, front).value, Split(op.path), q)))
  }

  function Record(spec: Spec): Json {
    Obj(map["mutation_id" := spec.id, "operator" := Str(spec.operator), "chromosome_family" := Str(spec.family),
            "gene_id" := Str(spec.gene), "rationale" := Str(spec.rationale)])
  }

  const BASELINE_GOVERNANCE: Json :=
    Obj(map["design_id" := Str("baseline_governance_v1"), "voting_rule" := Str("simple_majority"),
            "quorum" := Num(1.0), "approval_stage_count" := Num(1.0), "policy_rule_count" := Num(3.0),
            "fail_closed_default" := Bool(true), "exception_max_severity" := Str("high"),
            "exception_review_required" := Bool(true), "audit_chaining_required" := Bool(true),
            "compliance_evaluation_required" := Bool(true), "versioning_strategy" := Str("semver_chain")])

  /** The mutation records of a tree; None where `evolution` or `mutations` has another shape. */
  function Provenance(j: Json): Option<seq<Json>> {
    if !j.Obj? then None
    else if "evolution" !in j.fields then Some([])
    else if !j.fields["evolution"].Obj? then None
    else if "mutations" !in j.fields["evolution"].fields then Some([])
    else if !j.fields["evolution"].fields["mutations"].Arr? then None
    else Some(j.fields["evolution"].fields["mutations"].items)
  }

  class MutationEngine {
    const intOf: IntOf

    constructor (intOf: IntOf)
      ensures this.intOf == intOf
    {
      this.intOf := intOf;
    }

    method Apply(base: map<string, Json>, spec: Spec) returns (r: Result<Json>)
      ensures r == Applied(intOf, Obj(base), spec)
    {
      hide Edit;
      var candidate := Obj(base);
      for k := 0 to |spec.operations|
        invariant Run(intOf, Obj(base), spec.operations[..k]) == Ok(candidate)
      {
        assert spec.operations[..k + 1][..k] == spec.operations[..k];
        var op := spec.operations[k];
        var next := Perform(intOf, candidate, op);
        if next.Err? {
          RunFails(intOf, Obj(base), spec.operations, k + 1);
          return Err;
        }
        candidate := next.value;
      }
      assert spec.operations[..|spec.operations|] == spec.operations;
      if !candidate.Obj? { return Err; }
      var fields := candidate.fields;
      if "evolution" !in fields { fields := fields["evolution" := Obj(map[])]; }
      assert fields == candidate.fields["evolution" := fields["evolution"]];
      if !fields["evolution"].Obj? { return Err; }
      var evolution := fields["evolution"].fields;
      if "mutations" !in evolution { evolution := evolution["mutations" := Arr([])]; }
      if !evolution["mutations"].Arr? { return Err; }
      evolution := evolution["mutations" := Arr(evolution["mutations"].items + [Record(spec)])];
      fields := fields["evolution" := Obj(evolution)];
      assert fields == candidate.fields["evolution" := Obj(evolution)];
      if "governance" !in fields { fields := fields["governance" := BASELINE_GOVERNANCE]; }
      SealAsBuilt(candidate.fields, evolution, Record(spec));
      return Ok(Obj(fields));
    }
  }

  /** Sealing step by step, with defaults filled in as they are missed, gives the sealed fields. */
  lemma SealAsBuilt(fields: map<string, Json>, evolution: map<string, Json>, record: Json)
    requires Provenance(Obj(fields)).Some?
    requires var before := if "evolution" in fields then fields["evolution"].fields else map[];
      evolution == before["mutations" := Arr(Provenance(Obj(fields)).value + [record])]
    ensures var sealed := fields["evolution" := Obj(evolution)];
      Seal(fields, Provenance(Obj(fields)).value, record)
        == if "governance" in sealed then sealed else sealed["governance" := BASELINE_GOVERNANCE]
  {}

  lemma {:induction false} RunFails(intOf: IntOf, j: Json, ops: seq<Operation>, k: nat)
    requires k <= |ops| && Run(intOf, j, ops[..k]).Err?
    ensures Run(intOf, j, ops).Err?
    decreases |ops|
  {
    if k < |ops| {
      assert ops[..|ops| - 1][..k] == ops[..k];
      RunFails(intOf, j, ops[..|ops| - 1], k);
    } else {
      assert ops[..k] == ops;
    }
  }

  /** Appends the mutation record and fills in the governance floor. */
  function Seal(fields: map<string, Json>, records: seq<Json>, record: Json): map<string, Json> {
    var evolution := if "evolution" in fields && fields["evolution"].Obj? then fields["evolution"].fields else map[];
    var sealed := fields["evolution" := Obj(evolution["mutations" := Arr(records + [record])])];
    if "governance" in sealed then sealed else sealed["governance" := BASELINE_GOVERNANCE]
  }

  function Applied(intOf: IntOf, base: Json, spec: Spec): Result<Json> {
    var run := Run(intOf, base, spec.operations);
    if run.Err? || Provenance(run.value).None? then Err
    else Ok(Obj(Seal(run.value.fields, Provenance(run.value).value, Record(spec))))
  }

  // ---------------------------------------------------------------- what applying guarantees

  lemma {:induction false} RunFrame(intOf: IntOf, j: Json, ops: seq<Operation>, q: seq<string>)
    requires Run(intOf, j, ops).Ok? && AllUntouched(intOf, j, ops, q)
    ensures Lookup(intOf, Run(intOf, j, ops).value, q) == Lookup(intOf, j, q)
  {
    hide Edit, Untouched;
    if ops != [] {
      var front, op := ops[..|ops| - 1], ops[|ops| - 1];
      RunFrame(intOf, j, front, q);
      EditFrame(intOf, op.kind, Run(intOf, j, front).value, Split(op.path), op.value, q);
    }
  }

  /**
   * The candidate differs from the base only where an operation points: every other path outside
   * `evolution` and `governance` reads the same in both, or fails to read in both.
   */
  lemma ApplyFrame(intOf: IntOf, base: Json, spec: Spec, q: seq<string>)
    requires Applied(intOf, base, spec).Ok? && AllUntouched(intOf, base, spec.operations, q)
    requires q != [] && q[0] != "evolution" && q[0] != "governance"
    ensures Lookup(intOf, Applied(intOf, base, spec).value, q) == Lookup(intOf, base, q)
  {
    hide Run, AllUntouched;
    RunFrame(intOf, base, spec.operations, q);
  }

  lemma {:induction false} PartingRun(intOf: IntOf, j: Json, ops: seq<Operation>, q: seq<string>)
    requires Run(intOf, j, ops).Ok?
    requires forall op :: op in ops ==> Parts(intOf, op.kind, Split(op.path), q)
    ensures AllUntouched(intOf, j, ops, q)
  {
    hide Edit, Parts, Split, Untouched;
    if ops != [] {
      var front, op := ops[..|ops| - 1], ops[|ops| - 1];
      assert op in ops;
      PartingRun(intOf, j, front, q);
      PartsIsUntouched(intOf, op.kind, Run(intOf, j, front).value, Split(op.path), op.value, q);
    }
  }

  /**
   * What a caller can read off the specification alone: a path that parts from the path of every
   * operation, outside `evolution` and `governance`, reads the same in candidate and base.
   */
  lemma ApplyFrameByPaths(intOf: IntOf, base: Json, spec: Spec, q: seq<string>)
    requires Applied(intOf, base, spec).Ok?
    requires forall op :: op in spec.operations ==> Parts(intOf, op.kind, Split(op.path), q)
    requires q != [] && q[0] != "evolution" && q[0] != "governance"
    ensures Lookup(intOf, Applied(intOf, base, spec).value, q) == Lookup(intOf, base, q)
  {
    hide Run, Parts, AllUntouched, Split;
    PartingRun(intOf, base, spec.operations, q);
    ApplyFrame(intOf, base, spec, q);
  }

  /** What a run leaves at a path that all operations from number `k` on part from. */
  lemma {:induction false} LaterOperationsLeave(intOf: IntOf, j: Json, ops: seq<Operation>, k: nat, q: seq<string>)
    requires k <= |ops| && Run(intOf, j, ops).Ok?
    requires forall m :: k <= m < |ops| ==> Parts(intOf, ops[m].kind, Split(ops[m].path), q)
    ensures Run(intOf, j, ops[..k]).Ok?
    ensures Lookup(intOf, Run(intOf, j, ops).value, q) == Lookup(intOf, Run(intOf, j, ops[..k]).value, q)
    decreases |ops|
  {
    hide Edit, Parts, Split;
    if k < |ops| {
      var front, op := ops[..|ops| - 1], ops[|ops| - 1];
      var before := Run(intOf, j, front).value;
      LaterOperationsLeave(intOf, j, front, k, q);
      assert front[..k] == ops[..k];
      PartsIsUntouched(intOf, op.kind, before, Split(op.path), op.value, q);
      EditFrame(intOf, op.kind, before, Split(op.path), op.value, q);
    } else {
      assert ops[..k] == ops;
    }
  }

  /** The trees just before and just after operation `k`. */
  lemma OperationApplied(intOf: IntOf, base: Json, spec: Spec, k: nat, q: seq<string>) returns (was: Json, now: Json)
    requires Applied(intOf, base, spec).Ok? && k < |spec.operations| && FinalPath(intOf, spec, k, q)
    ensures var op := spec.operations[k];
      && Run(intOf, base, spec.operations[..k]) == Ok(was)
      && Edit(intOf, op.kind, was, Split(op.path), op.value) == Ok(now)
      && Lookup(intOf, Applied(intOf, base, spec).value, q) == Lookup(intOf, now, q)
  {
    hide Edit, Parts, Split;
    var ops := spec.operations;
    LaterOperationsLeave(intOf, base, ops, k + 1, q);
    assert ops[..k + 1][..k] == ops[..k];
    was := Run(intOf, base, ops[..k]).value;
    now := Run(intOf, base, ops[..k + 1]).value;
    SealElsewhere(intOf, base, spec, q);
  }

  /** Every operation after number `k` parts from `q`, and recording the mutation does not touch it. */
  predicate FinalPath(intOf: IntOf, spec: Spec, k: nat, q: seq<string>) {
    && q != [] && q[0] != "evolution" && q[0] != "governance"
    && forall m :: k < m < |spec.operations| ==>
         Parts(intOf, spec.operations[m].kind, Split(spec.operations[m].path), q)
  }

  lemma SealElsewhere(intOf: IntOf, base: Json, spec: Spec, q: seq<string>)
    requires Applied(intOf, base, spec).Ok? && q != [] && q[0] != "evolution" && q[0] != "governance"
    ensures Run(intOf, base, spec.operations).Ok?
    ensures Lookup(intOf, Applied(intOf, base, spec).value, q)
      == Lookup(intOf, Run(intOf, base, spec.operations).value, q)
  {
    hide Run;
  }

  /**
   * What the last operation on a path does is there in the candidate: a value that was set is read, an
   * entry removed from a dictionary is gone, an item is at the end of its list.
   */
  lemma LastOperationShows(intOf: IntOf, base: Json, spec: Spec, k: nat)
    requires Applied(intOf, base, spec).Ok? && k < |spec.operations|
    requires FinalPath(intOf, spec, k, Split(spec.operations[k].path))
    ensures var op, candidate := spec.operations[k], Applied(intOf, base, spec).value;
      var was, path := Run(intOf, base, spec.operations[..k]), Split(op.path);
      && was.Ok?
      && match op.kind
         case SetValue => Lookup(intOf, candidate, path) == Some(op.value)
         case AddItem =>
           && Lookup(intOf, was.value, path).Some? && Lookup(intOf, was.value, path).value.Arr?
           && Lookup(intOf, candidate, path) == Some(Arr(Lookup(intOf, was.value, path).value.items + [op.value]))
         case RemoveItem =>
           && path != [] && Lookup(intOf, was.value, path).Some?
           && var parent := Lookup(intOf, was.value, path[..|path| - 1]);
              parent.Some? && (parent.value.Obj? ==> Lookup(intOf, candidate, path).None?)
         case MergeObject =>
           var held := Lookup(intOf, was.value, path);
           (held.Some? && held.value.Obj? && op.value.Obj?) || Lookup(intOf, candidate, path) == Some(op.value)
  {
    hide Edit, Run, Parts, Split, Applied;
    var op := spec.operations[k];
    var path := Split(op.path);
    var was, now := OperationApplied(intOf, base, spec, k, path);
    match op.kind {
      case SetValue => SetReadsBack(intOf, was, path, op.value);
      case AddItem => AddAppends(intOf, was, path, op.value);
      case RemoveItem => RemoveTakesOut(intOf, was, path, op.value);
      case MergeObject => MergeReadsBack(intOf, was, path, op.value);
    }
  }

  /** The last merge on a path into a dictionary: the new keys read the new values, any other the old ones. */
  lemma LastMergeShows(intOf: IntOf, base: Json, spec: Spec, k: nat, key: string)
    requires Applied(intOf, base, spec).Ok? && k < |spec.operations| && spec.operations[k].kind.MergeObject?
    requires FinalPath(intOf, spec, k, Split(spec.operations[k].path))
    ensures var op, candidate := spec.operations[k], Applied(intOf, base, spec).value;
      var was, path := Run(intOf, base, spec.operations[..k]), Split(op.path);
      && was.Ok?
      && var held := Lookup(intOf, was.value, path);
         held.Some? && held.value.Obj? && op.value.Obj? ==>
           Lookup(intOf, candidate, path + [key]) ==
             if key in op.value.fields then Some(op.value.fields[key]) else Lookup(intOf, was.value, path + [key])
  {
    hide Edit, Run, Split, Applied, Parts;
    var op := spec.operations[k];
    var path := Split(op.path);
    forall m | k < m < |spec.operations|
      ensures Parts(intOf, spec.operations[m].kind, Split(spec.operations[m].path), path + [key])
    {
      PartsFurther(intOf, spec.operations[m].kind, Split(spec.operations[m].path), path, key);
    }
    var was, now := OperationApplied(intOf, base, spec, k, path + [key]);
    MergeReadsBack(intOf, was, path, op.value);
  }

  lemma PartsFurther(intOf: IntOf, kind: Kind, p: seq<string>, q: seq<string>, key: string)
    requires Parts(intOf, kind, p, q)
    ensures Parts(intOf, kind, p, q + [key])
  {
    var i :| 0 <= i < |p| && i < |q| && KeysApart(intOf, p[i], q[i]) && Harmless(intOf, kind, p, q, i);
    assert (q + [key])[i] == q[i];
    assert Harmless(intOf, kind, p, q + [key], i);
  }

  /** The last removal from a list, where later operations leave the list alone: the rest has moved up. */
  lemma LastListRemovalShows(intOf: IntOf, base: Json, spec: Spec, k: nat)
    requires Applied(intOf, base, spec).Ok? && k < |spec.operations| && spec.operations[k].kind.RemoveItem?
    requires var path := Split(spec.operations[k].path); path != [] && FinalPath(intOf, spec, k, path[..|path| - 1])
    ensures var candidate, was := Applied(intOf, base, spec).value, Run(intOf, base, spec.operations[..k]);
      var path := Split(spec.operations[k].path);
      var front, at := path[..|path| - 1], intOf(path[|path| - 1]);
      && was.Ok?
      && var list := Lookup(intOf, was.value, front);
         list.Some? && list.value.Arr? ==>
           && at.Some? && 0 <= at.value < |list.value.items|
           && Lookup(intOf, candidate, front) ==
                Some(Arr(list.value.items[..at.value] + list.value.items[at.value + 1..]))
  {
    hide Edit, Run, Split, Applied, Parts;
    var op := spec.operations[k];
    var path := Split(op.path);
    var front := path[..|path| - 1];
    var was, now := OperationApplied(intOf, base, spec, k, front);
    RemoveTakesOut(intOf, was, path, op.value);
    var list := Lookup(intOf, was, front);
    if list.Some? && list.value.Arr? {
      var at := intOf(path[|path| - 1]).value;
      var rest := Lookup(intOf, now, front).value.items;
      assert rest == list.value.items[..at] + list.value.items[at + 1..];
    }
  }

  /** The record a candidate carries says what the specification says. */
  lemma CandidateNamesItsMutation(intOf: IntOf, base: Json, spec: Spec)
    requires Applied(intOf, base, spec).Ok?
    ensures var records := Provenance(Applied(intOf, base, spec).value);
      && records.Some? && records.value != []
      && var last := records.value[|records.value| - 1];
         && Get(last, "mutation_id") == Some(spec.id) && Get(last, "operator") == Some(Str(spec.operator))
         && Get(last, "chromosome_family") == Some(Str(spec.family)) && Get(last, "gene_id") == Some(Str(spec.gene))
         && Get(last, "rationale") == Some(Str(spec.rationale))
    ensures Get(Applied(intOf, base, spec).value, "governance").Some?
  {
    hide Run;
    SealProvenance(Run(intOf, base, spec.operations).value, Record(spec));
  }

  lemma {:induction false} RunKeepsEvolution(intOf: IntOf, j: Json, ops: seq<Operation>)
    requires j.Obj? && Run(intOf, j, ops).Ok?
    requires forall op :: op in ops ==> Split(op.path) == [] || Split(op.path)[0] != "evolution"
    ensures Run(intOf, j, ops).value.Obj?
    ensures Get(Run(intOf, j, ops).value, "evolution") == Get(j, "evolution")
  {
    hide Split;
    if ops != [] {
      var front, op := ops[..|ops| - 1], ops[|ops| - 1];
      assert op in ops;
      RunKeepsEvolution(intOf, j, front);
      var before, path := Run(intOf, j, front).value, Split(op.path);
      assert path != [];
      assert Untouched(intOf, op.kind, before, path, ["evolution"]);
      EditFrame(intOf, op.kind, before, path, op.value, ["evolution"]);
      EditKeepsObject(intOf, op.kind, before, path, op.value);
      ReadsTop(intOf, before, "evolution");
      ReadsTop(intOf, Run(intOf, j, ops).value, "evolution");
    }
  }

  lemma ReadsTop(intOf: IntOf, j: Json, key: string)
    requires j.Obj?
    ensures Lookup(intOf, j, [key]) == Get(j, key)
  {
    assert [key][1..] == [];
  }

  lemma EditKeepsObject(intOf: IntOf, kind: Kind, j: Json, path: seq<string>, value: Json)
    requires j.Obj? && path != [] && Edit(intOf, kind, j, path, value).Ok?
    ensures Edit(intOf, kind, j, path, value).value.Obj?
  {}

  /**
   * Without operations under `evolution`, a successful application extends the provenance list by
   * exactly one record, so the candidate always differs from its base.
   */
  lemma ProvenanceGrowsByOne(intOf: IntOf, base: Json, spec: Spec)
    requires base.Obj? && Applied(intOf, base, spec).Ok?
    requires forall op :: op in spec.operations ==> Split(op.path) == [] || Split(op.path)[0] != "evolution"
    ensures Provenance(base).Some?
    ensures Provenance(Applied(intOf, base, spec).value) == Some(Provenance(base).value + [Record(spec)])
    ensures Applied(intOf, base, spec).value != base
  {
    hide Run, Split, Record;
    RunKeepsEvolution(intOf, base, spec.operations);
    SealProvenance(Run(intOf, base, spec.operations).value, Record(spec));
  }

  lemma SealProvenance(j: Json, record: Json)
    requires Provenance(j).Some?
    ensures Provenance(Obj(Seal(j.fields, Provenance(j).value, record))) == Some(Provenance(j).value + [record])
  {}

  /** Whatever the operations do, a successful application leaves provenance that is not empty. */
  lemma ProvenanceNeverEmpty(intOf: IntOf, base: Json, spec: Spec)
    requires Applied(intOf, base, spec).Ok?
    ensures Provenance(Applied(intOf, base, spec).value).Some?
    ensures Record(spec) in Provenance(Applied(intOf, base, spec).value).value
  {
    hide Run, Record;
    SealProvenance(Run(intOf, base, spec.operations).value, Record(spec));
  }

  // ---------------------------------------------------------------- when the candidate is its base

  function Field(j: Json, outer: string, inner: string): Option<Json> {
    if Get(j, outer).Some? then Get(Get(j, outer).value, inner) else None
  }

  /**
   * `r` is `base` without its last provenance record; it may also lack a `governance` that is just
   * the baseline, which sealing fills in again.
   */
  ghost predicate LacksLastRecord(r: Json, base: Json) {
    && r.Obj? && base.Obj? && Provenance(r).Some? && Provenance(base).Some? && Provenance(base).value != []
    && Provenance(r).value == Provenance(base).value[..|Provenance(base).value| - 1]
    && (forall k :: k != "evolution" && k != "governance" ==> Get(r, k) == Get(base, k))
    && (forall k :: k != "mutations" ==> Field(r, "evolution", k) == Field(base, "evolution", k))
    && (Get(r, "governance") == Get(base, "governance")
        || (Get(r, "governance").None? && Get(base, "governance") == Some(BASELINE_GOVERNANCE)))
  }

  /** The base already ends with this specification's record and has a `governance`. */
  predicate Stamped(base: Json, spec: Spec) {
    && Get(base, "governance").Some?
    && Provenance(base).Some? && Provenance(base).value != []
    && Provenance(base).value[|Provenance(base).value| - 1] == Record(spec)
  }

  lemma SealIsBaseIff(r: Json, base: Json, spec: Spec)
    requires r.Obj? && Provenance(r).Some?
    ensures Obj(Seal(r.fields, Provenance(r).value, Record(spec))) == base
      <==> Stamped(base, spec) && LacksLastRecord(r, base)
  {
    hide Record;
    var sealed := Obj(Seal(r.fields, Provenance(r).value, Record(spec)));
    var records := Provenance(r).value + [Record(spec)];
    SealProvenance(r, Record(spec));
    if sealed == base {
      assert records[..|records| - 1] == Provenance(r).value;
      assert Get(base, "evolution").Some? && Get(base, "evolution").value.Obj?;
      forall k | k != "mutations" ensures Field(r, "evolution", k) == Field(base, "evolution", k) {}
    }
    if Stamped(base, spec) && LacksLastRecord(r, base) {
      SealRestores(r, base, Record(spec));
    }
  }

  lemma SealRestores(r: Json, base: Json, record: Json)
    requires LacksLastRecord(r, base) && Get(base, "governance").Some?
    requires Provenance(base).value[|Provenance(base).value| - 1] == record
    ensures Seal(r.fields, Provenance(r).value, record) == base.fields
  {
    var records := Provenance(base).value;
    assert records == Provenance(r).value + [record];
    EvolutionRestored(r, base, records);
    hide Field, Provenance;
    var sealed := Seal(r.fields, Provenance(r).value, record);
    forall k ensures k in sealed <==> k in base.fields
      ensures k in base.fields ==> sealed[k] == base.fields[k]
    {
      if k != "evolution" && k != "governance" { assert Get(r, k) == Get(base, k); }
    }
  }

  /** Putting the records back restores the whole `evolution` entry. */
  lemma EvolutionRestored(r: Json, base: Json, records: seq<Json>)
    requires LacksLastRecord(r, base) && records == Provenance(base).value
    ensures var before :=
        if "evolution" in r.fields && r.fields["evolution"].Obj? then r.fields["evolution"].fields else map[];
      "evolution" in base.fields && base.fields["evolution"] == Obj(before["mutations" := Arr(records)])
  {
    var before := if "evolution" in r.fields && r.fields["evolution"].Obj? then r.fields["evolution"].fields else map[];
    var after, evolution := before["mutations" := Arr(records)], base.fields["evolution"].fields;
    forall k | k != "mutations" ensures k in after <==> k in evolution
      ensures k in evolution && k != "mutations" ==> after[k] == evolution[k]
    {
      assert Field(r, "evolution", k) == Field(base, "evolution", k);
    }
    assert "mutations" in evolution && evolution["mutations"] == Arr(records);
    assert after == evolution;
  }

  /**
   * A candidate is its base exactly when the base already ends with this very record and has a
   * `governance`, and the operations turn it into itself without that record. So a specification
   * whose record is not the last one in the base always changes it.
   */
  lemma CandidateIsBaseIff(intOf: IntOf, base: Json, spec: Spec)
    ensures Applied(intOf, base, spec) == Ok(base) <==>
      && Stamped(base, spec)
      && Run(intOf, base, spec.operations).Ok? && LacksLastRecord(Run(intOf, base, spec.operations).value, base)
  {
    hide Run, Record, Seal;
    var run := Run(intOf, base, spec.operations);
    if run.Ok? && Provenance(run.value).Some? {
      SealIsBaseIff(run.value, base, spec);
    }
  }
}
