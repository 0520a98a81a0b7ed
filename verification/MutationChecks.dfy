/** Mutated candidates against the checks of the verifier. */
module MutationChecks {
  import opened Order
  import opened Json
  import opened Mutation
  import opened Isr

  predicate TouchesEvolution(op: Operation) {
    Split(op.path) != [] && Split(op.path)[0] == "evolution"
  }

  /** Two different trees with one hash. */
  predicate Collide(hash: Json -> string, a: Json, b: Json) { a != b && hash(a) == hash(b) }

  /** The verifier never reports missing provenance for a mutated candidate. */
  lemma MutantsHaveProvenance(intOf: IntOf, base: Json, spec: Spec)
    requires Applied(intOf, base, spec).Ok?
    ensures HasProvenance(Applied(intOf, base, spec).value)
  {
    hide Applied, Record;
    ProvenanceNeverEmpty(intOf, base, spec);
    HasRecords(Applied(intOf, base, spec).value);
  }

  /**
   * The verifier reports an unchanged architecture, whatever the hash, only when the base already ends
   * with this specification's record and an operation edits `evolution`, or when candidate and base
   * collide.
   */
  lemma MutantsAreChanged(intOf: IntOf, base: Json, spec: Spec, hash: Json -> string)
    requires base.Obj? && Applied(intOf, base, spec).Ok?
    requires !Stamped(base, spec) || forall op :: op in spec.operations ==> !TouchesEvolution(op)
    ensures Applied(intOf, base, spec).value != base
    ensures hash(Applied(intOf, base, spec).value) == hash(base) ==>
      Collide(hash, Applied(intOf, base, spec).value, base)
  {
    hide Applied, Split, Record, Stamped, LacksLastRecord;
    if Stamped(base, spec) {
      forall op | op in spec.operations ensures Split(op.path) == [] || Split(op.path)[0] != "evolution" {
        assert !TouchesEvolution(op);
      }
      ProvenanceGrowsByOne(intOf, base, spec);
    } else {
      CandidateIsBaseIff(intOf, base, spec);
    }
  }

  lemma HasRecords(j: Json)
    requires Provenance(j).Some? && Provenance(j).value != []
    ensures HasProvenance(j)
  {}

  /** A specification that first deletes its own earlier record leaves no trace: the candidate is the base. */
  lemma EditingProvenanceCanHideTheChange(intOf: IntOf, spec: Spec, base: Json)
    requires intOf("0") == Some(0)
    requires spec.operations == [Operation(RemoveItem, "evolution.mutations.0", Null)]
    requires base == Obj(map["evolution" := Obj(map["mutations" := Arr([Record(spec)])]), "governance" := Null])
    ensures Applied(intOf, base, spec) == Ok(base)
  {
    hide Record, SplitFrom;
    var record, path := Record(spec), ["evolution", "mutations", "0"];
    SplitExample();
    var list, evolution := Arr([record]), base.fields["evolution"];
    assert path[1..] == ["mutations", "0"] && path[1..][1..] == ["0"];
    assert [record][..0] + [record][1..] == [];
    assert RemoveAt(intOf, list, "0") == Ok(Arr([]));
    assert Edit(intOf, RemoveItem, list, path[1..][1..], Null) == Ok(Arr([]));
    assert map["mutations" := list]["mutations" := Arr([])] == map["mutations" := Arr([])];
    assert WithChild(intOf, evolution, "mutations", Arr([])) == Obj(map["mutations" := Arr([])]);
    assert Edit(intOf, RemoveItem, evolution, path[1..], Null) == Ok(Obj(map["mutations" := Arr([])]));
    var emptied := Obj(map["evolution" := Obj(map["mutations" := Arr([])]), "governance" := Null]);
    assert base.fields["evolution" := Obj(map["mutations" := Arr([])])] == emptied.fields;
    assert WithChild(intOf, base, "evolution", Obj(map["mutations" := Arr([])])) == emptied;
    assert Edit(intOf, RemoveItem, base, path, Null) == Ok(emptied);
    assert spec.operations[..0] == [];
    assert Run(intOf, base, spec.operations) == Ok(emptied);
    assert [] + [record] == [record];
    assert emptied.fields["evolution" := Obj(map["mutations" := Arr([])]["mutations" := Arr([record])])]
      == base.fields by {
      assert map["mutations" := Arr([])]["mutations" := Arr([record])] == map["mutations" := Arr([record])];
    }
    assert Seal(emptied.fields, [], record) == base.fields;
  }

  lemma SplitExample()
    ensures Split("evolution.mutations.0") == ["evolution", "mutations", "0"]
  {
    hide SplitFrom;
    assert "" + "evolution" == "evolution" && "" + "mutations" == "mutations";
    SegmentThenRest("evolution", "mutations.0", "");
    SegmentThenRest("mutations", "0", "");
    assert "evolution.mutations.0" == "evolution" + "." + "mutations.0";
    assert "mutations.0" == "mutations" + "." + "0";
    OneSegment();
    assert ["evolution"] + (["mutations"] + ["0"]) == ["evolution", "mutations", "0"];
  }

  lemma OneSegment()
    ensures SplitFrom("0", "") == ["0"]
  {
    assert "0"[1..] == "" && "" + ['0'] == "0";
    assert SplitFrom("0", "") == SplitFrom("", "0");
  }

  lemma {:induction false} SegmentThenRest(segment: string, rest: string, open: string)
    requires '.' !in segment && open + segment != ""
    ensures SplitFrom(segment + "." + rest, open) == [open + segment] + SplitFrom(rest, "")
    decreases |segment|
  {
    var path := segment + "." + rest;
    if segment == "" {
      assert path == "." + rest && path[1..] == rest;
      assert open + segment == open;
    } else {
      assert path[1..] == segment[1..] + "." + rest;
      assert open + [segment[0]] + segment[1..] == open + segment;
      SegmentThenRest(segment[1..], rest, open + [segment[0]]);
    }
  }
}
