/** The record that every crossover operator leaves in its children. */
module CrossoverRecords {
  import opened Order
  import opened Json

  type Fields = map<string, Json>

  datatype Context = Context(parents: seq<string>, generation: int)

  function CrossoverRecord(operator: string, context: Context, role: string): Json {
    var ids := seq(|context.parents|, i requires 0 <= i < |context.parents| => Str(context.parents[i]));
    Obj(map["operator" := Str(operator), "parent_candidate_ids" := Arr(ids),
            "generation" := Num(context.generation as real), "offspring_role" := Str(role)])
  }

  /** Adds the crossover record under `evolution`; None where the program raises. */
  function Recorded(fields: Fields, record: Json): Option<Fields> {
    var evolution := if "evolution" in fields then fields["evolution"] else Obj(map[]);
    if !evolution.Obj? then None
    else
      var crossovers := if "crossovers" in evolution.fields then evolution.fields["crossovers"] else Arr([]);
      if !crossovers.Arr? then None
      else Some(fields["evolution" := Obj(evolution.fields["crossovers" := Arr(crossovers.items + [record])])])
  }

  /** Recording reads and changes nothing but `evolution`. */
  lemma RecordedAgrees(x: Fields, y: Fields, record: Json)
    requires "evolution" in x <==> "evolution" in y
    requires "evolution" in x ==> x["evolution"] == y["evolution"]
    ensures Recorded(x, record).Some? <==> Recorded(y, record).Some?
    ensures Recorded(x, record).Some? ==>
      var z := Recorded(x, record).value;
      && "evolution" in z && z["evolution"] == Recorded(y, record).value["evolution"]
      && forall k :: k != "evolution" ==> (k in z <==> k in x) && (k in z ==> z[k] == x[k])
  {}

  /** The crossover list of a payload; empty where there is none. */
  function Crossovers(fields: Fields): Option<seq<Json>> {
    if "evolution" !in fields then Some([])
    else
      match fields["evolution"]
      case Obj(evolution) =>
        if "crossovers" !in evolution then Some([])
        else if evolution["crossovers"].Arr? then Some(evolution["crossovers"].items) else None
      case _ => None
  }

  /** The record stands at the end of the child's crossover list, after those of its base. */
  predicate Notes(base: Fields, child: Fields, record: Json) {
    Crossovers(base).Some? && Crossovers(child) == Some(Crossovers(base).value + [record])
  }

  /** Recording works exactly where there is a list to add to, or room for a new one. */
  lemma RecordedNotes(base: Fields, record: Json)
    ensures Recorded(base, record).Some? <==> Crossovers(base).Some?
    ensures Recorded(base, record).Some? ==>
      "evolution" in Recorded(base, record).value
      && forall child: Fields :: "evolution" in child ==>
           child["evolution"] == Recorded(base, record).value["evolution"] ==> Notes(base, child, record)
  {}
}
