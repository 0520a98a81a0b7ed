/** JSON payloads and reading them by path. */
module Json {
  import opened Order

  datatype Json =
    | Null | Bool(b: bool) | Num(n: real) | Str(s: string) | Arr(items: seq<Json>) | Obj(fields: map<string, Json>)

  /** How path segments are read as list indexes: Python's `int`, or None where it raises. */
  type IntOf = string -> Option<int>

  /** Python's truth value. */
  predicate Truthy(j: Json) {
    match j
    case Null => false
    case Bool(b) => b
    case Num(n) => n != 0.0
    case Str(s) => s != ""
    case Arr(items) => items != []
    case Obj(fields) => fields != map[]
  }

  const FALSY: set<Json> := {Null, Bool(false), Num(0.0), Str(""), Arr([]), Obj(map[])}

  /** Missing, or there with a value that counts as nothing. */
  predicate Lacks(j: Json, key: string) { Get(j, key).None? || Get(j, key).value in FALSY }

  lemma FalsyIsNotTruthy(j: Json)
    ensures Truthy(j) <==> j !in FALSY
  {}

  function Get(j: Json, key: string): Option<Json> {
    if j.Obj? && key in j.fields then Some(j.fields[key]) else None
  }

  function Split(path: string): seq<string> {
    SplitFrom(path, "")
  }

  /** Splits at dots and drops empty segments; `open` is the segment read so far. */
  function SplitFrom(path: string, open: string): seq<string>
    decreases |path|
  {
    if path == "" then (if open == "" then [] else [open])
    else if path[0] == '.' then (if open == "" then [] else [open]) + SplitFrom(path[1..], "")
    else SplitFrom(path[1..], open + [path[0]])
  }

  // ---------------------------------------------------------------- one step down

  /** The child of `j` under `key`: a dictionary entry, or a list element when the key is an index in range. */
  function Child(intOf: IntOf, j: Json, key: string): Option<Json> {
    match j
    case Obj(fields) => if key in fields then Some(fields[key]) else None
    case Arr(items) =>
      var i := intOf(key);
      if i.Some? && 0 <= i.value < |items| then Some(items[i.value]) else None
    case _ => None
  }

  function WithChild(intOf: IntOf, j: Json, key: string, child: Json): Json
    requires Child(intOf, j, key).Some?
  {
    match j
    case Obj(fields) => Obj(fields[key := child])
    case Arr(items) => Arr(items[intOf(key).value := child])
    case _ => j
  }

  /** The value a path leads to, or None where the traversal raises. */
  function Lookup(intOf: IntOf, j: Json, path: seq<string>): Option<Json>
    decreases |path|
  {
    if path == [] then Some(j)
    else
      var child := Child(intOf, j, path[0]);
      if child.None? then None else Lookup(intOf, child.value, path[1..])
  }

  lemma {:induction false} LookupExtends(intOf: IntOf, j: Json, path: seq<string>, key: string)
    ensures Lookup(intOf, j, path + [key]) ==
      var at := Lookup(intOf, j, path); if at.None? then None else Child(intOf, at.value, key)
    decreases |path|
  {
    if path == [] {
      assert path + [key] == [key];
      assert [key][1..] == [];
    } else {
      assert (path + [key])[1..] == path[1..] + [key];
      var child := Child(intOf, j, path[0]);
      if child.Some? { LookupExtends(intOf, child.value, path[1..], key); }
    }
  }
}
