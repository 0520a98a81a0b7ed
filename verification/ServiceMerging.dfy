/**
 * The parts of domain crossover below the domains: normal forms, filing entries under their names, and
 * merging the APIs and services of two lists. Filing lets the last entry of a name win.
 */
module ServiceMerging {
  import opened Order
  import opened Json
  import opened Isr
  import opened CrossoverRecords

  // ---------------------------------------------------------------- normal forms

  function Default(fields: Fields, key: string, value: Json): Fields {
    if key in fields then fields else fields[key := value]
  }

  function NormalDomain(domain: Json): Fields {
    match domain
    case Str(s) => map["name" := Str(s), "services" := Arr([])]
    case Obj(fields) => Default(Default(fields, "name", Str("UnnamedDomain")), "services", Arr([]))
    case _ => map["name" := Str("UnnamedDomain"), "services" := Arr([])]
  }

  function NormalService(service: Json): Fields {
    match service
    case Str(s) => map["name" := Str(s), "apis" := Arr([]), "depends_on" := Arr([])]
    case Obj(fields) =>
      Default(Default(Default(fields, "name", Str("UnnamedService")), "apis", Arr([])), "depends_on", Arr([]))
    case _ => map["name" := Str("UnnamedService"), "apis" := Arr([]), "depends_on" := Arr([])]
  }

  /** The key a normal form is filed under. */
  function NameOf(fields: Fields): string {
    if "name" in fields && fields["name"].Str? then fields["name"].s else ""
  }

  datatype Level = Services | Domains

  function Normal(l: Level, j: Json): Fields { if l.Services? then NormalService(j) else NormalDomain(j) }

  function Key(l: Level, j: Json): string { NameOf(Normal(l, j)) }

  ghost function Apis(show: Json -> string, l: Level, j: Json): set<string> {
    if l.Services? then ServiceApis(show, j) else DomainApis(show, j)
  }

  ghost function AllApis(show: Json -> string, l: Level, xs: seq<Json>): set<string> {
    set x, n | x in xs && n in Apis(show, l, x) :: n
  }

  lemma AllApisAre(show: Json -> string, xs: seq<Json>)
    ensures AllApis(show, Services, xs) == ServicesApis(show, xs)
    ensures AllApis(show, Domains, xs) == DomainsApis(show, xs)
  {
    hide ServiceApis, DomainApis;
    forall n ensures n in AllApis(show, Services, xs) <==> n in ServicesApis(show, xs) {
      if x :| x in xs && n in Apis(show, Services, x) { assert n in ServiceApis(show, x); }
      if x :| x in xs && n in ServiceApis(show, x) { assert n in Apis(show, Services, x); }
    }
    forall n ensures n in AllApis(show, Domains, xs) <==> n in DomainsApis(show, xs) {
      if x :| x in xs && n in Apis(show, Domains, x) { assert n in DomainApis(show, x); }
      if x :| x in xs && n in DomainApis(show, x) { assert n in Apis(show, Domains, x); }
    }
  }

  /** Names are strings. */
  predicate Named(j: Json) { j.Obj? && "name" in j.fields ==> j.fields["name"].Str? }

  predicate AllNamed(xs: seq<Json>) { forall x :: x in xs ==> Named(x) }

  /** The lists that an entry of the level is given when it lacks them. */
  function ListKeys(l: Level): set<string> { if l == Domains then {"services"} else {"apis", "depends_on"} }

  /** A normal form keeps every field there is, and adds a name and empty lists where they are missing. */
  lemma NormalForms(l: Level, j: Json)
    ensures var n, unnamed := Normal(l, j), if l == Domains then "UnnamedDomain" else "UnnamedService";
      match j
      case Obj(fields) =>
        && n.Keys == fields.Keys + {"name"} + ListKeys(l) && (forall k :: k in fields ==> n[k] == fields[k])
        && ("name" !in fields ==> n["name"] == Str(unnamed))
        && forall k :: k in ListKeys(l) && k !in fields ==> n[k] == Arr([])
      case _ =>
        && n.Keys == {"name"} + ListKeys(l) && n["name"] == (if j.Str? then j else Str(unnamed))
        && forall k :: k in ListKeys(l) ==> n[k] == Arr([])
  {}

  lemma NormalFacts(show: Json -> string, l: Level, j: Json)
    ensures var n := Normal(l, j);
      && Apis(show, l, Obj(n)) == Apis(show, l, j)
      && ListOf(Obj(n), "services") == ListOf(j, "services") && ListOf(Obj(n), "apis") == ListOf(j, "apis")
      && (Named(j) ==> "name" in n && n["name"] == Str(Key(l, j)))
  {}

  lemma NormalKeepsName(l: Level, fields: Fields, k: string)
    requires "name" in fields && fields["name"] == Str(k)
    ensures Key(l, Obj(fields)) == k && Named(Obj(fields))
  {}

  // ---------------------------------------------------------------- filing: the last of a name wins

  ghost function LastNamed(l: Level, xs: seq<Json>, k: string): Option<Json> {
    if xs == [] then None
    else if Key(l, xs[|xs| - 1]) == k then Some(xs[|xs| - 1])
    else LastNamed(l, xs[..|xs| - 1], k)
  }

  ghost predicate Survives(l: Level, xs: seq<Json>, x: Json) { LastNamed(l, xs, Key(l, x)) == Some(x) }

  /** The API names of the entries that filing keeps, and of those it overwrites. */
  ghost function Kept(show: Json -> string, l: Level, xs: seq<Json>): set<string> {
    set x, n | x in xs && Survives(l, xs, x) && n in Apis(show, l, x) :: n
  }

  ghost function Overwritten(show: Json -> string, l: Level, xs: seq<Json>): set<string> {
    set x, n | x in xs && !Survives(l, xs, x) && n in Apis(show, l, x) :: n
  }

  lemma KeptOrOverwritten(show: Json -> string, l: Level, xs: seq<Json>)
    ensures AllApis(show, l, xs) == Kept(show, l, xs) + Overwritten(show, l, xs)
  {
    hide Apis, Survives;
  }

  lemma {:induction false} LastNamedIs(l: Level, xs: seq<Json>, k: string)
    ensures LastNamed(l, xs, k).Some? ==> LastNamed(l, xs, k).value in xs && Key(l, LastNamed(l, xs, k).value) == k
    ensures LastNamed(l, xs, k).None? <==> forall x :: x in xs ==> Key(l, x) != k
  {
    hide Key;
    if xs != [] {
      LastNamedIs(l, xs[..|xs| - 1], k);
      assert xs == xs[..|xs| - 1] + [xs[|xs| - 1]];
    }
  }

  /** No two entries of the list share a name. */
  predicate UniqueKeys(l: Level, xs: seq<Json>) {
    forall i, j :: 0 <= i < j < |xs| ==> Key(l, xs[i]) != Key(l, xs[j])
  }

  /** Where names are unique, nothing is overwritten. */
  lemma UniqueSurvive(show: Json -> string, l: Level, xs: seq<Json>)
    requires UniqueKeys(l, xs)
    ensures forall x :: x in xs ==> Survives(l, xs, x)
    ensures Kept(show, l, xs) == AllApis(show, l, xs) && Overwritten(show, l, xs) == {}
  {
    hide Key, Apis;
    forall x | x in xs ensures Survives(l, xs, x) {
      LastNamedIs(l, xs, Key(l, x));
    }
  }

  function FileAll(l: Level, xs: seq<Json>): map<string, Fields> {
    if xs == [] then map[]
    else FileAll(l, xs[..|xs| - 1])[Key(l, xs[|xs| - 1]) := Normal(l, xs[|xs| - 1])]
  }

  lemma {:induction false} FiledAt(l: Level, xs: seq<Json>, k: string)
    ensures k in FileAll(l, xs) <==> LastNamed(l, xs, k).Some?
    ensures k in FileAll(l, xs) ==> FileAll(l, xs)[k] == Normal(l, LastNamed(l, xs, k).value)
  {
    hide Key, Normal;
    if xs != [] { FiledAt(l, xs[..|xs| - 1], k); }
  }

  /** The API names of everything filed. */
  ghost function Filed(show: Json -> string, l: Level, m: map<string, Fields>): set<string> {
    set k, n | k in m && n in Apis(show, l, Obj(m[k])) :: n
  }

  lemma FiledIsKept(show: Json -> string, l: Level, xs: seq<Json>)
    ensures Filed(show, l, FileAll(l, xs)) == Kept(show, l, xs)
  {
    hide Key, Normal, Apis, FileAll;
    var m := FileAll(l, xs);
    forall n ensures n in Filed(show, l, m) <==> n in Kept(show, l, xs) {
      if k :| k in m && n in Apis(show, l, Obj(m[k])) {
        FiledAt(l, xs, k);
        LastNamedIs(l, xs, k);
        var x := LastNamed(l, xs, k).value;
        NormalFacts(show, l, x);
        assert Survives(l, xs, x);
      }
      if x :| x in xs && Survives(l, xs, x) && n in Apis(show, l, x) {
        FiledAt(l, xs, Key(l, x));
        NormalFacts(show, l, x);
      }
    }
  }

  /** Every entry is filed under its own name. */
  ghost predicate WellFiled(m: map<string, Fields>) {
    forall k :: k in m ==> "name" in m[k] && m[k]["name"] == Str(k)
  }

  lemma FiledWell(l: Level, xs: seq<Json>)
    requires AllNamed(xs)
    ensures WellFiled(FileAll(l, xs))
  {
    hide Key, Normal, FileAll;
    forall k | k in FileAll(l, xs) ensures "name" in FileAll(l, xs)[k] && FileAll(l, xs)[k]["name"] == Str(k) {
      FiledAt(l, xs, k);
      LastNamedIs(l, xs, k);
      NormalFacts(_ => "", l, LastNamed(l, xs, k).value);
    }
  }

  method FileEntries(l: Level, xs: seq<Json>) returns (m: map<string, Fields>)
    ensures m == FileAll(l, xs)
  {
    hide Normal;
    m := map[];
    for i := 0 to |xs|
      invariant m == FileAll(l, xs[..i])
    {
      assert xs[..i + 1][..i] == xs[..i];
      var normal := Normal(l, xs[i]);
      m := m[NameOf(normal) := normal];
    }
    assert xs[..|xs|] == xs;
  }

  /** What replacing or adding one entry does to the API names filed. */
  lemma FiledUpdate(show: Json -> string, l: Level, m: map<string, Fields>, k: string, v: Fields, more: set<string>)
    requires k in m ==> Apis(show, l, Obj(m[k])) <= Apis(show, l, Obj(v)) <= Apis(show, l, Obj(m[k])) + more
    requires k !in m ==> Apis(show, l, Obj(v)) == more
    ensures Filed(show, l, m) <= Filed(show, l, m[k := v]) <= Filed(show, l, m) + more
    ensures (k in m ==> Apis(show, l, Obj(v)) == Apis(show, l, Obj(m[k])) + more) ==>
      Filed(show, l, m[k := v]) == Filed(show, l, m) + more
  {
    hide Apis;
    var m' := m[k := v];
    forall n | n in Filed(show, l, m) ensures n in Filed(show, l, m') {
      var j :| j in m && n in Apis(show, l, Obj(m[j]));
      assert j in m' && n in Apis(show, l, Obj(m'[j]));
    }
    forall n | n in Filed(show, l, m') ensures n in Filed(show, l, m) + more {
      var j :| j in m' && n in Apis(show, l, Obj(m'[j]));
    }
    if k in m ==> Apis(show, l, Obj(v)) == Apis(show, l, Obj(m[k])) + more {
      forall n | n in more ensures n in Filed(show, l, m') {
        assert k in m' && n in Apis(show, l, Obj(m'[k]));
      }
    }
  }

  // ---------------------------------------------------------------- sorted values

  function TopName(j: Json): string {
    if j.Obj? then NameOf(j.fields) else ""
  }

  predicate InNameOrder(r: seq<Json>) {
    forall i, j :: 0 <= i < j < |r| ==> TopName(r[i]) != TopName(r[j]) && StrLe(TopName(r[i]), TopName(r[j]))
  }

  ghost predicate ValuesOf(m: map<string, Fields>, r: seq<Json>) {
    forall x :: x in r <==> exists k :: k in m && x == Obj(m[k])
  }

  /** The values in order of their names. */
  method SortedValues(m: map<string, Fields>) returns (r: seq<Json>)
    requires WellFiled(m)
    ensures ValuesOf(m, r) && InNameOrder(r)
  {
    var keys := SortedIds(m.Keys);
    forall k | k in keys ensures k in m { assert k in Members(keys); }
    r := seq(|keys|, i requires 0 <= i < |keys| => Obj(if keys[i] in m then m[keys[i]] else map[]));
    forall x ensures x in r <==> exists k :: k in m && x == Obj(m[k]) {
      if x in r {
        var i :| 0 <= i < |r| && r[i] == x;
        assert keys[i] in keys;
      }
      if k :| k in m && x == Obj(m[k]) {
        assert k in Members(keys);
        var i :| 0 <= i < |keys| && keys[i] == k;
        assert r[i] == x;
      }
    }
    forall i | 0 <= i < |r| ensures r[i].Obj? && NameOf(r[i].fields) == keys[i] {
      assert keys[i] in keys;
    }
  }

  lemma ValuesApis(show: Json -> string, l: Level, m: map<string, Fields>, r: seq<Json>)
    requires ValuesOf(m, r)
    ensures AllApis(show, l, r) == Filed(show, l, m)
  {
    hide Apis;
    forall n ensures n in AllApis(show, l, r) <==> n in Filed(show, l, m) {
      if x :| x in r && n in Apis(show, l, x) {
        var k :| k in m && x == Obj(m[k]);
      }
      if k :| k in m && n in Apis(show, l, Obj(m[k])) { assert Obj(m[k]) in r; }
    }
  }

  ghost predicate HasKey(l: Level, xs: seq<Json>, k: string) { exists x :: x in xs && Key(l, x) == k }

  lemma ValuesKeys(l: Level, m: map<string, Fields>, r: seq<Json>)
    requires WellFiled(m) && ValuesOf(m, r) && InNameOrder(r)
    ensures UniqueKeys(l, r) && AllNamed(r)
    ensures forall k :: HasKey(l, r, k) <==> k in m
  {
    hide Key, Normal;
    forall k | k in m ensures Key(l, Obj(m[k])) == k && Named(Obj(m[k])) && Obj(m[k]) in r {
      NormalKeepsName(l, m[k], k);
    }
    forall x | x in r ensures Named(x) && TopName(x) == Key(l, x) && Key(l, x) in m {
      var k :| k in m && x == Obj(m[k]);
    }
  }

  // ---------------------------------------------------------------- APIs

  /** `_api_name`: the name merging compares, empty when there is none. */
  function MergeName(show: Json -> string, api: Json): string {
    match api
    case Str(s) => s
    case Obj(fields) =>
      if "name" !in fields then "" else if fields["name"].Str? then fields["name"].s else show(fields["name"])
    case _ => ""
  }

  /** API names are strings, and an API given as a bare string is not empty: merging and collecting read one name. */
  predicate GoodApi(api: Json) {
    match api
    case Str(s) => s != ""
    case Obj(fields) => "name" in fields ==> fields["name"].Str?
    case _ => true
  }

  predicate GoodService(service: Json) { forall a :: a in ListOf(service, "apis") ==> GoodApi(a) }

  lemma GoodNames(show: Json -> string, api: Json)
    requires GoodApi(api)
    ensures ApiName(show, api) == if MergeName(show, api) == "" then None else Some(MergeName(show, api))
  {}

  /** `merged` is `base` followed by some of `other`, and has an API for every name of `other`. */
  ghost predicate MergedApis(show: Json -> string, base: seq<Json>, other: seq<Json>, merged: seq<Json>) {
    && base <= merged && (forall a :: a in merged ==> a in base || a in other)
    && (forall a :: a in other ==> exists b :: b in merged && MergeName(show, b) == MergeName(show, a))
    && forall i, j :: |base| <= j < |merged| && 0 <= i < j ==> MergeName(show, merged[i]) != MergeName(show, merged[j])
  }

  /** Keeps all base APIs in order and appends the others whose name is new. */
  method MergeApis(show: Json -> string, base: seq<Json>, other: seq<Json>) returns (merged: seq<Json>)
    ensures MergedApis(show, base, other, merged)
    ensures Names(show, base) <= Names(show, merged) <= Names(show, base) + Names(show, other)
    ensures (forall a :: a in base + other ==> GoodApi(a)) ==>
      Names(show, merged) == Names(show, base) + Names(show, other)
  {
    hide ApiName, Names, GoodApi, MergeName;
    merged := [];
    var seen: set<string> := {};
    for i := 0 to |base|
      invariant merged == base[..i]
      invariant seen == set a | a in base[..i] :: MergeName(show, a)
    {
      assert base[..i + 1] == base[..i] + [base[i]];
      merged := merged + [base[i]];
      seen := seen + {MergeName(show, base[i])};
    }
    assert base[..|base|] == base;
    for i := 0 to |other|
      invariant MergedApis(show, base, other[..i], merged)
      invariant forall n :: n in seen <==> exists a :: a in merged && MergeName(show, a) == n
    {
      var a := other[i];
      assert other[..i + 1] == other[..i] + [a];
      ghost var before := merged;
      if MergeName(show, a) !in seen {
        merged := merged + [a];
        seen := seen + {MergeName(show, a)};
        assert a in merged;
      }
      forall b | b in other[..i + 1] ensures exists x :: x in merged && MergeName(show, x) == MergeName(show, b) {
        if b in other[..i] {
          var x :| x in before && MergeName(show, x) == MergeName(show, b);
          assert x in merged;
        }
      }
    }
    assert other[..|other|] == other;
    MergedNames(show, base, other, merged);
  }

  lemma MergedNames(show: Json -> string, base: seq<Json>, other: seq<Json>, merged: seq<Json>)
    requires MergedApis(show, base, other, merged)
    ensures Names(show, base) <= Names(show, merged) <= Names(show, base) + Names(show, other)
    ensures (forall a :: a in base + other ==> GoodApi(a)) ==>
      Names(show, merged) == Names(show, base) + Names(show, other)
  {
    hide ApiName, GoodApi, MergeName;
    if forall a :: a in base + other ==> GoodApi(a) {
      forall a | a in other && ApiName(show, a).Some? ensures ApiName(show, a).value in Names(show, merged) {
        var b :| b in merged && MergeName(show, b) == MergeName(show, a);
        assert a in base + other && b in base + other;
        GoodNames(show, a);
        GoodNames(show, b);
      }
    }
  }

  // ---------------------------------------------------------------- services

  /** The dependency names of two services together, sorted. */
  method MergeDependencies(base: Json, other: Json) returns (r: seq<Json>)
    ensures forall x :: x in r <==> x.Str? && (x in ListOf(base, "depends_on") || x in ListOf(other, "depends_on"))
  {
    var all := ListOf(base, "depends_on") + ListOf(other, "depends_on");
    var names: set<string> := {};
    for i := 0 to |all|
      invariant forall n :: n in names <==> Str(n) in all[..i]
    {
      assert all[..i + 1] == all[..i] + [all[i]];
      if all[i].Str? { names := names + {all[i].s}; }
    }
    assert all[..|all|] == all;
    var keys := SortedIds(names);
    r := seq(|keys|, i requires 0 <= i < |keys| => Str(keys[i]));
    forall x ensures x in r <==> x.Str? && x in all {
      if x in r {
        var i :| 0 <= i < |r| && r[i] == x;
        assert keys[i] in Members(keys);
      }
      if x.Str? && x in all {
        assert x.s in Members(keys);
        var i :| 0 <= i < |keys| && keys[i] == x.s;
        assert r[i] == x;
      }
    }
  }

  /** Two services of the same name: the base one, with the other's new APIs and dependencies added. */
  method MergeService(show: Json -> string, existing: Fields, other: Fields) returns (r: Fields)
    ensures "apis" in r && "depends_on" in r && r == existing["apis" := r["apis"]]["depends_on" := r["depends_on"]]
    ensures MergedApis(show, ListOf(Obj(existing), "apis"), ListOf(Obj(other), "apis"), ListOf(Obj(r), "apis"))
    ensures ServiceApis(show, Obj(existing)) <= ServiceApis(show, Obj(r))
         <= ServiceApis(show, Obj(existing)) + ServiceApis(show, Obj(other))
    ensures GoodService(Obj(existing)) && GoodService(Obj(other)) ==>
      GoodService(Obj(r)) && ServiceApis(show, Obj(r))
        == ServiceApis(show, Obj(existing)) + ServiceApis(show, Obj(other))
    ensures forall n :: Str(n) in ListOf(Obj(r), "depends_on") <==>
              Str(n) in ListOf(Obj(existing), "depends_on") || Str(n) in ListOf(Obj(other), "depends_on")
  {
    hide GoodApi, Names;
    var apis := MergeApis(show, ListOf(Obj(existing), "apis"), ListOf(Obj(other), "apis"));
    var dependencies := MergeDependencies(Obj(existing), Obj(other));
    r := existing["apis" := Arr(apis)]["depends_on" := Arr(dependencies)];
  }

  predicate AllGood(xs: seq<Json>) { forall x :: x in xs ==> GoodService(x) }

  ghost predicate GoodFiled(m: map<string, Fields>) { forall k :: k in m ==> GoodService(Obj(m[k])) }

  lemma GoodFiledAll(xs: seq<Json>)
    requires AllGood(xs)
    ensures GoodFiled(FileAll(Services, xs))
  {
    hide Key, Normal, FileAll, GoodApi;
    forall k | k in FileAll(Services, xs) ensures GoodService(Obj(FileAll(Services, xs)[k])) {
      FiledAt(Services, xs, k);
      LastNamedIs(Services, xs, k);
      NormalFacts(_ => "", Services, LastNamed(Services, xs, k).value);
    }
  }

  /**
   * Merging keeps what filing the base list keeps, and adds nothing but what the other list has. Where
   * API names are plain it keeps all of the other list too, however often names repeat there.
   */
  method MergeServices(show: Json -> string, base: seq<Json>, other: seq<Json>) returns (r: seq<Json>)
    requires AllNamed(base) && AllNamed(other)
    ensures Kept(show, Services, base) <= ServicesApis(show, r)
      <= Kept(show, Services, base) + ServicesApis(show, other)
    ensures AllGood(base) && AllGood(other) ==>
      AllGood(r) && ServicesApis(show, r) == Kept(show, Services, base) + ServicesApis(show, other)
    ensures UniqueKeys(Services, r) && AllNamed(r) && InNameOrder(r)
    ensures forall k :: HasKey(Services, r, k) <==> HasKey(Services, base, k) || HasKey(Services, other, k)
  {
    hide Key, Normal, Apis, Filed, Named, GoodService, FileAll, Kept;
    var m := FileEntries(Services, base);
    StartServices(show, base);
    m := AddServices(show, m, other);
    r := SortedValues(m);
    ValuesApis(show, Services, m, r);
    AllApisAre(show, r);
    AllApisAre(show, other);
    ValuesKeys(Services, m, r);
    if GoodFiled(m) { GoodValues(m, r); }
  }

  lemma GoodValues(m: map<string, Fields>, r: seq<Json>)
    requires GoodFiled(m) && ValuesOf(m, r)
    ensures AllGood(r)
  {
    hide GoodService;
  }

  method AddServices(show: Json -> string, m: map<string, Fields>, other: seq<Json>) returns (r: map<string, Fields>)
    requires WellFiled(m) && AllNamed(other)
    ensures WellFiled(r) && forall k :: k in r <==> k in m || HasKey(Services, other, k)
    ensures Filed(show, Services, m) <= Filed(show, Services, r)
      <= Filed(show, Services, m) + AllApis(show, Services, other)
    ensures GoodFiled(m) && AllGood(other) ==>
      GoodFiled(r) && Filed(show, Services, r) == Filed(show, Services, m) + AllApis(show, Services, other)
  {
    hide Key, Normal, Apis, Filed, Named, GoodService, WellFiled, GoodFiled;
    ghost var good := GoodFiled(m) && AllGood(other);
    r := m;
    for i := 0 to |other|
      invariant WellFiled(r) && (good ==> GoodFiled(r))
      invariant Filed(show, Services, m) <= Filed(show, Services, r)
        <= Filed(show, Services, m) + AllApis(show, Services, other[..i])
      invariant good ==> Filed(show, Services, r) == Filed(show, Services, m) + AllApis(show, Services, other[..i])
      invariant forall k :: k in r <==> k in m || HasKey(Services, other[..i], k)
    {
      ListsNext(show, Services, other, i);
      assert other[i] in other;
      r := AddService(show, r, other[i]);
    }
    assert other[..|other|] == other;
  }

  /** Files a service of the other list: under a new name as it is, else merged into the one that is there. */
  method AddService(show: Json -> string, m: map<string, Fields>, service: Json) returns (r: map<string, Fields>)
    requires WellFiled(m) && Named(service)
    ensures WellFiled(r) && r.Keys == m.Keys + {Key(Services, service)}
    ensures Filed(show, Services, m) <= Filed(show, Services, r)
      <= Filed(show, Services, m) + Apis(show, Services, service)
    ensures GoodFiled(m) && GoodService(service) ==>
      GoodFiled(r) && Filed(show, Services, r) == Filed(show, Services, m) + Apis(show, Services, service)
  {
    hide Key, Normal, Apis, Filed, Named, GoodService;
    var normal := Normal(Services, service);
    NormalFacts(show, Services, service);
    GoodNormal(service);
    var name := NameOf(normal);
    var merged := normal;
    if name in m { merged := MergeService(show, m[name], normal); }
    ServiceLevel(show);
    FiledUpdate(show, Services, m, name, merged, Apis(show, Services, service));
    r := m[name := merged];
  }

  lemma ServiceLevel(show: Json -> string)
    ensures forall j :: Apis(show, Services, j) == ServiceApis(show, j)
  {}

  lemma GoodNormal(j: Json)
    ensures NameOf(Normal(Services, j)) == Key(Services, j)
    ensures GoodService(j) ==> GoodService(Obj(Normal(Services, j)))
  {
    NormalFacts(_ => "", Services, j);
  }

  lemma ListsNext(show: Json -> string, l: Level, xs: seq<Json>, i: nat)
    requires i < |xs|
    ensures AllApis(show, l, xs[..i + 1]) == AllApis(show, l, xs[..i]) + Apis(show, l, xs[i])
    ensures forall k :: HasKey(l, xs[..i + 1], k) <==> HasKey(l, xs[..i], k) || k == Key(l, xs[i])
  {
    hide Apis, Key;
    assert xs[..i + 1] == xs[..i] + [xs[i]];
    forall k ensures HasKey(l, xs[..i + 1], k) <==> HasKey(l, xs[..i], k) || k == Key(l, xs[i]) {
      if x :| x in xs[..i] && Key(l, x) == k { assert x in xs[..i + 1]; }
      assert xs[i] in xs[..i + 1];
    }
  }

  lemma StartServices(show: Json -> string, base: seq<Json>)
    requires AllNamed(base)
    ensures var m := FileAll(Services, base);
      && WellFiled(m) && (AllGood(base) ==> GoodFiled(m))
      && Filed(show, Services, m) == Kept(show, Services, base)
      && forall k :: k in m <==> HasKey(Services, base, k)
  {
    FiledWell(Services, base);
    FiledIsKept(show, Services, base);
    if AllGood(base) { GoodFiledAll(base); }
    hide Key, Normal, FileAll, Kept, Filed, GoodService, LastNamed;
    forall k ensures k in FileAll(Services, base) <==> HasKey(Services, base, k) {
      FiledAt(Services, base, k);
      LastNamedIs(Services, base, k);
    }
  }
}
