/**
 * Domain crossover: merging the domains of two parents, and exactly which API names of a parent its
 * child loses because entries of one name overwrite each other.
 */
module DomainCrossover {
  import opened Order
  import opened Json
  import opened Isr
  import opened CrossoverRecords
  import opened ServiceMerging

  // ---------------------------------------------------------------- what becomes of one domain name

  function ServicesOf(domain: Json): seq<Json> { ListOf(domain, "services") }

  /** Domain names and the names of their services are strings. */
  predicate NamedDomain(domain: Json) { Named(domain) && AllNamed(ServicesOf(domain)) }

  predicate AllNamedDomains(domains: seq<Json>) { forall d :: d in domains ==> NamedDomain(d) }

  predicate GoodDomain(domain: Json) { AllGood(ServicesOf(domain)) }

  predicate AllGoodDomains(domains: seq<Json>) { forall d :: d in domains ==> GoodDomain(d) }

  /**
   * What is filed under one name: nothing, a domain as it was given, or a merge. `own` are the API names
   * a merge certainly has, those its first domain kept; `all` adds those of the domains merged into it.
   */
  datatype Slot = Empty | Given(domain: Json) | Merged(own: set<string>, all: set<string>)

  ghost function SlotOf(show: Json -> string, base: seq<Json>, other: seq<Json>, k: string): Slot
    decreases |other|
  {
    if other == [] then
      var d := LastNamed(Domains, base, k);
      if d.None? then Empty else Given(d.value)
    else Placed(show, SlotOf(show, base, other[..|other| - 1], k), other[|other| - 1], k)
  }

  ghost function Placed(show: Json -> string, slot: Slot, domain: Json, k: string): Slot {
    if Key(Domains, domain) != k then slot
    else
      match slot
      case Empty => Given(domain)
      case Given(first) =>
        var own := Kept(show, Services, ServicesOf(first));
        Merged(own, own + DomainApis(show, domain))
      case Merged(own, all) => Merged(own, all + DomainApis(show, domain))
  }

  ghost function Certain(show: Json -> string, slot: Slot): set<string> {
    match slot case Empty => {} case Given(d) => DomainApis(show, d) case Merged(own, _) => own
  }

  ghost function Possible(show: Json -> string, slot: Slot): set<string> {
    match slot case Empty => {} case Given(d) => DomainApis(show, d) case Merged(_, all) => all
  }

  /** The API names after merging, computed from the two lists; exact where API names are plain. */
  ghost function AfterMerge(show: Json -> string, base: seq<Json>, other: seq<Json>): set<string> {
    set d, n | d in base + other && n in Possible(show, SlotOf(show, base, other, Key(Domains, d))) :: n
  }

  /** The API names of the base list that no entry of the same name overwrites. */
  ghost function KeptOfBase(show: Json -> string, base: seq<Json>, other: seq<Json>): set<string> {
    set d, n | d in base && Survives(Domains, base, d)
      && n in KeptIn(show, d, HasKey(Domains, other, Key(Domains, d))) :: n
  }

  /** A domain that the other list names too has its services filed, so the last of a service name wins. */
  ghost function KeptIn(show: Json -> string, domain: Json, merged: bool): set<string> {
    if merged then Kept(show, Services, ServicesOf(domain)) else DomainApis(show, domain)
  }

  /** The API names of overwritten domains, and of overwritten services in domains that are merged. */
  ghost function OverwrittenOfBase(show: Json -> string, base: seq<Json>, other: seq<Json>): set<string> {
    Overwritten(show, Domains, base) +
    (set d, n | d in base && Survives(Domains, base, d) && HasKey(Domains, other, Key(Domains, d))
                && n in Overwritten(show, Services, ServicesOf(d)) :: n)
  }

  lemma KeptOrLost(show: Json -> string, base: seq<Json>, other: seq<Json>)
    ensures DomainsApis(show, base) == KeptOfBase(show, base, other) + OverwrittenOfBase(show, base, other)
  {
    hide Kept, Survives, HasKey, Key, DomainApis;
    forall d
      ensures DomainApis(show, d) == Kept(show, Services, ServicesOf(d)) + Overwritten(show, Services, ServicesOf(d))
    {
      DomainApisAre(show, d);
      AllApisAre(show, ServicesOf(d));
      KeptOrOverwritten(show, Services, ServicesOf(d));
    }
    DomainLevel(show);
    hide Overwritten;
    forall n | n in DomainsApis(show, base)
      ensures n in KeptOfBase(show, base, other) + OverwrittenOfBase(show, base, other)
    {
      var d :| d in base && n in DomainApis(show, d);
      OverwrittenHas(show, base, d, n);
      if Survives(Domains, base, d) && n in KeptIn(show, d, HasKey(Domains, other, Key(Domains, d))) {
        assert n in KeptOfBase(show, base, other);
      }
    }
    forall n | n in KeptOfBase(show, base, other) ensures n in DomainsApis(show, base) {
      var d :| d in base && Survives(Domains, base, d) && n in KeptIn(show, d, HasKey(Domains, other, Key(Domains, d)));
      assert n in DomainApis(show, d);
    }
    forall n | n in OverwrittenOfBase(show, base, other) ensures n in DomainsApis(show, base) {
      if n in Overwritten(show, Domains, base) {
        var d := OverwrittenFrom(show, base, n);
      }
    }
  }

  lemma DomainLevel(show: Json -> string)
    ensures forall j :: Apis(show, Domains, j) == DomainApis(show, j)
  {}

  lemma OverwrittenHas(show: Json -> string, base: seq<Json>, d: Json, n: string)
    requires d in base && n in DomainApis(show, d)
    ensures !Survives(Domains, base, d) ==> n in Overwritten(show, Domains, base)
  {
    DomainLevel(show);
    hide Survives, DomainApis, Apis;
  }

  lemma OverwrittenFrom(show: Json -> string, base: seq<Json>, n: string) returns (d: Json)
    requires n in Overwritten(show, Domains, base)
    ensures d in base && n in DomainApis(show, d)
  {
    DomainLevel(show);
    hide Survives, DomainApis, Apis;
    d :| d in base && !Survives(Domains, base, d) && n in Apis(show, Domains, d);
  }

  // ---------------------------------------------------------------- merging domains

  /** A shared domain: the one filed, with the other's services merged into its filed services. */
  method MergeDomain(show: Json -> string, existing: Fields, other: Fields) returns (r: Fields)
    requires AllNamed(ServicesOf(Obj(existing))) && AllNamed(ServicesOf(Obj(other)))
    ensures "services" in r && r == existing["services" := r["services"]]
    ensures var kept := Kept(show, Services, ServicesOf(Obj(existing)));
      && kept <= DomainApis(show, Obj(r)) <= kept + DomainApis(show, Obj(other))
      && (GoodDomain(Obj(existing)) && GoodDomain(Obj(other)) ==>
          GoodDomain(Obj(r)) && DomainApis(show, Obj(r)) == kept + DomainApis(show, Obj(other)))
    ensures AllNamed(ServicesOf(Obj(r))) && UniqueKeys(Services, ServicesOf(Obj(r)))
  {
    hide ServicesApis, Kept, Named, Key, GoodService;
    var services := MergeServices(show, ServicesOf(Obj(existing)), ServicesOf(Obj(other)));
    r := existing["services" := Arr(services)];
  }

  /** The entry filed under `k` is what the slot says. */
  ghost predicate Matches(show: Json -> string, good: bool, slot: Slot, m: map<string, Fields>, k: string) {
    match slot
    case Empty => k !in m
    case Given(d) => k in m && m[k] == Normal(Domains, d) && NamedDomain(d) && (good ==> GoodDomain(d))
    case Merged(own, all) =>
      && k in m && AllNamed(ServicesOf(Obj(m[k]))) && UniqueKeys(Services, ServicesOf(Obj(m[k])))
      && own <= DomainApis(show, Obj(m[k])) <= all
      && (good ==> GoodDomain(Obj(m[k])) && DomainApis(show, Obj(m[k])) == all)
  }

  ghost predicate AllMatch(show: Json -> string, good: bool, base: seq<Json>, other: seq<Json>, m: map<string,
                           Fields>) {
    forall k :: Matches(show, good, SlotOf(show, base, other, k), m, k)
  }

  lemma StartDomains(show: Json -> string, base: seq<Json>, good: bool)
    requires AllNamedDomains(base) && (good ==> AllGoodDomains(base))
    ensures WellFiled(FileAll(Domains, base)) && AllMatch(show, good, base, [], FileAll(Domains, base))
  {
    assert AllNamed(base);
    FiledWell(Domains, base);
    hide Key, Normal, FileAll, Named, AllNamed, GoodDomain, LastNamed;
    forall k ensures Matches(show, good, SlotOf(show, base, [], k), FileAll(Domains, base), k) {
      FiledAt(Domains, base, k);
      LastNamedIs(Domains, base, k);
    }
  }

  /** Files a domain of the other list: under a new name as it is, else merged into the one that is there. */
  method AddDomain(show: Json -> string, m: map<string, Fields>, domain: Json, ghost good: bool, ghost slot: Slot)
    returns (r: map<string, Fields>)
    requires WellFiled(m) && NamedDomain(domain) && (good ==> GoodDomain(domain))
    requires Matches(show, good, slot, m, Key(Domains, domain))
    ensures WellFiled(r) && r.Keys == m.Keys + {Key(Domains, domain)}
    ensures forall k :: k in m && k != Key(Domains, domain) ==> r[k] == m[k]
    ensures Matches(show, good, Placed(show, slot, domain, Key(Domains, domain)), r, Key(Domains, domain))
  {
    hide Key, Kept, DomainApis, UniqueKeys, GoodService, Named;
    var normal := Normal(Domains, domain);
    DomainFacts(show, domain);
    var name := NameOf(normal);
    if name !in m {
      r := m[name := normal];
    } else {
      ghost var existing := Obj(m[name]);
      if slot.Given? {
        DomainFacts(show, slot.domain);
      } else {
        UniqueSurvive(show, Services, ServicesOf(existing));
        AllApisAre(show, ServicesOf(existing));
        assert Kept(show, Services, ServicesOf(existing)) == DomainApis(show, existing) by {
          DomainApisAre(show, existing);
        }
      }
      var merged := MergeDomain(show, m[name], normal);
      r := m[name := merged];
    }
  }

  lemma DomainApisAre(show: Json -> string, domain: Json)
    ensures DomainApis(show, domain) == ServicesApis(show, ServicesOf(domain))
  {}

  lemma DomainFacts(show: Json -> string, domain: Json)
    ensures var n := Obj(Normal(Domains, domain));
      && NameOf(n.fields) == Key(Domains, domain)
      && (Named(domain) ==> "name" in n.fields && n.fields["name"] == Str(Key(Domains, domain)))
      && ServicesOf(n) == ServicesOf(domain) && DomainApis(show, n) == DomainApis(show, domain)
  {
    NormalFacts(show, Domains, domain);
  }

  /** Merging files the base list, the last of a name winning, and then merges the other list into it. */
  method MergeDomains(show: Json -> string, base: seq<Json>, other: seq<Json>) returns (r: seq<Json>)
    requires AllNamedDomains(base) && AllNamedDomains(other)
    ensures KeptOfBase(show, base, other) <= DomainsApis(show, r) <= AfterMerge(show, base, other)
    ensures AllGoodDomains(base) && AllGoodDomains(other) ==> DomainsApis(show, r) == AfterMerge(show, base, other)
    ensures InNameOrder(r)
    ensures forall k :: HasKey(Domains, r, k) <==> HasKey(Domains, base, k) || HasKey(Domains, other, k)
  {
    hide Key, Normal, NamedDomain, GoodDomain, Matches, Placed, FileAll;
    ghost var good := AllGoodDomains(base) && AllGoodDomains(other);
    StartDomains(show, base, good);
    var m := FileEntries(Domains, base);
    for i := 0 to |other|
      invariant WellFiled(m) && AllMatch(show, good, base, other[..i], m)
    {
      assert other[..i + 1][..i] == other[..i];
      assert other[i] in other;
      ghost var before := m;
      m := AddDomain(show, m, other[i], good, SlotOf(show, base, other[..i], Key(Domains, other[i])));
      NextSlots(show, good, base, other, i, before, m);
    }
    assert other[..|other|] == other;
    r := SortedValues(m);
    ValuesApis(show, Domains, m, r);
    AllApisAre(show, r);
    ValuesKeys(Domains, m, r);
    MatchedApis(show, good, base, other, m);
  }

  lemma NextSlots(show: Json -> string, good: bool, base: seq<Json>, other: seq<Json>, i: nat,
                  m: map<string, Fields>, m': map<string, Fields>)
    requires i < |other| && AllMatch(show, good, base, other[..i], m)
    requires var k := Key(Domains, other[i]);
      && m'.Keys == m.Keys + {k} && (forall j :: j in m && j != k ==> m'[j] == m[j])
      && Matches(show, good, Placed(show, SlotOf(show, base, other[..i], k), other[i], k), m', k)
    ensures AllMatch(show, good, base, other[..i + 1], m')
  {
    hide Key, Kept, DomainApis, UniqueKeys, GoodDomain, Named, AllNamed, Normal, NamedDomain;
    var next := other[..i + 1];
    assert next[..i] == other[..i];
    forall k ensures Matches(show, good, SlotOf(show, base, next, k), m', k) {
      if k != Key(Domains, other[i]) {
        assert Matches(show, good, SlotOf(show, base, other[..i], k), m, k);
        assert k in m' <==> k in m;
      }
    }
  }

  lemma {:induction false} SlotCases(show: Json -> string, base: seq<Json>, other: seq<Json>, k: string)
    ensures SlotOf(show, base, other, k).Empty? <==> !HasKey(Domains, base, k) && !HasKey(Domains, other, k)
    ensures LastNamed(Domains, base, k).Some? ==>
      Certain(show, SlotOf(show, base, other, k))
        == KeptIn(show, LastNamed(Domains, base, k).value, HasKey(Domains, other, k))
    ensures LastNamed(Domains, base, k).Some? ==>
      (SlotOf(show, base, other, k) == Given(LastNamed(Domains, base, k).value) <==> !HasKey(Domains, other, k))
      && (SlotOf(show, base, other, k).Merged? <==> HasKey(Domains, other, k))
    decreases |other|
  {
    hide Key, Kept, DomainApis, LastNamed;
    LastNamedIs(Domains, base, k);
    if other != [] {
      var n := |other| - 1;
      SlotCases(show, base, other[..n], k);
      ListsNext(show, Domains, other, n);
      assert other[..n + 1] == other;
      var slot := SlotOf(show, base, other[..n], k);
      assert SlotOf(show, base, other, k) == Placed(show, slot, other[n], k);
      if Key(Domains, other[n]) == k {
        assert HasKey(Domains, other, k);
        assert slot.Given? ==>
          Certain(show, Placed(show, slot, other[n], k)) == Kept(show, Services, ServicesOf(slot.domain));
      }
    }
  }

  lemma MatchedApis(show: Json -> string, good: bool, base: seq<Json>, other: seq<Json>, m: map<string, Fields>)
    requires AllMatch(show, good, base, other, m)
    ensures KeptOfBase(show, base, other) <= Filed(show, Domains, m) <= AfterMerge(show, base, other)
    ensures good ==> Filed(show, Domains, m) == AfterMerge(show, base, other)
    ensures forall k :: k in m <==> HasKey(Domains, base, k) || HasKey(Domains, other, k)
  {
    hide Key, Kept, DomainApis, UniqueKeys, GoodDomain, Named, AllNamed, Normal, SlotOf, LastNamed, KeptIn;
    forall k
      ensures k in m <==> HasKey(Domains, base, k) || HasKey(Domains, other, k)
      ensures k in m ==> Certain(show, SlotOf(show, base, other, k)) <= Apis(show, Domains, Obj(m[k]))
                           <= Possible(show, SlotOf(show, base, other, k))
      ensures k in m && good ==> Apis(show, Domains, Obj(m[k])) == Possible(show, SlotOf(show, base, other, k))
    {
      SlotCases(show, base, other, k);
      MatchedEntry(show, good, SlotOf(show, base, other, k), m, k);
    }
    FiledBetween(show, base, other, m);
    forall n | n in KeptOfBase(show, base, other) ensures n in Filed(show, Domains, m) {
      var d :| d in base && Survives(Domains, base, d) && n in KeptIn(show, d, HasKey(Domains, other, Key(Domains, d)));
      var k := Key(Domains, d);
      SlotCases(show, base, other, k);
      assert HasKey(Domains, base, k);
      assert n in Apis(show, Domains, Obj(m[k]));
    }
  }

  lemma MatchedEntry(show: Json -> string, good: bool, slot: Slot, m: map<string, Fields>, k: string)
    requires Matches(show, good, slot, m, k)
    ensures k in m <==> !slot.Empty?
    ensures k in m ==> Certain(show, slot) <= Apis(show, Domains, Obj(m[k])) <= Possible(show, slot)
    ensures k in m && good ==> Apis(show, Domains, Obj(m[k])) == Possible(show, slot)
  {
    hide DomainApis, UniqueKeys, GoodDomain, Named, AllNamed;
    if slot.Given? { DomainFacts(show, slot.domain); }
  }

  lemma FiledBetween(show: Json -> string, base: seq<Json>, other: seq<Json>, m: map<string, Fields>)
    requires forall k :: k in m <==> HasKey(Domains, base, k) || HasKey(Domains, other, k)
    requires forall k :: k in m ==> Apis(show, Domains, Obj(m[k])) <= Possible(show, SlotOf(show, base, other, k))
    ensures Filed(show, Domains, m) <= AfterMerge(show, base, other)
    ensures (forall k :: k in m ==> Apis(show, Domains, Obj(m[k])) == Possible(show, SlotOf(show, base, other, k))) ==>
      Filed(show, Domains, m) == AfterMerge(show, base, other)
  {
    hide Key, Apis, Possible, SlotOf;
    forall n | n in Filed(show, Domains, m) ensures n in AfterMerge(show, base, other) {
      var k :| k in m && n in Apis(show, Domains, Obj(m[k]));
      if d :| d in base && Key(Domains, d) == k { assert d in base + other; }
      if d :| d in other && Key(Domains, d) == k { assert d in base + other; }
    }
    if forall k :: k in m ==> Apis(show, Domains, Obj(m[k])) == Possible(show, SlotOf(show, base, other, k)) {
      forall n | n in AfterMerge(show, base, other) ensures n in Filed(show, Domains, m) {
        var d :| d in base + other && n in Possible(show, SlotOf(show, base, other, Key(Domains, d)));
        assert Key(Domains, d) in m;
      }
    }
  }

  // ---------------------------------------------------------------- the operator

  function DomainsOf(parent: Fields): seq<Json> { ListOf(Obj(parent), "domains") }

  ghost function TopApis(show: Json -> string, parent: Fields): set<string> {
    ServicesApis(show, ListOf(Obj(parent), "services"))
  }

  /** What merging and copying guarantee about the API names of a child of `parent`. */
  ghost predicate ChildApis(show: Json -> string, parent: Fields, partner: Fields, names: set<string>) {
    var base, other := DomainsOf(parent), DomainsOf(partner);
    && KeptOfBase(show, base, other) + TopApis(show, parent) <= names
      <= AfterMerge(show, base, other) + TopApis(show, parent)
    && (AllGoodDomains(base) && AllGoodDomains(other) ==>
        names == AfterMerge(show, base, other) + TopApis(show, parent))
  }

  /** One child: the parent's copy with the domains of both, and one more crossover record. */
  method Child(show: Json -> string, parent: Fields, partner: Fields, context: Context,
               role: string) returns (child: Option<Fields>)
    requires AllNamedDomains(DomainsOf(parent)) && AllNamedDomains(DomainsOf(partner))
    ensures child.None? <==> Recorded(parent, CrossoverRecord("domain", context, role)).None?
    ensures child.Some? ==>
      && "domains" in child.value && ChildApis(show, parent, partner, ApiNames(show, Obj(child.value)))
      && child == Recorded(parent["domains" := child.value["domains"]], CrossoverRecord("domain", context, role))
  {
    hide DomainsApis, ServicesApis, NamedDomain, GoodDomain, KeptOfBase, AfterMerge, Recorded, CrossoverRecord;
    var domains := MergeDomains(show, DomainsOf(parent), DomainsOf(partner));
    var copy, record := parent["domains" := Arr(domains)], CrossoverRecord("domain", context, role);
    RecordedAgrees(copy, parent, record);
    child := Recorded(copy, record);
  }

  /** Both children, or None where recording the crossover raises. */
  method Recombine(show: Json -> string, parentA: Fields, parentB: Fields, context: Context)
    returns (children: Option<(Fields, Fields)>)
    requires AllNamedDomains(DomainsOf(parentA)) && AllNamedDomains(DomainsOf(parentB))
    ensures children.None? <==>
      || Recorded(parentA, CrossoverRecord("domain", context, "domain_child_one")).None?
      || Recorded(parentB, CrossoverRecord("domain", context, "domain_child_two")).None?
    ensures children.Some? ==>
      && ChildApis(show, parentA, parentB, ApiNames(show, Obj(children.value.0)))
      && ChildApis(show, parentB, parentA, ApiNames(show, Obj(children.value.1)))
  {
    hide ApiNames, ChildApis, AllNamedDomains, Recorded, CrossoverRecord;
    var one := Child(show, parentA, parentB, context, "domain_child_one");
    if one.None? { return None; }
    var two := Child(show, parentB, parentA, context, "domain_child_two");
    if two.None? { return None; }
    children := Some((one.value, two.value));
  }

  // ---------------------------------------------------------------- what a child loses

  /**
   * A child loses no API name of its own parent if and only if every API name of an overwritten entry
   * still occurs in the child.
   */
  lemma LosesNothingIff(show: Json -> string, parent: Fields, partner: Fields, names: set<string>)
    requires ChildApis(show, parent, partner, names)
    ensures ApiNames(show, Obj(parent)) <= names
      <==> OverwrittenOfBase(show, DomainsOf(parent), DomainsOf(partner)) <= names
  {
    KeptOrLost(show, DomainsOf(parent), DomainsOf(partner));
    hide KeptOfBase, OverwrittenOfBase, AfterMerge, DomainsApis, ServicesApis;
  }

  /** Where API names are plain, that can be read off the parents before recombining them. */
  lemma LosesNothingIffBefore(show: Json -> string, parent: Fields, partner: Fields, names: set<string>)
    requires ChildApis(show, parent, partner, names)
    requires AllGoodDomains(DomainsOf(parent)) && AllGoodDomains(DomainsOf(partner))
    ensures ApiNames(show, Obj(parent)) <= names <==>
      OverwrittenOfBase(show, DomainsOf(parent), DomainsOf(partner))
        <= AfterMerge(show, DomainsOf(parent), DomainsOf(partner)) + TopApis(show, parent)
  {
    LosesNothingIff(show, parent, partner, names);
    hide KeptOfBase, OverwrittenOfBase, AfterMerge, ApiNames, TopApis;
  }

  /** Domain names are unique in the payload, and service names within each domain. */
  predicate UniqueNames(domains: seq<Json>) {
    UniqueKeys(Domains, domains) && forall d :: d in domains ==> UniqueKeys(Services, ServicesOf(d))
  }

  /**
   * With unique names a child has every API name of its own parent, so the verifier reports none as
   * removed; with plain API names and a partner with unique names, it has exactly those of its parent and
   * those of the partner's domains.
   */
  lemma UniqueNamesLoseNothing(show: Json -> string, parent: Fields, partner: Fields, names: set<string>)
    requires ChildApis(show, parent, partner, names) && UniqueNames(DomainsOf(parent))
    ensures ApiNames(show, Obj(parent)) - names == {}
    ensures UniqueNames(DomainsOf(partner)) && AllGoodDomains(DomainsOf(parent) + DomainsOf(partner)) ==>
      names == ApiNames(show, Obj(parent)) + DomainsApis(show, DomainsOf(partner))
  {
    var base, other := DomainsOf(parent), DomainsOf(partner);
    UniqueOverwritesNothing(show, base, other);
    LosesNothingIff(show, parent, partner, names);
    if UniqueNames(other) && AllGoodDomains(base + other) {
      assert AllGoodDomains(base) && AllGoodDomains(other);
      UniqueMerge(show, base, other);
    }
    hide KeptOfBase, OverwrittenOfBase, AfterMerge, ServicesApis, DomainsApis, UniqueNames, AllGoodDomains;
  }

  lemma UniqueOverwritesNothing(show: Json -> string, base: seq<Json>, other: seq<Json>)
    requires UniqueNames(base)
    ensures OverwrittenOfBase(show, base, other) == {}
  {
    UniqueSurvive(show, Domains, base);
    forall d | d in base ensures Overwritten(show, Services, ServicesOf(d)) == {} {
      UniqueSurvive(show, Services, ServicesOf(d));
    }
    hide Overwritten, Survives, HasKey, Key;
  }

  /** The API names of all domains called `k`. */
  ghost function ApisNamed(show: Json -> string, domains: seq<Json>, k: string): set<string> {
    set d, n | d in domains && Key(Domains, d) == k && n in DomainApis(show, d) :: n
  }

  lemma {:induction false} UniqueSlot(show: Json -> string, base: seq<Json>, other: seq<Json>, k: string)
    requires UniqueNames(base) && UniqueNames(other)
    ensures Possible(show, SlotOf(show, base, other, k)) == ApisNamed(show, base, k) + ApisNamed(show, other, k)
    decreases |other|
  {
    hide Key, DomainApis, Kept;
    LastNamedIs(Domains, base, k);
    if other == [] {
      UniqueLast(show, base, k);
    } else {
      var n := |other| - 1;
      var front, o := other[..n], other[n];
      assert other == front + [o];
      assert UniqueNames(front) by { hide UniqueKeys; UniqueFront(other); }
      UniqueSlot(show, base, front, k);
      if Key(Domains, o) == k {
        assert !HasKey(Domains, front, k);
        SlotCases(show, base, front, k);
        var slot := SlotOf(show, base, front, k);
        if slot.Given? {
          UniqueSurvive(show, Services, ServicesOf(slot.domain));
          AllApisAre(show, ServicesOf(slot.domain));
          DomainApisAre(show, slot.domain);
        }
      }
    }
  }

  lemma UniqueFront(domains: seq<Json>)
    requires domains != [] && UniqueNames(domains)
    ensures UniqueNames(domains[..|domains| - 1])
  {
    hide Key;
  }

  lemma UniqueLast(show: Json -> string, base: seq<Json>, k: string)
    requires UniqueKeys(Domains, base)
    ensures Possible(show, SlotOf(show, base, [], k)) == ApisNamed(show, base, k)
  {
    UniqueSurvive(show, Domains, base);
    LastNamedIs(Domains, base, k);
    hide Key, DomainApis, LastNamed;
  }

  lemma UniqueMerge(show: Json -> string, base: seq<Json>, other: seq<Json>)
    requires UniqueNames(base) && UniqueNames(other)
    ensures AfterMerge(show, base, other) == DomainsApis(show, base) + DomainsApis(show, other)
  {
    hide Key, DomainApis, SlotOf, Possible, UniqueNames;
    forall k
      ensures Possible(show, SlotOf(show, base, other, k)) == ApisNamed(show, base, k) + ApisNamed(show, other, k)
    {
      UniqueSlot(show, base, other, k);
    }
    forall n ensures n in AfterMerge(show, base, other) <==> n in DomainsApis(show, base) + DomainsApis(show, other) {
      if d :| d in base && n in DomainApis(show, d) {
        assert d in base + other && n in ApisNamed(show, base, Key(Domains, d));
      }
      if d :| d in other && n in DomainApis(show, d) {
        assert d in base + other && n in ApisNamed(show, other, Key(Domains, d));
      }
      if d :| d in base + other && n in Possible(show, SlotOf(show, base, other, Key(Domains, d))) {
        var k := Key(Domains, d);
        assert n in ApisNamed(show, base, k) || n in ApisNamed(show, other, k);
      }
    }
  }

  // ---------------------------------------------------------------- a repeated name

  const SERVICE_X: Json := Obj(map["name" := Str("s"), "apis" := Arr([Str("x")])])
  const DOMAIN_X: Json := Obj(map["name" := Str("d"), "services" := Arr([SERVICE_X])])

  lemma DoubledHasApi(show: Json -> string)
    ensures "x" in DomainsApis(show, [DOMAIN_X, Str("d")])
  {
    var base := [DOMAIN_X, Str("d")];
    assert DOMAIN_X == base[0] && ServicesOf(DOMAIN_X) == [SERVICE_X] && SERVICE_X in [SERVICE_X];
    assert ListOf(SERVICE_X, "apis") == [Str("x")] && Str("x") in [Str("x")];
    assert ApiName(show, Str("x")) == Some("x");
    assert "x" in ServiceApis(show, SERVICE_X);
    assert "x" in DomainApis(show, DOMAIN_X);
  }

  lemma DoubledKeepsNothing(show: Json -> string)
    ensures AfterMerge(show, [DOMAIN_X, Str("d")], []) == {}
  {
    var base := [DOMAIN_X, Str("d")];
    assert Key(Domains, DOMAIN_X) == "d" && Key(Domains, base[1]) == "d";
    assert LastNamed(Domains, base, "d") == Some(Str("d"));
    assert ServicesOf(Str("d")) == [] && DomainApis(show, Str("d")) == {};
    hide Key, DomainApis, LastNamed;
    forall d | d in base + [] ensures Possible(show, SlotOf(show, base, [], Key(Domains, d))) == {} {
      assert d == DOMAIN_X || d == Str("d");
    }
  }

  /**
   * A parent that lists domain "d" twice, the second time by name only, and has no services besides: every
   * child it has with a partner without domains has lost the parent's own public API "x".
   */
  lemma RepeatedDomainLosesApi(show: Json -> string, parent: Fields, partner: Fields, names: set<string>)
    requires DomainsOf(parent) == [DOMAIN_X, Str("d")] && ListOf(Obj(parent), "services") == []
    requires DomainsOf(partner) == [] && ChildApis(show, parent, partner, names)
    ensures "x" in ApiNames(show, Obj(parent)) && "x" !in names
  {
    assert TopApis(show, parent) == {};
    hide DomainsApis, AfterMerge, KeptOfBase, TopApis, AllGoodDomains;
    DoubledHasApi(show);
    DoubledKeepsNothing(show);
  }
}
