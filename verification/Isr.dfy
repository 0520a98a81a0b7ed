/** The services and public API names of an ISR payload, and the verifier that compares them. */
module Isr {
  import opened Order
  import opened Json

  /** `j.get(key, []) or []` for a list-valued key. */
  function ListOf(j: Json, key: string): seq<Json> {
    match Get(j, key)
    case Some(Arr(items)) => items
    case _ => []
  }

  /** The name an API entry contributes; `show` is Python's `str` for names that are not strings. */
  function ApiName(show: Json -> string, api: Json): Option<string> {
    match api
    case Str(s) => Some(s)
    case Obj(fields) =>
      if "name" in fields && Truthy(fields["name"]) then
        Some(if fields["name"].Str? then fields["name"].s else show(fields["name"]))
      else None
    case _ => None
  }

  ghost function Names(show: Json -> string, apis: seq<Json>): set<string> {
    set a | a in apis && ApiName(show, a).Some? :: ApiName(show, a).value
  }

  ghost function ServiceApis(show: Json -> string, service: Json): set<string> {
    Names(show, ListOf(service, "apis"))
  }

  ghost function ServicesApis(show: Json -> string, services: seq<Json>): set<string> {
    set s, n | s in services && n in ServiceApis(show, s) :: n
  }

  ghost function DomainApis(show: Json -> string, domain: Json): set<string> {
    ServicesApis(show, ListOf(domain, "services"))
  }

  ghost function DomainsApis(show: Json -> string, domains: seq<Json>): set<string> {
    set d, n | d in domains && n in DomainApis(show, d) :: n
  }

  /** The public API names: those of the services inside domains and those of top-level services. */
  ghost function ApiNames(show: Json -> string, isr: Json): set<string> {
    DomainsApis(show, ListOf(isr, "domains")) + ServicesApis(show, ListOf(isr, "services"))
  }

  method CollectService(show: Json -> string, service: Json, before: set<string>) returns (names: set<string>)
    ensures names == before + ServiceApis(show, service)
  {
    names := before;
    var apis := ListOf(service, "apis");
    for i := 0 to |apis|
      invariant names == before + Names(show, apis[..i])
    {
      assert apis[..i + 1] == apis[..i] + [apis[i]];
      var name := ApiName(show, apis[i]);
      if name.Some? { names := names + {name.value}; }
    }
    assert apis[..|apis|] == apis;
  }

  method CollectServices(show: Json -> string, services: seq<Json>, before: set<string>) returns (names: set<string>)
    ensures names == before + ServicesApis(show, services)
  {
    hide ServiceApis;
    names := before;
    for i := 0 to |services|
      invariant names == before + ServicesApis(show, services[..i])
    {
      assert services[..i + 1] == services[..i] + [services[i]];
      names := CollectService(show, services[i], names);
    }
    assert services[..|services|] == services;
  }

  lemma DomainsApisAppend(show: Json -> string, domains: seq<Json>, d: Json)
    ensures DomainsApis(show, domains + [d]) == DomainsApis(show, domains) + DomainApis(show, d)
  {
    hide DomainApis;
  }

  method CollectApiNames(show: Json -> string, isr: Json) returns (names: set<string>)
    ensures names == ApiNames(show, isr)
  {
    hide ServicesApis;
    names := {};
    var domains := ListOf(isr, "domains");
    for i := 0 to |domains|
      invariant names == DomainsApis(show, domains[..i])
    {
      assert domains[..i + 1] == domains[..i] + [domains[i]];
      DomainsApisAppend(show, domains[..i], domains[i]);
      names := CollectServices(show, ListOf(domains[i], "services"), names);
    }
    assert domains[..|domains|] == domains;
    names := CollectServices(show, ListOf(isr, "services"), names);
  }

  // ---------------------------------------------------------------- verification

  datatype Issue =
    | MissingField(name: string) | NoArchitecturalChange | MissingProvenance | PublicApiRemoved(names: set<string>)
  datatype Report = Report(issues: seq<Issue>, valid: bool)

  predicate HasField(isr: Json, name: string) {
    Get(isr, name).Some? && Truthy(Get(isr, name).value)
  }

  /** `evolution.get("mutations")` is there and not empty. */
  predicate HasProvenance(isr: Json) {
    HasField(isr, "evolution") && HasField(isr.fields["evolution"], "mutations")
  }

  lemma FieldsLack(isr: Json)
    ensures forall f :: HasField(isr, f) <==> !Lacks(isr, f)
    ensures HasProvenance(isr) <==> !Lacks(isr, "evolution") && !Lacks(isr.fields["evolution"], "mutations")
  {
    forall j ensures Truthy(j) <==> j !in FALSY { FalsyIsNotTruthy(j); }
    hide Truthy;
  }

  /** Only removed APIs are ever mere warnings, and only when breaking changes are allowed. */
  method NoErrors(issues: seq<Issue>, allowBreaking: bool) returns (valid: bool)
    ensures valid <==> forall i :: i in issues ==> i.PublicApiRemoved? && allowBreaking
  {
    for k := 0 to |issues|
      invariant forall i :: i in issues[..k] ==> i.PublicApiRemoved? && allowBreaking
    {
      if !(issues[k].PublicApiRemoved? && allowBreaking) { return false; }
      assert issues[..k + 1] == issues[..k] + [issues[k]];
    }
    assert issues[..|issues|] == issues;
    return true;
  }

  /**
   * The checks of the constitutional verifier. None where the program raises: `evolution` is
   * something other than a dictionary. Hashes are compared, not recomputed.
   */
  method Verify(show: Json -> string, isr: Json, contentHash: string, base: Json, baseHash: string, allowBreaking: bool)
    returns (r: Option<Report>)
    ensures r.None? <==> !Lacks(isr, "evolution") && !isr.fields["evolution"].Obj?
    ensures r.Some? ==>
      && (forall f :: MissingField(f) in r.value.issues <==> f in {"isr_id", "version", "name"} && Lacks(isr, f))
      && (NoArchitecturalChange in r.value.issues <==> contentHash == baseHash)
      && (MissingProvenance in r.value.issues <==>
            Lacks(isr, "evolution") || Lacks(isr.fields["evolution"], "mutations"))
      && (forall names :: PublicApiRemoved(names) in r.value.issues <==>
            names == ApiNames(show, base) - ApiNames(show, isr) && names != {})
      && (r.value.valid <==> forall i :: i in r.value.issues ==> i.PublicApiRemoved? && allowBreaking)
  {
    hide ApiNames;
    FieldsLack(isr);
    var issues: seq<Issue> := [];
    var required := ["isr_id", "version", "name"];
    for k := 0 to 3
      invariant forall f :: MissingField(f) in issues <==> f in required[..k] && !HasField(isr, f)
      invariant forall i :: i in issues ==> i.MissingField?
    {
      if !HasField(isr, required[k]) { issues := issues + [MissingField(required[k])]; }
    }
    assert required[..3] == required && forall f :: f in required <==> f in {"isr_id", "version", "name"};
    if contentHash == baseHash { issues := issues + [NoArchitecturalChange]; }
    if HasField(isr, "evolution") && !isr.fields["evolution"].Obj? { return None; }
    if !HasProvenance(isr) { issues := issues + [MissingProvenance]; }
    var baseNames := CollectApiNames(show, base);
    var candidateNames := CollectApiNames(show, isr);
    var removed := baseNames - candidateNames;
    if removed != {} { issues := issues + [PublicApiRemoved(removed)]; }
    var valid := NoErrors(issues, allowBreaking);
    return Some(Report(issues, valid));
  }
}
