/**
 One run of the registry tool reads the checked-in API registry, rebuilds every selected target and
 prints the registry again; its output is its own next input.
 */
module Regeneration {
  import opened Orders
  import opened Text
  import opened SdkNames
  import opened Mappings
  import opened ApiRegistry

  datatype Service = Service(service: string, group: string)

  /** What a run reads besides the old registry.  `structs` lists the SDK packages that are vendored. */
  datatype Inputs = Inputs(
    services: seq<Service>,
    apiSpecs: map<string, seq<ApiTypeInfo>>,
    structs: map<string, set<string>>,
    overrides: map<string, TargetOverride>,
    prefixes: map<string, string>)

  function SpecsOf(inp: Inputs, group: string): seq<ApiTypeInfo>
  {
    if group in inp.apiSpecs then inp.apiSpecs[group] else []
  }

  function OverrideOf(inp: Inputs, service: string, spec: string): TargetOverride
  {
    if Qualified(service, spec) in inp.overrides then inp.overrides[Qualified(service, spec)] else NO_OVERRIDE
  }

  function StructsOf(inp: Inputs, service: string): set<string>
  {
    if service in inp.structs then inp.structs[service] else {}
  }

  function Lookup(registry: Registry, key: string): SpecTarget
  {
    if key in registry then registry[key] else ZERO_TARGET
  }

  // ----- target names -----

  function Pascal(s: string, atStart: bool): string
  {
    if s == "" then ""
    else if s[0] == '_' || s[0] == '-' then Pascal(s[1..], true)
    else [if atStart && 'a' <= s[0] <= 'z' then s[0] - 'a' + 'A' else s[0]] + Pascal(s[1..], false)
  }

  function TargetName(prefixes: map<string, string>, group: string, spec: string): string
  {
    (if group in prefixes then prefixes[group] else Pascal(group, true)) + spec
  }

  /** A word without separators starts with a capital; separators are dropped, and words put together. */
  lemma PascalWord(w: string)
    requires w != "" && '_' !in w && '-' !in w
    ensures Pascal(w, true) == [if 'a' <= w[0] <= 'z' then w[0] - 'a' + 'A' else w[0]] + w[1..]
  {
    assert w == [w[0]] + w[1..];
    PascalRest(w[1..]);
  }

  lemma {:induction false} PascalRest(w: string)
    requires '_' !in w && '-' !in w
    ensures Pascal(w, false) == w
  {
    if w != "" {
      assert w == [w[0]] + w[1..];
      PascalRest(w[1..]);
    }
  }

  lemma {:induction false} PascalJoins(a: string, sep: char, b: string, atStart: bool)
    requires sep == '_' || sep == '-'
    ensures Pascal(a + [sep] + b, atStart) == Pascal(a, atStart) + Pascal(b, true)
  {
    var s := a + [sep] + b;
    if a == "" {
      assert s[1..] == b;
    } else {
      assert s[0] == a[0] && s[1..] == a[1..] + [sep] + b;
      PascalJoins(a[1..], sep, b, a[0] == '_' || a[0] == '-');
    }
  }

  // ----- building targets -----

  function Derived(inp: Inputs, svc: Service, spec: string): seq<string>
  {
    DerivedTypes(OverrideOf(inp, svc.service, spec).sdkTypes, spec,
                 TargetName(inp.prefixes, svc.group, spec), StructsOf(inp, svc.service))
  }

  ghost function TargetFor(inp: Inputs, svc: Service, info: ApiTypeInfo, registry: Registry): SpecTarget
  {
    var old_ := Lookup(registry, Key(svc.group, info.spec));
    SpecTarget(
      svc.service, svc.group, info.spec,
      if !Blank(info.status) then info.status else old_.status,
      if !Blank(old_.name) then old_.name else TargetName(inp.prefixes, svc.group, info.spec),
      MappingsOf(svc.service, Elems(Derived(inp, svc, info.spec)), old_.mappings,
          OverrideOf(inp, svc.service, info.spec)))
  }

  method BuildServiceTarget(inp: Inputs, svc: Service, info: ApiTypeInfo, registry: Registry) returns (t: SpecTarget)
    ensures t == TargetFor(inp, svc, info, registry)
  {
    hide UniqueByOrder, Considered, Blank, TypesIn;
    var old_ := Lookup(registry, Key(svc.group, info.spec));
    var targetName := TargetName(inp.prefixes, svc.group, info.spec);
    var override_ := OverrideOf(inp, svc.service, info.spec);
    var derived := DeriveSdkTypes(override_.sdkTypes, info.spec, targetName, StructsOf(inp, svc.service));
    var candidates := SdkCandidates(svc.service, derived, old_.mappings);
    var mappings := BuildSdkMappings(svc.service, candidates, override_, old_.mappings);
    CandidatesAbsorbExisting(svc.service, Elems(derived), old_.mappings, override_);
    t := SpecTarget(
      svc.service, svc.group, info.spec,
      if !Blank(info.status) then info.status else old_.status,
      if !Blank(old_.name) then old_.name else targetName,
      mappings);
  }

  ghost function ServiceTargets(
    inp: Inputs, svc: Service, infos: seq<ApiTypeInfo>, registry: Registry): (ts: seq<SpecTarget>)
    ensures |ts| == |infos|
    ensures forall i :: 0 <= i < |ts| ==> ts[i] == TargetFor(inp, svc, infos[i], registry)
  {
    seq(|infos|, i requires 0 <= i < |infos| => TargetFor(inp, svc, infos[i], registry))
  }

  ghost function AllTargets(inp: Inputs, services: seq<Service>, registry: Registry): seq<SpecTarget>
  {
    if services == [] then []
    else
      var n := |services| - 1;
      AllTargets(inp, services[..n], registry)
      + ServiceTargets(inp, services[n], SpecsOf(inp, services[n].group), registry)
  }

  /** The comparator of `sortSpecTargets`. */
  predicate TargetLess(a: SpecTarget, b: SpecTarget)
  {
    if a.group != b.group then GroupLess(a.group, b.group) else Less(a.name, b.name)
  }

  lemma TargetLessIsStrictWeak()
    ensures StrictWeak(TargetLess)
  {
    hide GroupLess, Less;
    GroupLessIsStrictTotal();
    LessIsStrictTotal();
  }

  ghost function Build(inp: Inputs, registry: Registry): Result<seq<SpecTarget>>
  {
    if forall svc :: svc in inp.services ==> svc.service in inp.structs
    then Ok(Sort(TargetLess, AllTargets(inp, inp.services, registry)))
    else Err("SDK package dir not found")
  }

  method BuildServiceTargets(inp: Inputs, svc: Service, registry: Registry) returns (ts: seq<SpecTarget>)
    ensures ts == ServiceTargets(inp, svc, SpecsOf(inp, svc.group), registry)
  {
    hide TargetFor;
    var infos := SpecsOf(inp, svc.group);
    ts := [];
    for k := 0 to |infos|
      invariant ts == ServiceTargets(inp, svc, infos[..k], registry)
    {
      var t := BuildServiceTarget(inp, svc, infos[k], registry);
      ts := ts + [t];
    }
    assert infos[..|infos|] == infos;
  }

  method BuildTargets(inp: Inputs, registry: Registry) returns (r: Result<seq<SpecTarget>>)
    ensures r == Build(inp, registry)
  {
    hide TargetFor, Sort, ServiceTargets;
    var out := [];
    for i := 0 to |inp.services|
      invariant out == AllTargets(inp, inp.services[..i], registry)
      invariant forall j :: 0 <= j < i ==> inp.services[j].service in inp.structs
    {
      var svc := inp.services[i];
      if svc.service !in inp.structs {
        return Err("SDK package dir not found");
      }
      var ts := BuildServiceTargets(inp, svc, registry);
      assert inp.services[..i + 1][..i] == inp.services[..i];
      out := out + ts;
    }
    assert inp.services[..|inp.services|] == inp.services;
    r := Ok(Sort(TargetLess, out));
  }

  /** One run: rebuild, print, and read back what was printed. */
  ghost function Regenerate(inp: Inputs, registry: Registry): Result<Registry>
  {
    match Build(inp, registry)
    case Err(msg) => Err(msg)
    case Ok(ts) => Parse(Render(ts))
  }

  // ----- which inputs the tool runs on -----

  /** The configuration refuses duplicate groups, specs come out of a map keyed by name, and groups are Go
      package names. */
  ghost predicate WellFormed(inp: Inputs) {
    && (forall i, j :: 0 <= i < j < |inp.services| ==> inp.services[i].group != inp.services[j].group)
    && (forall svc :: svc in inp.services ==> '.' !in svc.group)
    && (forall g :: g in inp.apiSpecs ==>
          forall i, j :: 0 <= i < j < |inp.apiSpecs[g]| ==> inp.apiSpecs[g][i].spec != inp.apiSpecs[g][j].spec)
  }

  /** The types that overrides and derivation bring into a target are read back safely. */
  ghost predicate SafeTarget(inp: Inputs, svc: Service, spec: string) {
    Safe(svc.service, Tracked(OverrideOf(inp, svc.service, spec), Elems(Derived(inp, svc, spec)), {}))
  }

  /** So are those of every target that is not emptied by an override. */
  ghost predicate SafeInputs(inp: Inputs) {
    forall svc, info :: svc in inp.services && info in SpecsOf(inp, svc.group) ==>
      OverrideOf(inp, svc.service, info.spec).emptySdkMappings || SafeTarget(inp, svc, info.spec)
  }

  /** Go identifiers have no trailing blanks: with such struct names and override types all inputs are safe. */
  lemma IdentifiersAreSafe(inp: Inputs)
    requires forall s :: s in inp.structs ==> TrimmedTypes(inp.structs[s])
    requires forall k :: k in inp.overrides ==> TrimmedTypes(OverrideTypes(inp.overrides[k]))
    ensures SafeInputs(inp)
  {
    hide SafeTarget, TrimmedTypes;
    forall svc, info | svc in inp.services && info in SpecsOf(inp, svc.group) ensures SafeTarget(inp, svc, info.spec) {
      IdentifiersAreSafeTarget(inp, svc, info.spec);
    }
  }

  lemma IdentifiersAreSafeTarget(inp: Inputs, svc: Service, spec: string)
    requires forall s :: s in inp.structs ==> TrimmedTypes(inp.structs[s])
    requires forall k :: k in inp.overrides ==> TrimmedTypes(OverrideTypes(inp.overrides[k]))
    ensures SafeTarget(inp, svc, spec)
  {
    hide Safe, TrimmedEnd, DerivedTypes, Considered, TargetName;
    var o := OverrideOf(inp, svc.service, spec);
    DerivedTypesSpec(o.sdkTypes, spec, TargetName(inp.prefixes, svc.group, spec), StructsOf(inp, svc.service));
    assert TrimmedTypes(OverrideTypes(o));
    TrimmedIsSafe(svc.service, Tracked(o, Elems(Derived(inp, svc, spec)), {}));
  }

  function OverrideTypes(o: TargetOverride): set<string>
  {
    Elems(o.sdkTypes) + o.mappingOverrides.Keys
  }

  lemma {:induction false} TargetOrigin(inp: Inputs, services: seq<Service>, registry: Registry, t: SpecTarget)
    returns (svc: Service, info: ApiTypeInfo)
    requires t in AllTargets(inp, services, registry)
    ensures svc in services && info in SpecsOf(inp, svc.group) && t == TargetFor(inp, svc, info, registry)
  {
    hide TargetFor;
    var n := |services| - 1;
    if t in AllTargets(inp, services[..n], registry) {
      svc, info := TargetOrigin(inp, services[..n], registry, t);
    } else {
      svc := services[n];
      var infos := SpecsOf(inp, svc.group);
      var ts := ServiceTargets(inp, svc, infos, registry);
      var i :| 0 <= i < |ts| && ts[i] == t;
      info := infos[i];
    }
  }

  lemma {:induction false} TargetPresent(
    inp: Inputs, services: seq<Service>, registry: Registry, svc: Service, info: ApiTypeInfo)
    requires svc in services && info in SpecsOf(inp, svc.group)
    ensures TargetFor(inp, svc, info, registry) in AllTargets(inp, services, registry)
  {
    hide TargetFor;
    var n := |services| - 1;
    var infos := SpecsOf(inp, services[n].group);
    var ts := ServiceTargets(inp, services[n], infos, registry);
    if svc == services[n] {
      var i :| 0 <= i < |infos| && infos[i] == info;
      assert ts[i] in ts;
    } else {
      assert services == services[..n] + [services[n]];
      TargetPresent(inp, services[..n], registry, svc, info);
    }
  }

  /** Targets and (selected service, filtered spec) pairs correspond one to one through their keys. */
  lemma TargetOfKey(inp: Inputs, registry: Registry, svc: Service, info: ApiTypeInfo, t: SpecTarget)
    requires WellFormed(inp) && svc in inp.services && info in SpecsOf(inp, svc.group)
    requires t in AllTargets(inp, inp.services, registry) && KeyOf(t) == Key(svc.group, info.spec)
    ensures t == TargetFor(inp, svc, info, registry)
  {
    hide WellFormed, TargetFor, Key;
    var svc', info' := TargetOrigin(inp, inp.services, registry, t);
    TargetForKey(inp, svc', info', registry);
    PairOfKey(inp, svc, info, svc', info');
  }

  lemma PairOfKey(inp: Inputs, svc: Service, info: ApiTypeInfo, svc': Service, info': ApiTypeInfo)
    requires WellFormed(inp) && svc in inp.services && info in SpecsOf(inp, svc.group)
    requires svc' in inp.services && info' in SpecsOf(inp, svc'.group)
    requires Key(svc.group, info.spec) == Key(svc'.group, info'.spec)
    ensures svc == svc' && info == info'
  {
    QualifiedInjective(svc'.group, info'.spec, svc.group, info.spec, '.');
  }

  /** The registry after a run holds, for every selected pair, exactly the rebuilt target. */
  lemma RegeneratedEntry(inp: Inputs, registry: Registry, svc: Service, info: ApiTypeInfo)
    requires WellFormed(inp) && Regenerate(inp, registry).Ok?
    requires svc in inp.services && info in SpecsOf(inp, svc.group)
    ensures Key(svc.group, info.spec) in Regenerate(inp, registry).value
    ensures Lookup(Regenerate(inp, registry).value, Key(svc.group, info.spec))
            == NormalTarget(TargetFor(inp, svc, info, registry))
  {
    hide WellFormed, TargetFor, Sort, AllTargets, Parse, Render, NormalTarget, Indexed;
    var all := AllTargets(inp, inp.services, registry);
    var ts := Sort(TargetLess, all);
    SortPermutes(TargetLess, all);
    PermutationElems(ts, all);
    RegistryRoundTrip(ts);
    var k := Key(svc.group, info.spec);
    TargetPresent(inp, inp.services, registry, svc, info);
    TargetForKey(inp, svc, info, registry);
    IndexedEntry(map[], ts, k);
    var t :| t in ts && KeyOf(t) == k && Indexed(map[], ts)[k] == NormalTarget(t);
    TargetOfKey(inp, registry, svc, info, t);
  }

  lemma TargetForKey(inp: Inputs, svc: Service, info: ApiTypeInfo, registry: Registry)
    ensures KeyOf(TargetFor(inp, svc, info, registry)) == Key(svc.group, info.spec)
  {
  }

  // ----- the fixpoint -----

  /** Rebuilding a target from its own printed form prints the same target. */
  lemma TargetSettles(inp: Inputs, svc: Service, info: ApiTypeInfo, registry: Registry, next: Registry)
    requires OverrideOf(inp, svc.service, info.spec).emptySdkMappings || SafeTarget(inp, svc, info.spec)
    requires Lookup(next, Key(svc.group, info.spec)) == NormalTarget(TargetFor(inp, svc, info, registry))
    ensures NormalTarget(TargetFor(inp, svc, info, next)) == NormalTarget(TargetFor(inp, svc, info, registry))
  {
    hide Derived, Blank, MappingsOf, NormalAll, TargetName, OverrideOf, Elems, Safe;
    BlankEmpty();
    var old_ := Lookup(registry, Key(svc.group, info.spec));
    MappingsSettle(svc.service, Elems(Derived(inp, svc, info.spec)), old_.mappings,
        OverrideOf(inp, svc.service, info.spec));
  }

  ghost function NormalTargets(ts: seq<SpecTarget>): seq<SpecTarget>
  {
    if ts == [] then [] else [NormalTarget(ts[0])] + NormalTargets(ts[1..])
  }

  lemma {:induction false} NormalTargetsAt(ts: seq<SpecTarget>, i: nat)
    requires i < |ts|
    ensures |NormalTargets(ts)| == |ts| && NormalTargets(ts)[i] == NormalTarget(ts[i])
  {
    hide NormalTarget;
    if |ts| > 1 {
      NormalTargetsAt(ts[1..], if i > 0 then i - 1 else 0);
    }
  }

  lemma {:induction false} NormalTargetsConcat(a: seq<SpecTarget>, b: seq<SpecTarget>)
    ensures NormalTargets(a + b) == NormalTargets(a) + NormalTargets(b)
  {
    hide NormalTarget;
    if a == [] {
      assert a + b == b;
    } else {
      assert (a + b)[1..] == a[1..] + b;
      NormalTargetsConcat(a[1..], b);
    }
  }

  lemma {:induction false} InsertNormal(t: SpecTarget, ts: seq<SpecTarget>)
    ensures NormalTargets(Insert(TargetLess, t, ts)) == Insert(TargetLess, NormalTarget(t), NormalTargets(ts))
  {
    hide GroupLess, Less, NormalAll, Blank;
    if ts != [] && TargetLess(ts[0], t) {
      InsertNormal(t, ts[1..]);
      var r := Insert(TargetLess, t, ts[1..]);
      assert ([ts[0]] + r)[1..] == r;
      assert NormalTargets(ts)[1..] == NormalTargets(ts[1..]);
    } else {
      assert ([t] + ts)[1..] == ts;
    }
  }

  lemma {:induction false} SortNormal(ts: seq<SpecTarget>)
    ensures NormalTargets(Sort(TargetLess, ts)) == Sort(TargetLess, NormalTargets(ts))
  {
    hide TargetLess, NormalTarget, Insert;
    if ts != [] {
      SortNormal(ts[1..]);
      InsertNormal(ts[0], Sort(TargetLess, ts[1..]));
      assert NormalTargets(ts)[1..] == NormalTargets(ts[1..]);
    }
  }

  lemma {:induction false} RenderNormalMappings(ms: seq<SdkMapping>)
    ensures RenderMappings(NormalAll(ms)) == RenderMappings(ms)
  {
    hide Blank;
    BlankEmpty();
    if ms != [] {
      assert NormalAll(ms)[1..] == NormalAll(ms[1..]);
      RenderNormalMappings(ms[1..]);
    }
  }

  lemma {:induction false} RenderNormalTargets(ts: seq<SpecTarget>)
    ensures RenderTargets(NormalTargets(ts)) == RenderTargets(ts)
  {
    hide Blank, NormalAll, RenderMappings;
    BlankEmpty();
    if ts != [] {
      RenderNormalMappings(ts[0].mappings);
      assert NormalTargets(ts)[1..] == NormalTargets(ts[1..]);
      RenderNormalTargets(ts[1..]);
    }
  }

  lemma GroupsNormal(ts: seq<SpecTarget>)
    ensures Groups(NormalTargets(ts)) == Groups(ts)
  {
    hide NormalTargets;
    forall i | 0 <= i < |ts| ensures |NormalTargets(ts)| == |ts| && NormalTargets(ts)[i].group == ts[i].group {
      NormalTargetsAt(ts, i);
    }
    NormalTargetsLength(ts);
    forall g | g in Groups(ts) ensures g in Groups(NormalTargets(ts)) {
      var i :| 0 <= i < |ts| && ts[i].group == g;
      assert NormalTargets(ts)[i] in NormalTargets(ts);
    }
    forall g | g in Groups(NormalTargets(ts)) ensures g in Groups(ts) {
      var i :| 0 <= i < |NormalTargets(ts)| && NormalTargets(ts)[i].group == g;
      assert ts[i] in ts;
    }
  }

  lemma {:induction false} NormalTargetsLength(ts: seq<SpecTarget>)
    ensures |NormalTargets(ts)| == |ts|
  {
    if ts != [] {
      NormalTargetsLength(ts[1..]);
    }
  }

  /** Printing depends only on the normal form. */
  lemma RenderNormal(ts: seq<SpecTarget>)
    ensures Render(NormalTargets(ts)) == Render(ts)
  {
    hide NormalTargets, RenderTargets, Groups, Listing;
    RenderNormalTargets(ts);
    GroupsNormal(ts);
  }

  lemma ServiceTargetsSettle(inp: Inputs, svc: Service, infos: seq<ApiTypeInfo>, registry: Registry, next: Registry)
    requires forall info :: info in infos ==>
             OverrideOf(inp, svc.service, info.spec).emptySdkMappings || SafeTarget(inp, svc, info.spec)
    requires forall info :: info in infos ==>
               Lookup(next, Key(svc.group, info.spec)) == NormalTarget(TargetFor(inp, svc, info, registry))
    ensures NormalTargets(ServiceTargets(inp, svc, infos, next))
            == NormalTargets(ServiceTargets(inp, svc, infos, registry))
  {
    hide TargetFor, NormalTarget, NormalTargets, Lookup, SafeTarget, OverrideOf;
    var a, b := ServiceTargets(inp, svc, infos, next), ServiceTargets(inp, svc, infos, registry);
    NormalTargetsLength(a);
    NormalTargetsLength(b);
    forall i | 0 <= i < |infos| ensures NormalTargets(a)[i] == NormalTargets(b)[i] {
      NormalTargetsAt(a, i);
      NormalTargetsAt(b, i);
      TargetSettles(inp, svc, infos[i], registry, next);
    }
  }

  lemma {:induction false} AllTargetsSettle(inp: Inputs, services: seq<Service>, registry: Registry, next: Registry)
    requires forall svc, info :: svc in services && info in SpecsOf(inp, svc.group) ==>
               OverrideOf(inp, svc.service, info.spec).emptySdkMappings || SafeTarget(inp, svc, info.spec)
    requires forall svc, info :: svc in services && info in SpecsOf(inp, svc.group) ==>
               Lookup(next, Key(svc.group, info.spec)) == NormalTarget(TargetFor(inp, svc, info, registry))
    ensures NormalTargets(AllTargets(inp, services, next)) == NormalTargets(AllTargets(inp, services, registry))
  {
    hide TargetFor, NormalTarget, NormalTargets, Lookup, SpecsOf, ServiceTargets, SafeTarget, OverrideOf;
    if services != [] {
      var n := |services| - 1;
      var svc, infos := services[n], SpecsOf(inp, services[n].group);
      assert forall s :: s in services[..n] ==> s in services;
      AllTargetsSettle(inp, services[..n], registry, next);
      ServiceTargetsSettle(inp, svc, infos, registry, next);
      NormalTargetsConcat(AllTargets(inp, services[..n], next), ServiceTargets(inp, svc, infos, next));
      NormalTargetsConcat(AllTargets(inp, services[..n], registry), ServiceTargets(inp, svc, infos, registry));
    }
  }

  /** A second run prints exactly what the first run on `registry` printed, from targets that are the same up
      to printing, and reading it back gives the same registry again. */
  ghost predicate Fixpoint(inp: Inputs, registry: Registry) {
    && Build(inp, registry).Ok? && Regenerate(inp, registry).Ok?
    && var next := Regenerate(inp, registry).value;
       && Build(inp, next).Ok?
       && NormalTargets(Build(inp, next).value) == NormalTargets(Build(inp, registry).value)
       && Render(Build(inp, next).value) == Render(Build(inp, registry).value)
       && Regenerate(inp, next) == Ok(next)
  }

  /** With safe inputs this holds whatever the first registry held. */
  lemma RegenerationIsFixpoint(inp: Inputs, registry: Registry)
    requires WellFormed(inp) && SafeInputs(inp) && Build(inp, registry).Ok?
    ensures Fixpoint(inp, registry)
  {
    hide WellFormed, TargetFor, Render, Sort, AllTargets, Parse, NormalTargets, SafeTarget, OverrideOf;
    var all := AllTargets(inp, inp.services, registry);
    RegistryRoundTrip(Sort(TargetLess, all));
    var next := Regenerate(inp, registry).value;
    forall svc, info | svc in inp.services && info in SpecsOf(inp, svc.group)
      ensures Lookup(next, Key(svc.group, info.spec)) == NormalTarget(TargetFor(inp, svc, info, registry))
    {
      RegeneratedEntry(inp, registry, svc, info);
    }
    AllTargetsSettle(inp, inp.services, registry, next);
    var again := AllTargets(inp, inp.services, next);
    SortNormal(all);
    SortNormal(again);
    RenderNormal(Sort(TargetLess, all));
    RenderNormal(Sort(TargetLess, again));
  }

  /** If the run from the empty registry is a fixpoint, each of its targets settles. */
  lemma FixpointSettles(inp: Inputs, svc: Service, info: ApiTypeInfo)
    requires WellFormed(inp) && Fixpoint(inp, map[]) && svc in inp.services && info in SpecsOf(inp, svc.group)
    ensures Settles(svc.service, Elems(Derived(inp, svc, info.spec)), [], OverrideOf(inp, svc.service, info.spec))
  {
    hide WellFormed, TargetFor, Build, Render, Parse, NormalTargets, NormalTarget, Derived, OverrideOf, MappingsOf,
         NormalAll, Key, Elems;
    var next := Regenerate(inp, map[]).value;
    RegeneratedEntry(inp, map[], svc, info);
    RegeneratedEntry(inp, next, svc, info);
    TargetForMappings(inp, svc, info, map[]);
    TargetForMappings(inp, svc, info, next);
  }

  /** On well-formed inputs with all SDK packages there, every registry leads to a fixpoint in one run if and only
      if the inputs are safe. */
  lemma FixpointIff(inp: Inputs)
    requires WellFormed(inp) && Build(inp, map[]).Ok?
    ensures (forall registry :: Fixpoint(inp, registry)) <==> SafeInputs(inp)
  {
    hide WellFormed, Fixpoint, SafeTarget, OverrideOf, Derived, Settles, Elems;
    if SafeInputs(inp) {
      forall registry ensures Fixpoint(inp, registry) {
        BuildsAlike(inp, registry);
        RegenerationIsFixpoint(inp, registry);
      }
    }
    if forall registry :: Fixpoint(inp, registry) {
      forall svc, info | svc in inp.services && info in SpecsOf(inp, svc.group)
        ensures OverrideOf(inp, svc.service, info.spec).emptySdkMappings || SafeTarget(inp, svc, info.spec)
      {
        assert Fixpoint(inp, map[]);
        FixpointSettles(inp, svc, info);
        SettledIsSafe(inp, svc, info.spec);
      }
    }
  }

  lemma BuildsAlike(inp: Inputs, registry: Registry)
    requires Build(inp, map[]).Ok?
    ensures Build(inp, registry).Ok?
  {
    hide Sort, AllTargets;
  }

  lemma SettledIsSafe(inp: Inputs, svc: Service, spec: string)
    requires Settles(svc.service, Elems(Derived(inp, svc, spec)), [], OverrideOf(inp, svc.service, spec))
    ensures OverrideOf(inp, svc.service, spec).emptySdkMappings || SafeTarget(inp, svc, spec)
  {
    hide Settles, Derived, OverrideOf, Elems, Safe, Tracked;
    if !OverrideOf(inp, svc.service, spec).emptySdkMappings && !SafeTarget(inp, svc, spec) {
      UnsafeUnsettles(svc.service, Elems(Derived(inp, svc, spec)), OverrideOf(inp, svc.service, spec));
    }
  }

  // ----- the ratchet -----

  /** What a registry tracks for one target of one service. */
  function Tracks(registry: Registry, svc: Service, spec: string): map<string, SdkMapping>
  {
    ByType(svc.service, Lookup(registry, Key(svc.group, spec)).mappings)
  }

  predicate Selected(inp: Inputs, svc: Service, spec: string) {
    svc in inp.services && exists info :: info in SpecsOf(inp, svc.group) && info.spec == spec
  }

  /** The target is rebuilt by every one of the runs and never emptied by an override. */
  ghost predicate Kept(inputs: seq<Inputs>, svc: Service, spec: string) {
    forall i :: 0 <= i < |inputs| ==>
      && WellFormed(inputs[i]) && Selected(inputs[i], svc, spec)
      && !OverrideOf(inputs[i], svc.service, spec).emptySdkMappings
  }

  lemma TargetForMappings(inp: Inputs, svc: Service, info: ApiTypeInfo, registry: Registry)
    ensures NormalTarget(TargetFor(inp, svc, info, registry)).mappings
            == NormalAll(MappingsOf(svc.service, Elems(Derived(inp, svc, info.spec)),
                                    Lookup(registry, Key(svc.group, info.spec)).mappings,
                                    OverrideOf(inp, svc.service, info.spec)))
  {
    hide MappingsOf, Derived, Blank, NormalAll, TargetName;
  }

  /** No other type of the target is read back as `t` and printed after it. */
  ghost predicate UnshadowedIn(inp: Inputs, svc: Service, spec: string, t: string) {
    Unshadowed(svc.service, Tracked(OverrideOf(inp, svc.service, spec), Elems(Derived(inp, svc, spec)), {}), t)
  }

  /** One run keeps a type, and keeps its entry but for the override when no other type shadows it. */
  lemma RunKeepsType(inp: Inputs, registry: Registry, svc: Service, spec: string, t: string)
    requires WellFormed(inp) && Selected(inp, svc, spec) && Regenerate(inp, registry).Ok?
    requires !OverrideOf(inp, svc.service, spec).emptySdkMappings
    requires t in Tracks(registry, svc, spec) && t != ""
    ensures var next := Tracks(Regenerate(inp, registry).value, svc, spec);
            && t in next
            && (UnshadowedIn(inp, svc, spec, t) ==>
                  next[t] == Normal(ApplyOverride(Tracks(registry, svc, spec)[t], OverrideOf(inp, svc.service, spec),
                      t)))
  {
    hide WellFormed, Derived, MappingsOf, ByType, Normal, ApplyOverride, OverrideOf, NormalAll, Regenerate, Elems,
         TargetFor, NormalTarget, Lookup, Key, TypesIn, Unshadowed;
    var info :| info in SpecsOf(inp, svc.group) && info.spec == spec;
    var derived, o := Elems(Derived(inp, svc, spec)), OverrideOf(inp, svc.service, spec);
    var existing := Lookup(registry, Key(svc.group, spec)).mappings;
    RegeneratedEntry(inp, registry, svc, info);
    TargetForMappings(inp, svc, info, registry);
    StaysTracked(svc.service, derived, existing, o, t);
    if UnshadowedIn(inp, svc, spec, t) {
      UnshadowedKept(svc.service, derived, existing, o, t);
    }
  }

  /** A sequence of runs, each on the registry that the previous one printed. */
  ghost predicate Runs(inputs: seq<Inputs>, registries: seq<Registry>) {
    && |registries| == |inputs| + 1
    && forall i :: 0 <= i < |inputs| ==> Regenerate(inputs[i], registries[i]) == Ok(registries[i + 1])
  }

  predicate SetsReason(inp: Inputs, svc: Service, spec: string, t: string) {
    var o := OverrideOf(inp, svc.service, spec);
    t in o.mappingOverrides && !Blank(o.mappingOverrides[t].reason)
  }

  predicate SetsSurface(inp: Inputs, svc: Service, spec: string, t: string) {
    var o := OverrideOf(inp, svc.service, spec);
    t in o.mappingOverrides && !Blank(o.mappingOverrides[t].apiSurface)
  }

  /** Over any number of runs a type stays tracked; and if no run shadows it, its exclusion stays, and so do a
      surface and a reason that no run's override sets. */
  lemma {:induction false} RunsKeepType(
    inputs: seq<Inputs>, registries: seq<Registry>, svc: Service, spec: string, t: string)
    requires Runs(inputs, registries) && Kept(inputs, svc, spec)
    requires t in Tracks(registries[0], svc, spec) && t != ""
    ensures t in Tracks(registries[|inputs|], svc, spec)
    ensures (forall i :: 0 <= i < |inputs| ==> UnshadowedIn(inputs[i], svc, spec, t)) ==>
              var first, last := Tracks(registries[0], svc, spec), Tracks(registries[|inputs|], svc, spec);
              && (first[t].exclude ==> last[t].exclude)
              && ((forall i :: 0 <= i < |inputs| ==> !SetsReason(inputs[i], svc, spec, t)) && !Blank(first[t].reason)
                  ==> last[t].reason == first[t].reason)
              && ((forall i :: 0 <= i < |inputs| ==> !SetsSurface(inputs[i], svc, spec, t))
                  && !Blank(first[t].apiSurface)
                  ==> last[t].apiSurface == first[t].apiSurface)
              && last[t].sdkStruct == first[t].sdkStruct
    decreases |inputs|
  {
    hide WellFormed, ByType, Regenerate, OverrideOf, Blank, UnshadowedIn;
    if |inputs| > 0 {
      assert Regenerate(inputs[0], registries[0]) == Ok(registries[1]);
      RunKeepsType(inputs[0], registries[0], svc, spec, t);
      assert Runs(inputs[1..], registries[1..]);
      assert Kept(inputs[1..], svc, spec);
      RunsKeepType(inputs[1..], registries[1..], svc, spec, t);
      assert forall i :: 0 <= i < |inputs[1..]| ==> inputs[1..][i] == inputs[i + 1];
    }
  }

  /** With Go identifiers no type shadows another. */
  lemma IdentifiersAreUnshadowed(inp: Inputs, svc: Service, info: ApiTypeInfo, t: string)
    requires forall s :: s in inp.structs ==> TrimmedTypes(inp.structs[s])
    requires forall k :: k in inp.overrides ==> TrimmedTypes(OverrideTypes(inp.overrides[k]))
    requires t != ""
    ensures UnshadowedIn(inp, svc, info.spec, t)
  {
    hide Safe, Unshadowed, TrimmedTypes, OverrideOf, Derived, Elems, Tracked;
    IdentifiersAreSafeTarget(inp, svc, info.spec);
    SafeIsUnshadowed(svc.service,
        Tracked(OverrideOf(inp, svc.service, info.spec), Elems(Derived(inp, svc, info.spec)), {}), t);
  }

  /** Over any number of runs with arbitrarily changing SDKs, specs and overrides, a target that stays
      selected never loses a tracked type. */
  lemma TrackedTypesNeverShrink(inputs: seq<Inputs>, registries: seq<Registry>, svc: Service, spec: string)
    requires Runs(inputs, registries) && Kept(inputs, svc, spec)
    ensures Tracks(registries[0], svc, spec).Keys - {""} <= Tracks(registries[|inputs|], svc, spec).Keys
  {
    hide Runs, Kept, Tracks;
    assert |registries| == |inputs| + 1 by { RunsLength(inputs, registries); }
    forall t | t in Tracks(registries[0], svc, spec).Keys - {""} ensures t in Tracks(registries[|inputs|], svc, spec) {
      RunsKeepType(inputs, registries, svc, spec, t);
    }
  }

  lemma RunsLength(inputs: seq<Inputs>, registries: seq<Registry>)
    requires Runs(inputs, registries)
    ensures |registries| == |inputs| + 1
  {
  }

  // ----- what a run does to a target -----

  /** The scanned status wins over the registry's, and the registry's name over a made one. */
  lemma RunSetsStatusAndName(inp: Inputs, registry: Registry, svc: Service, info: ApiTypeInfo)
    requires WellFormed(inp) && Regenerate(inp, registry).Ok?
    requires svc in inp.services && info in SpecsOf(inp, svc.group)
    ensures var k, next := svc.group + "." + info.spec, Regenerate(inp, registry).value;
            && k in next && next[k].group == svc.group && next[k].spec == info.spec
            && (!Blank(info.status) ==> next[k].status == info.status)
            && (Blank(info.status) && k in registry && !Blank(registry[k].status) ==>
                next[k].status == registry[k].status)
            && (Blank(info.status) && (k in registry ==> Blank(registry[k].status)) ==> next[k].status == "")
            && (k in registry && !Blank(registry[k].name) ==> next[k].name == registry[k].name)
            && ((k in registry ==> Blank(registry[k].name)) && svc.group in inp.prefixes ==>
                  next[k].name == inp.prefixes[svc.group] + info.spec)
            && ((k in registry ==> Blank(registry[k].name)) && svc.group !in inp.prefixes ==>
                  next[k].name == Pascal(svc.group, true) + info.spec)
  {
    hide WellFormed, Regenerate, Blank, MappingsOf, Derived, NormalAll, OverrideOf, Pascal, Elems;
    BlankEmpty();
    assert Key(svc.group, info.spec) == svc.group + "." + info.spec;
    RegeneratedEntry(inp, registry, svc, info);
  }

  /** A name that is there stays for good. */
  lemma {:induction false} RunsKeepName(
    inputs: seq<Inputs>, registries: seq<Registry>, svc: Service, spec: string)
    requires Runs(inputs, registries)
    requires forall i :: 0 <= i < |inputs| ==> WellFormed(inputs[i]) && Selected(inputs[i], svc, spec)
    requires svc.group + "." + spec in registries[0] && !Blank(registries[0][svc.group + "." + spec].name)
    ensures var k := svc.group + "." + spec;
            k in registries[|inputs|] && registries[|inputs|][k].name == registries[0][k].name
    decreases |inputs|
  {
    hide WellFormed, Regenerate, Blank;
    if |inputs| > 0 {
      assert Regenerate(inputs[0], registries[0]) == Ok(registries[1]);
      var info :| info in SpecsOf(inputs[0], svc.group) && info.spec == spec;
      RunSetsStatusAndName(inputs[0], registries[0], svc, info);
      assert Runs(inputs[1..], registries[1..]);
      RunsKeepName(inputs[1..], registries[1..], svc, spec);
    }
  }

  /** An override that empties a target leaves it without mappings. */
  lemma RunEmpties(inp: Inputs, registry: Registry, svc: Service, info: ApiTypeInfo)
    requires WellFormed(inp) && Regenerate(inp, registry).Ok?
    requires svc in inp.services && info in SpecsOf(inp, svc.group)
    requires OverrideOf(inp, svc.service, info.spec).emptySdkMappings
    ensures Lookup(Regenerate(inp, registry).value, Key(svc.group, info.spec)).mappings == []
  {
    hide WellFormed, Regenerate, TargetFor, NormalTarget, Derived, Elems, OverrideOf;
    RegeneratedEntry(inp, registry, svc, info);
    TargetForMappings(inp, svc, info, registry);
  }

  /** The types that overrides and derivation bring into a target. */
  ghost function BroughtIn(inp: Inputs, svc: Service, spec: string): set<string>
  {
    Elems(OverrideOf(inp, svc.service, spec).sdkTypes) + OverrideOf(inp, svc.service, spec).mappingOverrides.Keys
    + Elems(Derived(inp, svc, spec)) - {""}
  }

  lemma BroughtInIsTracked(inp: Inputs, svc: Service, spec: string)
    ensures BroughtIn(inp, svc, spec) == Tracked(OverrideOf(inp, svc.service, spec), Elems(Derived(inp, svc, spec)), {})
  {
    hide OverrideOf, Derived;
  }

  /** Which types a run tracks, exactly. */
  lemma RunTracks(inp: Inputs, registry: Registry, svc: Service, spec: string, t: string)
    requires WellFormed(inp) && Selected(inp, svc, spec) && Regenerate(inp, registry).Ok?
    requires !OverrideOf(inp, svc.service, spec).emptySdkMappings && t != ""
    ensures t in Tracks(Regenerate(inp, registry).value, svc, spec) <==>
              || t in Tracks(registry, svc, spec)
              || exists x :: x in BroughtIn(inp, svc, spec) && x !in Tracks(registry, svc, spec)
                             && UnqualifiedType(Qualified(svc.service, x), svc.service) == Some(t)
  {
    hide WellFormed, Derived, MappingsOf, ByType, OverrideOf, NormalAll, Regenerate, Elems, TargetFor, NormalTarget,
         Lookup, Key, UnqualifiedType, Tracked, BroughtIn;
    var info :| info in SpecsOf(inp, svc.group) && info.spec == spec;
    RegeneratedEntry(inp, registry, svc, info);
    TargetForMappings(inp, svc, info, registry);
    BroughtInIsTracked(inp, svc, spec);
    ReadAfter(svc.service, Elems(Derived(inp, svc, spec)), Lookup(registry, Key(svc.group, spec)).mappings,
              OverrideOf(inp, svc.service, spec), t);
  }

  /** What a run leaves for a type that no other shadows: the override's values where it sets them, else what was
      there, else nothing. */
  lemma RunAppliesOverride(inp: Inputs, registry: Registry, svc: Service, spec: string, t: string)
    requires WellFormed(inp) && Selected(inp, svc, spec) && Regenerate(inp, registry).Ok?
    requires !OverrideOf(inp, svc.service, spec).emptySdkMappings && t != "" && UnshadowedIn(inp, svc, spec, t)
    requires || t in Tracks(registry, svc, spec)
             || (t in BroughtIn(inp, svc, spec) && UnqualifiedType(Qualified(svc.service, t), svc.service) == Some(t))
    ensures var before, after := Tracks(registry, svc, spec), Tracks(Regenerate(inp, registry).value, svc, spec);
            && t in after
            && EntryAfter(svc.service, if t in before then Some(before[t]) else None,
                          OverrideOf(inp, svc.service, spec), t, after[t])
  {
    hide WellFormed, Derived, MappingsOf, ByType, OverrideOf, NormalAll, Regenerate, Elems, TargetFor, NormalTarget,
         Lookup, Key, UnqualifiedType, BroughtIn, Unshadowed, EntryAfter, MappingFor, Normal, TypesIn;
    var info :| info in SpecsOf(inp, svc.group) && info.spec == spec;
    var derived, o := Elems(Derived(inp, svc, spec)), OverrideOf(inp, svc.service, spec);
    var existing := Lookup(registry, Key(svc.group, spec)).mappings;
    RegeneratedEntry(inp, registry, svc, info);
    TargetForMappings(inp, svc, info, registry);
    BroughtInIsTracked(inp, svc, spec);
    ByTypeKeys(svc.service, existing);
    assert t in Tracked(o, derived, TypesIn(svc.service, existing));
    UnshadowedRead(svc.service, derived, existing, o, t);
    OverrideTakesEffect(svc.service, ByType(svc.service, existing), o, t);
  }

  // ----- the order of imports -----

  method ApiRegistryGroups(ts: seq<SpecTarget>) returns (groups: seq<string>)
    ensures groups == Listing(GroupLess, Groups(ts))
  {
    GroupLessIsStrictTotal();
    groups := SortedElements(GroupLess, Groups(ts));
  }

  ghost function GroupColumn(ts: seq<SpecTarget>): (gs: seq<string>)
    ensures |gs| == |ts| && forall i :: 0 <= i < |gs| ==> gs[i] == ts[i].group
  {
    seq(|ts|, i requires 0 <= i < |ts| => ts[i].group)
  }

  /** The imports come in the order in which the groups first appear among the sorted targets. */
  lemma ImportsFollowTargets(ts: seq<SpecTarget>)
    requires Ordered(TargetLess, ts) && "" !in Groups(ts)
    ensures UniqueByOrder(GroupColumn(ts)) == Listing(GroupLess, Groups(ts))
  {
    hide UniqueByOrder, GroupLess, Listing;
    var gs := GroupColumn(ts);
    var u := UniqueByOrder(gs);
    UniqueByOrderSpec(gs);
    GroupLessIsStrictTotal();
    assert Elems(gs) == Groups(ts) by {
      forall g | g in Elems(gs) ensures g in Groups(ts) {
        var i :| 0 <= i < |gs| && gs[i] == g;
        assert ts[i] in ts;
      }
      forall g | g in Groups(ts) ensures g in Elems(gs) {
        var i :| 0 <= i < |ts| && ts[i].group == g;
        assert gs[i] in gs;
      }
    }
    forall i, j | 0 <= i < j < |u| ensures GroupLess(u[i], u[j]) {
      var a, b := UniqueByOrderKeepsOrder(gs, i, j);
      assert !TargetLess(ts[b], ts[a]);
      assert u[i] != u[j];
    }
    ListingSpec(GroupLess, Groups(ts));
    IncreasingUnique(GroupLess, u, Listing(GroupLess, Groups(ts)));
  }

  /** What `Build` returns is ordered, so the imports of a printed registry follow its targets. */
  lemma BuiltTargetsOrdered(inp: Inputs, registry: Registry)
    requires Build(inp, registry).Ok?
    ensures Ordered(TargetLess, Build(inp, registry).value)
    ensures var ts := Build(inp, registry).value;
            forall i, j :: 0 <= i < j < |ts| ==>
              if ts[i].group != ts[j].group then GroupLess(ts[i].group, ts[j].group)
              else !Less(ts[j].name, ts[i].name)
    ensures multiset(Build(inp, registry).value) == multiset(AllTargets(inp, inp.services, registry))
  {
    hide AllTargets, GroupLess, Less;
    GroupLessIsStrictTotal();
    TargetLessIsStrictWeak();
    SortOrdered(TargetLess, AllTargets(inp, inp.services, registry));
    SortPermutes(TargetLess, AllTargets(inp, inp.services, registry));
  }
}
