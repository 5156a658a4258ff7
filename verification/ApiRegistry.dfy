/**
 The API registry file as Go syntax: printing targets as composite literals and reading them back.
 Quoting and formatting are below this level; a string literal carries its value.
 */
module ApiRegistry {
  import opened Orders
  import opened Text
  import opened SdkNames
  import opened Mappings

  datatype Result<+T> = Ok(value: T) | Err(message: string)

  datatype SpecTarget = SpecTarget(
    service: string,
    group: string,
    spec: string,
    status: string,
    name: string,
    mappings: seq<SdkMapping>)

  const ZERO_TARGET := SpecTarget("", "", "", "", "", [])
  const ZERO_MAPPING := SdkMapping("", "", false, "")

  // ----- syntax -----

  datatype Expr =
    | Str(value: string)
    | Ident(name: string)
    | TypeOf(pkg: string, typeName: string)
    | Composite(elements: seq<Element>)
    | OtherExpr

  datatype Element = Field(key: string, expr: Expr) | Plain(expr: Expr)

  datatype ValueSpec = ValueSpec(names: seq<string>, values: seq<Expr>)

  datatype Decl = Imports(groups: seq<string>) | Vars(specs: seq<ValueSpec>) | OtherDecl(name: string)

  // ----- reading one mapping -----

  function StringValue(e: Expr): Result<string>
  {
    if e.Str? then Ok(e.value) else Err("unexpected string literal expression")
  }

  function BoolValue(e: Expr): Result<bool>
  {
    if !e.Ident? then Err("unexpected bool literal expression")
    else if e.name == "true" then Ok(true)
    else if e.name == "false" then Ok(false)
    else Err("unexpected bool literal")
  }

  function ApplyMappingField(m: SdkMapping, key: string, e: Expr): Result<SdkMapping>
  {
    if key == "SDKStruct" then
      match StringValue(e) case Ok(v) => Ok(m.(sdkStruct := v)) case Err(msg) => Err(msg)
    else if key == "APISurface" then
      match StringValue(e) case Ok(v) => Ok(m.(apiSurface := v)) case Err(msg) => Err(msg)
    else if key == "Exclude" then
      match BoolValue(e) case Ok(v) => Ok(m.(exclude := v)) case Err(msg) => Err(msg)
    else if key == "Reason" then
      match StringValue(e) case Ok(v) => Ok(m.(reason := v)) case Err(msg) => Err(msg)
    else Ok(m)
  }

  function MappingFrom(m: SdkMapping, elements: seq<Element>): Result<SdkMapping>
    decreases |elements|
  {
    if elements == [] then Ok(m)
    else if elements[0].Plain? then MappingFrom(m, elements[1..])
    else
      match ApplyMappingField(m, elements[0].key, elements[0].expr)
      case Err(msg) => Err(msg)
      case Ok(m') => MappingFrom(m', elements[1..])
  }

  method ParseSdkMapping(elements: seq<Element>) returns (r: Result<SdkMapping>)
    ensures r == MappingFrom(ZERO_MAPPING, elements)
  {
    hide ApplyMappingField;
    var mapping := ZERO_MAPPING;
    for i := 0 to |elements|
      invariant MappingFrom(ZERO_MAPPING, elements) == MappingFrom(mapping, elements[i..])
    {
      assert elements[i..][1..] == elements[i + 1..];
      if elements[i].Field? {
        var applied := ApplyMappingField(mapping, elements[i].key, elements[i].expr);
        if applied.Err? {
          return Err(applied.message);
        }
        mapping := applied.value;
      }
    }
    r := Ok(mapping);
  }

  function MappingsFrom(elements: seq<Element>): Result<seq<SdkMapping>>
  {
    if elements == [] then Ok([])
    else if !(elements[0].Plain? && elements[0].expr.Composite?) then Err("unexpected SDKMapping element")
    else
      match MappingFrom(ZERO_MAPPING, elements[0].expr.elements)
      case Err(msg) => Err(msg)
      case Ok(m) =>
        match MappingsFrom(elements[1..])
        case Err(msg) => Err(msg)
        case Ok(rest) => Ok([m] + rest)
  }

  function LegacyMappingsFrom(elements: seq<Element>): Result<seq<SdkMapping>>
  {
    if elements == [] then Ok([])
    else if !(elements[0].Plain? && elements[0].expr.Str?) then Err("unexpected string literal expression")
    else
      match LegacyMappingsFrom(elements[1..])
      case Err(msg) => Err(msg)
      case Ok(rest) => Ok([ZERO_MAPPING.(sdkStruct := elements[0].expr.value)] + rest)
  }

  // ----- reading one target -----

  const VERSION := "v1beta1"

  function ApplyTargetField(t: SpecTarget, key: string, e: Expr): Result<SpecTarget>
  {
    if key == "Name" then
      match StringValue(e) case Ok(v) => Ok(t.(name := v)) case Err(msg) => Err(msg)
    else if key == "SpecType" then
      if !e.TypeOf? then Err("unexpected reflect.TypeOf expression")
      else Ok(t.(group := TrimSuffix(e.pkg, VERSION), spec := TrimSuffix(e.typeName, "Spec")))
    else if key == "StatusType" then
      if !e.TypeOf? then Err("unexpected reflect.TypeOf expression")
      else Ok(t.(status := e.typeName))
    else if key == "SDKStructs" then
      if !e.Composite? then Err("unexpected SDKStructs expression")
      else match LegacyMappingsFrom(e.elements) case Ok(ms) => Ok(t.(mappings := ms)) case Err(msg) => Err(msg)
    else if key == "SDKMappings" then
      if !e.Composite? then Err("unexpected SDKMappings expression")
      else match MappingsFrom(e.elements) case Ok(ms) => Ok(t.(mappings := ms)) case Err(msg) => Err(msg)
    else Ok(t)
  }

  function TargetFrom(t: SpecTarget, elements: seq<Element>): Result<SpecTarget>
    decreases |elements|
  {
    if elements == [] then Ok(t)
    else if elements[0].Plain? then TargetFrom(t, elements[1..])
    else
      match ApplyTargetField(t, elements[0].key, elements[0].expr)
      case Err(msg) => Err(msg)
      case Ok(t') => TargetFrom(t', elements[1..])
  }

  method ParseExistingApiTarget(elements: seq<Element>) returns (r: Result<SpecTarget>)
    ensures r == TargetFrom(ZERO_TARGET, elements)
  {
    hide ApplyTargetField;
    var target := ZERO_TARGET;
    for i := 0 to |elements|
      invariant TargetFrom(ZERO_TARGET, elements) == TargetFrom(target, elements[i..])
    {
      assert elements[i..][1..] == elements[i + 1..];
      if elements[i].Field? {
        var applied := ApplyTargetField(target, elements[i].key, elements[i].expr);
        if applied.Err? {
          return Err(applied.message);
        }
        target := applied.value;
      }
    }
    r := Ok(target);
  }

  // ----- reading the file -----

  type Registry = map<string, SpecTarget>

  function Key(group: string, spec: string): string
  {
    group + ['.'] + spec
  }

  function KeyOf(t: SpecTarget): string
  {
    Key(t.group, t.spec)
  }

  function TargetsFrom(registry: Registry, elements: seq<Element>): Result<Registry>
    decreases |elements|
  {
    if elements == [] then Ok(registry)
    else if !(elements[0].Plain? && elements[0].expr.Composite?) then TargetsFrom(registry, elements[1..])
    else
      match TargetFrom(ZERO_TARGET, elements[0].expr.elements)
      case Err(msg) => Err(msg)
      case Ok(t) => TargetsFrom(registry[KeyOf(t) := t], elements[1..])
  }

  predicate IsTargetsSpec(spec: ValueSpec) {
    spec.names == ["targets"] && |spec.values| == 1 && spec.values[0].Composite?
  }

  function SpecsFrom(registry: Registry, specs: seq<ValueSpec>): Result<Registry>
    decreases |specs|
  {
    if specs == [] then Ok(registry)
    else if !IsTargetsSpec(specs[0]) then SpecsFrom(registry, specs[1..])
    else
      match TargetsFrom(registry, specs[0].values[0].elements)
      case Err(msg) => Err(msg)
      case Ok(registry') => SpecsFrom(registry', specs[1..])
  }

  function DeclsFrom(registry: Registry, decls: seq<Decl>): Result<Registry>
    decreases |decls|
  {
    if decls == [] then Ok(registry)
    else if !decls[0].Vars? then DeclsFrom(registry, decls[1..])
    else
      match SpecsFrom(registry, decls[0].specs)
      case Err(msg) => Err(msg)
      case Ok(registry') => DeclsFrom(registry', decls[1..])
  }

  /** `parseExistingAPITargets` on a parsed file. */
  function Parse(file: seq<Decl>): Result<Registry>
  {
    DeclsFrom(map[], file)
  }

  // ----- printing -----

  function RenderMapping(m: SdkMapping): Element
  {
    Plain(Composite(
      [Field("SDKStruct", Str(m.sdkStruct))]
      + (if !Blank(m.apiSurface) then [Field("APISurface", Str(m.apiSurface))] else [])
      + (if m.exclude then [Field("Exclude", Ident("true"))] else [])
      + (if !Blank(m.reason) then [Field("Reason", Str(m.reason))] else [])))
  }

  function RenderMappings(ms: seq<SdkMapping>): seq<Element>
  {
    if ms == [] then [] else [RenderMapping(ms[0])] + RenderMappings(ms[1..])
  }

  function RenderTarget(t: SpecTarget): Element
  {
    Plain(Composite(
      [Field("Name", Str(t.name)), Field("SpecType", TypeOf(t.group + VERSION, t.spec + "Spec"))]
      + (if !Blank(t.status) then [Field("StatusType", TypeOf(t.group + VERSION, t.status))] else [])
      + [Field("SDKMappings", Composite(RenderMappings(t.mappings)))]))
  }

  function RenderTargets(ts: seq<SpecTarget>): seq<Element>
  {
    if ts == [] then [] else [RenderTarget(ts[0])] + RenderTargets(ts[1..])
  }

  function Groups(ts: seq<SpecTarget>): (groups: set<string>)
  {
    set t | t in ts :: t.group
  }

  /** `renderAPIRegistry`: imports in group order, two type declarations, the targets, the accessor. */
  ghost function Render(ts: seq<SpecTarget>): seq<Decl>
  {
    [Imports(Listing(GroupLess, Groups(ts))),
     OtherDecl("SDKMapping"),
     OtherDecl("Target"),
     Vars([ValueSpec(["targets"], [Composite(RenderTargets(ts))])]),
     OtherDecl("Targets")]
  }

  // ----- reading what was printed -----

  /** What survives printing: the service is not printed, and blank texts are left out. */
  ghost function NormalTarget(t: SpecTarget): SpecTarget
  {
    SpecTarget("", t.group, t.spec, if Blank(t.status) then "" else t.status, t.name, NormalAll(t.mappings))
  }

  lemma MappingRoundTrip(m: SdkMapping)
    ensures MappingFrom(ZERO_MAPPING, RenderMapping(m).expr.elements) == Ok(Normal(m))
  {
    hide Blank;
    var surface := if !Blank(m.apiSurface) then [Field("APISurface", Str(m.apiSurface))] else [];
    var exclude := if m.exclude then [Field("Exclude", Ident("true"))] else [];
    var reason := if !Blank(m.reason) then [Field("Reason", Str(m.reason))] else [];
    var m1 := ZERO_MAPPING.(sdkStruct := m.sdkStruct);
    var m2 := m1.(apiSurface := if Blank(m.apiSurface) then "" else m.apiSurface);
    var m3 := m2.(exclude := m.exclude);
    var all := RenderMapping(m).expr.elements;
    assert all[1..] == surface + exclude + reason;
    assert MappingFrom(ZERO_MAPPING, all) == MappingFrom(m1, surface + exclude + reason);
    assert surface + exclude + reason == surface + (exclude + reason);
    MappingFieldOptional(m1, surface, exclude + reason);
    MappingFieldOptional(m2, exclude, reason);
    MappingFieldOptional(m3, reason, []);
    assert reason + [] == reason;
  }

  /** Reading an optional field and then the rest. */
  lemma MappingFieldOptional(m: SdkMapping, field: seq<Element>, rest: seq<Element>)
    requires |field| <= 1 && (field != [] ==> field[0].Field? && ApplyMappingField(m, field[0].key, field[0].expr).Ok?)
    ensures MappingFrom(m, field + rest)
            == MappingFrom(if field == [] then m else ApplyMappingField(m, field[0].key, field[0].expr).value, rest)
  {
    hide ApplyMappingField;
    if field == [] {
      assert field + rest == rest;
    } else {
      assert (field + rest)[1..] == rest;
    }
  }

  lemma {:induction false} MappingsRoundTrip(ms: seq<SdkMapping>)
    ensures MappingsFrom(RenderMappings(ms)) == Ok(NormalAll(ms))
  {
    hide MappingFrom, RenderMapping, Normal;
    if ms == [] {
      assert NormalAll(ms) == [];
    } else {
      MappingElement(ms[0]);
      MappingRoundTrip(ms[0]);
      MappingsRoundTrip(ms[1..]);
      assert RenderMappings(ms)[1..] == RenderMappings(ms[1..]);
      assert NormalAll(ms) == [Normal(ms[0])] + NormalAll(ms[1..]);
    }
  }

  lemma MappingElement(m: SdkMapping)
    ensures RenderMapping(m).Plain? && RenderMapping(m).expr.Composite?
  {
  }

  /** Printing a target and reading it back gives the target, with blank texts made empty; group names
      ending in `v1beta1` and spec names ending in `Spec` included. */
  lemma TargetRoundTrip(t: SpecTarget)
    ensures RenderTarget(t).Plain? && RenderTarget(t).expr.Composite?
    ensures TargetFrom(ZERO_TARGET, RenderTarget(t).expr.elements) == Ok(NormalTarget(t))
  {
    hide Blank, MappingsFrom, RenderMappings, NormalAll, TrimSuffix;
    TrimAppended(t.group, VERSION);
    TrimAppended(t.spec, "Spec");
    MappingsRoundTrip(t.mappings);
    var status := if !Blank(t.status) then [Field("StatusType", TypeOf(t.group + VERSION, t.status))] else [];
    var last := Field("SDKMappings", Composite(RenderMappings(t.mappings)));
    var all := RenderTarget(t).expr.elements;
    var t1 := ZERO_TARGET.(name := t.name);
    var t2 := t1.(group := t.group, spec := t.spec);
    var t3 := t2.(status := if Blank(t.status) then "" else t.status);
    assert all[1..][1..] == status + [last];
    assert TargetFrom(ZERO_TARGET, all) == TargetFrom(t1, all[1..]) == TargetFrom(t2, status + [last]);
    if status == [] {
      assert status + [last] == [last];
    } else {
      assert (status + [last])[1..] == [last];
    }
    assert TargetFrom(t2, status + [last]) == TargetFrom(t3, [last]);
    assert TargetFrom(t3, [last]) == Ok(t3.(mappings := NormalAll(t.mappings)));
  }

  /** The registry that a list of targets stands for; the last target of a key wins. */
  ghost function Indexed(registry: Registry, ts: seq<SpecTarget>): Registry
    decreases |ts|
  {
    if ts == [] then registry
    else Indexed(registry[KeyOf(ts[0]) := NormalTarget(ts[0])], ts[1..])
  }

  lemma {:induction false} TargetsRoundTrip(registry: Registry, ts: seq<SpecTarget>)
    ensures TargetsFrom(registry, RenderTargets(ts)) == Ok(Indexed(registry, ts))
    decreases |ts|
  {
    hide RenderTarget, TargetFrom;
    if ts != [] {
      TargetRoundTrip(ts[0]);
      assert RenderTargets(ts)[1..] == RenderTargets(ts[1..]);
      TargetsRoundTrip(registry[KeyOf(ts[0]) := NormalTarget(ts[0])], ts[1..]);
    }
  }

  /** Reading a printed registry never fails and gives the printed targets, keyed by group and spec. */
  lemma RegistryRoundTrip(ts: seq<SpecTarget>)
    ensures Parse(Render(ts)) == Ok(Indexed(map[], ts))
  {
    hide RenderTargets, TargetsFrom, Indexed, Listing, Groups;
    TargetsRoundTrip(map[], ts);
    var file := Render(ts);
    var spec := ValueSpec(["targets"], [Composite(RenderTargets(ts))]);
    assert SpecsFrom(map[], [spec]) == Ok(Indexed(map[], ts)) by {
      assert [spec][1..] == [];
    }
    assert file[1..][1..] == file[2..] && file[2..][1..] == file[3..] && file[3..][1..] == file[4..]
           && file[4..][1..] == [];
    assert DeclsFrom(map[], file) == DeclsFrom(map[], file[1..]);
    assert DeclsFrom(map[], file[1..]) == DeclsFrom(map[], file[2..]);
    assert DeclsFrom(map[], file[2..]) == DeclsFrom(map[], file[3..]);
    assert file[3..][0] == Vars([spec]);
    assert DeclsFrom(map[], file[3..]) == DeclsFrom(Indexed(map[], ts), file[4..]);
    assert DeclsFrom(Indexed(map[], ts), file[4..]) == DeclsFrom(Indexed(map[], ts), []);
  }

  lemma {:induction false} IndexedEntry(registry: Registry, ts: seq<SpecTarget>, k: string)
    ensures (exists t :: t in ts && KeyOf(t) == k) ==> k in Indexed(registry, ts)
    ensures k in Indexed(registry, ts) ==>
              || (exists t :: t in ts && KeyOf(t) == k && Indexed(registry, ts)[k] == NormalTarget(t))
              || (k in registry && Indexed(registry, ts)[k] == registry[k])
    ensures k in registry ==> k in Indexed(registry, ts)
    decreases |ts|
  {
    hide NormalTarget, KeyOf;
    if ts != [] {
      assert ts == [ts[0]] + ts[1..];
      IndexedEntry(registry[KeyOf(ts[0]) := NormalTarget(ts[0])], ts[1..], k);
    }
  }
}
