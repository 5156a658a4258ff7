/**
 What the registry reader makes of any composite literal, not only of those that the tool prints.
 */
module RegistryReading {
  import opened Text
  import opened Mappings
  import opened ApiRegistry

  /** The last of the fields with one of these keys. */
  function LastField(elements: seq<Element>, keys: set<string>): (r: Option<Element>)
    ensures r.Some? ==> r.value.Field? && r.value.key in keys && r.value in elements
    ensures r.None? ==> forall e :: e in elements && e.Field? ==> e.key !in keys
  {
    if elements == [] then None
    else
      var later := LastField(elements[1..], keys);
      assert elements == [elements[0]] + elements[1..];
      if later.Some? then later
      else if elements[0].Field? && elements[0].key in keys then Some(elements[0])
      else None
  }

  lemma LastFieldNext(elements: seq<Element>, keys: set<string>)
    requires elements != []
    ensures var later := LastField(elements[1..], keys);
            LastField(elements, keys) == if later.Some? then later
                                         else if elements[0].Field? && elements[0].key in keys then Some(elements[0])
                                         else None
  {
  }

  function TextOf(e: Option<Element>, otherwise: string): string
  {
    if e.Some? && e.value.Field? && e.value.expr.Str? then e.value.expr.value else otherwise
  }

  predicate MappingFieldReadable(e: Element) {
    && (e.Field? && e.key in {"SDKStruct", "APISurface", "Reason"} ==> e.expr.Str?)
    && (e.Field? && e.key == "Exclude" ==> e.expr in {Ident("true"), Ident("false")})
  }

  predicate MappingReadable(elements: seq<Element>) {
    forall e :: e in elements ==> MappingFieldReadable(e)
  }

  lemma MappingFieldRead(m: SdkMapping, e: Element)
    requires e.Field?
    ensures var r := ApplyMappingField(m, e.key, e.expr);
            && (r.Ok? <==> MappingFieldReadable(e))
            && (r.Ok? ==> r.value == SdkMapping(
                  if e.key == "SDKStruct" then TextOf(Some(e), "") else m.sdkStruct,
                  if e.key == "APISurface" then TextOf(Some(e), "") else m.apiSurface,
                  if e.key == "Exclude" then e.expr == Ident("true") else m.exclude,
                  if e.key == "Reason" then TextOf(Some(e), "") else m.reason))
  {
  }

  /** A mapping is read exactly when its known fields have the expected form; each part comes from the last field of
      its key, and other keys and bare elements are passed over. */
  lemma {:induction false} MappingRead(m: SdkMapping, elements: seq<Element>)
    ensures MappingFrom(m, elements).Ok? <==> MappingReadable(elements)
    ensures MappingFrom(m, elements).Ok? ==>
              var v := MappingFrom(m, elements).value;
              && v.sdkStruct == TextOf(LastField(elements, {"SDKStruct"}), m.sdkStruct)
              && v.apiSurface == TextOf(LastField(elements, {"APISurface"}), m.apiSurface)
              && v.reason == TextOf(LastField(elements, {"Reason"}), m.reason)
              && (var e := LastField(elements, {"Exclude"});
                  v.exclude == if e.Some? then e.value.expr == Ident("true") else m.exclude)
    decreases |elements|
  {
    hide ApplyMappingField;
    if elements != [] {
      assert elements == [elements[0]] + elements[1..];
      if elements[0].Plain? {
        MappingRead(m, elements[1..]);
      } else {
        MappingFieldRead(m, elements[0]);
        var r := ApplyMappingField(m, elements[0].key, elements[0].expr);
        if r.Ok? {
          MappingRead(r.value, elements[1..]);
        }
      }
    }
  }

  predicate MappingElementReadable(e: Element) {
    e.Plain? && e.expr.Composite? && MappingReadable(e.expr.elements)
  }

  /** A list of mappings is read exactly when every element is a readable mapping, each to what it is read as alone. */
  lemma {:induction false} MappingsRead(elements: seq<Element>)
    ensures MappingsFrom(elements).Ok? <==> forall e :: e in elements ==> MappingElementReadable(e)
    ensures MappingsFrom(elements).Ok? ==>
              && |MappingsFrom(elements).value| == |elements|
              && forall i :: 0 <= i < |elements| ==>
                   && elements[i].expr.Composite?
                   && Ok(MappingsFrom(elements).value[i]) == MappingFrom(ZERO_MAPPING, elements[i].expr.elements)
  {
    hide MappingFrom, MappingReadable;
    if elements != [] {
      assert elements == [elements[0]] + elements[1..];
      if elements[0].Plain? && elements[0].expr.Composite? {
        MappingRead(ZERO_MAPPING, elements[0].expr.elements);
      }
      MappingsRead(elements[1..]);
      assert (forall e :: e in elements ==> MappingElementReadable(e))
        <==> MappingElementReadable(elements[0]) && forall e :: e in elements[1..] ==> MappingElementReadable(e);
    }
  }

  /** The older form, a list of strings, is read as mappings that say nothing but their type. */
  lemma {:induction false} LegacyMappingsRead(elements: seq<Element>)
    ensures LegacyMappingsFrom(elements).Ok? <==> forall e :: e in elements ==> e.Plain? && e.expr.Str?
    ensures LegacyMappingsFrom(elements).Ok? ==>
              && |LegacyMappingsFrom(elements).value| == |elements|
              && forall i :: 0 <= i < |elements| ==>
                   && elements[i].expr.Str?
                   && LegacyMappingsFrom(elements).value[i] == SdkMapping(elements[i].expr.value, "", false, "")
  {
    if elements != [] {
      assert elements == [elements[0]] + elements[1..];
      LegacyMappingsRead(elements[1..]);
    }
  }

  predicate TargetFieldReadable(e: Element) {
    && (e.Field? && e.key == "Name" ==> e.expr.Str?)
    && (e.Field? && e.key in {"SpecType", "StatusType"} ==> e.expr.TypeOf?)
    && (e.Field? && e.key == "SDKMappings" ==> e.expr.Composite? && MappingsFrom(e.expr.elements).Ok?)
    && (e.Field? && e.key == "SDKStructs" ==> e.expr.Composite? && LegacyMappingsFrom(e.expr.elements).Ok?)
  }

  /** What one of the two mapping fields stands for. */
  function MappingsOfField(e: Element): seq<SdkMapping>
  {
    if !e.Field? || !e.expr.Composite? then []
    else
      var r := if e.key == "SDKMappings" then MappingsFrom(e.expr.elements) else LegacyMappingsFrom(e.expr.elements);
      if r.Ok? then r.value else []
  }

  lemma TargetFieldRead(t: SpecTarget, e: Element)
    requires e.Field?
    ensures var r := ApplyTargetField(t, e.key, e.expr);
            && (r.Ok? <==> TargetFieldReadable(e))
            && (r.Ok? ==> r.value == SpecTarget(
                  t.service,
                  if e.key == "SpecType" then TrimSuffix(e.expr.pkg, "v1beta1") else t.group,
                  if e.key == "SpecType" then TrimSuffix(e.expr.typeName, "Spec") else t.spec,
                  if e.key == "StatusType" then e.expr.typeName else t.status,
                  if e.key == "Name" then TextOf(Some(e), "") else t.name,
                  if e.key in {"SDKMappings", "SDKStructs"} then MappingsOfField(e) else t.mappings))
  {
    hide TrimSuffix, MappingsFrom, LegacyMappingsFrom;
  }

  /** A target is read exactly when its known fields have the expected form. */
  lemma {:induction false} TargetReadIff(t: SpecTarget, elements: seq<Element>)
    ensures TargetFrom(t, elements).Ok? <==> forall e :: e in elements ==> TargetFieldReadable(e)
    decreases |elements|
  {
    hide ApplyTargetField, MappingsFrom, LegacyMappingsFrom;
    if elements != [] {
      assert elements == [elements[0]] + elements[1..];
      if elements[0].Plain? {
        TargetReadIff(t, elements[1..]);
      } else {
        TargetFieldRead(t, elements[0]);
        var r := ApplyTargetField(t, elements[0].key, elements[0].expr);
        if r.Ok? {
          TargetReadIff(r.value, elements[1..]);
        }
      }
    }
  }

  /** The group and the spec are the last spec type without `v1beta1` and `Spec`, and of the new and the old mapping
      lists the last one counts. */
  lemma {:induction false} TargetRead(t: SpecTarget, elements: seq<Element>)
    requires TargetFrom(t, elements).Ok?
    ensures var v := TargetFrom(t, elements).value;
            var spec, status := LastField(elements, {"SpecType"}), LastField(elements, {"StatusType"});
            var mappings := LastField(elements, {"SDKMappings", "SDKStructs"});
            var name := LastField(elements, {"Name"});
            && v.service == t.service && (name.Some? ==> name.value.expr.Str?)
            && (spec.Some? ==> spec.value.expr.TypeOf?) && (status.Some? ==> status.value.expr.TypeOf?)
            && v.group == (if spec.Some? then TrimSuffix(spec.value.expr.pkg, "v1beta1") else t.group)
            && v.spec == (if spec.Some? then TrimSuffix(spec.value.expr.typeName, "Spec") else t.spec)
            && v.status == (if status.Some? then status.value.expr.typeName else t.status)
            && v.name == TextOf(name, t.name)
            && v.mappings == (if mappings.Some? then MappingsOfField(mappings.value) else t.mappings)
    decreases |elements|
  {
    hide ApplyTargetField, TrimSuffix, MappingsOfField, MappingsFrom, LegacyMappingsFrom, LastField;
    if elements != [] {
      LastFieldNext(elements, {"Name"});
      LastFieldNext(elements, {"SpecType"});
      LastFieldNext(elements, {"StatusType"});
      LastFieldNext(elements, {"SDKMappings", "SDKStructs"});
      if elements[0].Plain? {
        TargetRead(t, elements[1..]);
      } else {
        TargetFieldRead(t, elements[0]);
        TargetRead(ApplyTargetField(t, elements[0].key, elements[0].expr).value, elements[1..]);
      }
    } else {
      NoField();
    }
  }

  lemma NoField()
    ensures forall keys :: LastField([], keys) == None
  {
  }
}
