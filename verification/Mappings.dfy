/**
 The SDK mappings of one registry target: merging override types, derived types and the entries of
 the checked-in registry, in a canonical order.
 */
module Mappings {
  import opened Orders
  import opened Text
  import opened SdkNames

  datatype SdkMapping = SdkMapping(sdkStruct: string, apiSurface: string, exclude: bool, reason: string)

  datatype MappingOverride = MappingOverride(apiSurface: string, exclude: bool, reason: string)

  /** One entry of the override table; an absent entry is `NO_OVERRIDE`, Go's zero value. */
  datatype TargetOverride = TargetOverride(
    sdkTypes: seq<string>,
    useStatus: bool,
    emptySdkMappings: bool,
    mappingOverrides: map<string, MappingOverride>)

  const NO_OVERRIDE := TargetOverride([], false, false, map[])

  // ----- qualified names -----

  function Qualified(service: string, typeName: string): string
  {
    service + ['.'] + typeName
  }

  function UnqualifiedType(sdkStruct: string, service: string): (r: Option<string>)
  {
    var parts := Split(TrimSpace(sdkStruct), '.');
    if |parts| != 2 || parts[0] != service then None else Some(parts[1])
  }

  predicate TrimmedEnd(t: string) {
    t != "" ==> !IsSpace(t[|t| - 1])
  }

  predicate TrimmedStart(s: string) {
    s != "" ==> !IsSpace(s[0])
  }

  lemma UnqualifiedJoins(sdkStruct: string, service: string)
    requires UnqualifiedType(sdkStruct, service).Some?
    ensures TrimSpace(sdkStruct) == Qualified(service, UnqualifiedType(sdkStruct, service).value)
    ensures '.' !in service && '.' !in UnqualifiedType(sdkStruct, service).value
    ensures TrimmedStart(service) && TrimmedEnd(UnqualifiedType(sdkStruct, service).value)
  {
    hide TrimSpace, Split, IsSpace, Join;
    var parts := Split(TrimSpace(sdkStruct), '.');
    SplitParts(TrimSpace(sdkStruct), '.');
    assert parts == [parts[0], parts[1]];
    JoinTwo(parts[0], parts[1], '.');
    var q := Qualified(service, parts[1]);
    assert service != "" ==> q[0] == service[0];
    assert parts[1] != "" ==> q[|q| - 1] == parts[1][|parts[1]| - 1];
  }

  /** A name the tool writes is read back as the same type exactly when it holds one dot and no outer blanks. */
  lemma QualifiedReadsBack(service: string, t: string)
    ensures UnqualifiedType(Qualified(service, t), service) == Some(t)
            <==> '.' !in service && '.' !in t && TrimmedStart(service) && TrimmedEnd(t)
  {
    hide TrimSpace, Split, IsSpace;
    DotIsNotSpace();
    var q := Qualified(service, t);
    if UnqualifiedType(q, service) == Some(t) {
      UnqualifiedJoins(q, service);
    }
    if '.' !in service && '.' !in t && TrimmedStart(service) && TrimmedEnd(t) {
      assert q[0] == if service == "" then '.' else service[0];
      assert q[|q| - 1] == if t == "" then '.' else t[|t| - 1];
      assert TrimSpace(q) == q;
      SplitTwo(service, t, '.');
    }
  }

  /** A type without trailing blanks is never read back as a different type. */
  lemma QualifiedReadsBackOnlyItself(service: string, t: string, u: string)
    requires TrimmedEnd(t) && UnqualifiedType(Qualified(service, t), service) == Some(u)
    ensures u == t
  {
    hide TrimSpace, UnqualifiedType, IsSpace;
    DotIsNotSpace();
    var q := Qualified(service, t);
    UnqualifiedJoins(q, service);
    assert q[0] == if service == "" then '.' else service[0];
    assert q[|q| - 1] == if t == "" then '.' else t[|t| - 1];
    assert TrimSpace(q) == q;
    QualifiedInjective(service, u, service, t, '.');
  }

  // ----- the checked-in mappings -----

  function TypesIn(service: string, mappings: seq<SdkMapping>): (types: set<string>)
  {
    set m | m in mappings && UnqualifiedType(m.sdkStruct, service).Some? :: UnqualifiedType(m.sdkStruct, service).value
  }

  /** The last entry for a type wins. */
  function ByType(service: string, mappings: seq<SdkMapping>): map<string, SdkMapping>
  {
    if mappings == [] then map[]
    else
      var rest := ByType(service, mappings[..|mappings| - 1]);
      var last := mappings[|mappings| - 1];
      match UnqualifiedType(last.sdkStruct, service)
      case None => rest
      case Some(t) => rest[t := last]
  }

  lemma {:induction false} ByTypeEntry(service: string, mappings: seq<SdkMapping>, t: string) returns (i: nat)
    requires t in ByType(service, mappings)
    ensures i < |mappings| && mappings[i] == ByType(service, mappings)[t]
    ensures UnqualifiedType(mappings[i].sdkStruct, service) == Some(t)
  {
    hide UnqualifiedType;
    var n := |mappings| - 1;
    if UnqualifiedType(mappings[n].sdkStruct, service) == Some(t) {
      i := n;
    } else {
      i := ByTypeEntry(service, mappings[..n], t);
    }
  }

  lemma {:induction false} ByTypeLast(service: string, mappings: seq<SdkMapping>, i: nat, t: string)
    requires i < |mappings| && UnqualifiedType(mappings[i].sdkStruct, service) == Some(t)
    requires forall j :: i < j < |mappings| ==> UnqualifiedType(mappings[j].sdkStruct, service) != Some(t)
    ensures t in ByType(service, mappings) && ByType(service, mappings)[t] == mappings[i]
  {
    hide UnqualifiedType;
    var n := |mappings| - 1;
    if i < n {
      ByTypeLast(service, mappings[..n], i, t);
    }
  }

  lemma {:induction false} ByTypeKeys(service: string, mappings: seq<SdkMapping>)
    ensures ByType(service, mappings).Keys == TypesIn(service, mappings)
  {
    hide UnqualifiedType;
    if mappings != [] {
      var n := |mappings| - 1;
      ByTypeKeys(service, mappings[..n]);
      assert mappings == mappings[..n] + [mappings[n]];
      assert forall m :: m in mappings <==> m in mappings[..n] || m == mappings[n];
    }
  }

  method ExistingByType(service: string, mappings: seq<SdkMapping>) returns (byType: map<string, SdkMapping>)
    ensures byType == ByType(service, mappings)
  {
    hide UnqualifiedType;
    byType := map[];
    for i := 0 to |mappings|
      invariant byType == ByType(service, mappings[..i])
    {
      assert mappings[..i + 1][..i] == mappings[..i];
      var t := UnqualifiedType(mappings[i].sdkStruct, service);
      if t.Some? {
        byType := byType[t.value := mappings[i]];
      }
    }
    assert mappings[..|mappings|] == mappings;
  }

  method ExistingTypeNames(service: string, mappings: seq<SdkMapping>) returns (names: seq<string>)
    ensures Elems(names) == TypesIn(service, mappings)
  {
    hide UnqualifiedType;
    names := [];
    for i := 0 to |mappings|
      invariant Elems(names) == TypesIn(service, mappings[..i])
    {
      assert mappings[..i + 1] == mappings[..i] + [mappings[i]];
      assert forall m :: m in mappings[..i + 1] <==> m in mappings[..i] || m == mappings[i];
      var t := UnqualifiedType(mappings[i].sdkStruct, service);
      if t.Some? {
        ElemsConcat(names, [t.value]);
        names := names + [t.value];
      }
    }
    assert mappings[..|mappings|] == mappings;
  }

  // ----- the canonical order -----

  /** The types a target tracks: a union of sets, whatever the order or multiplicity of the sources. */
  function Tracked(override_: TargetOverride, candidates: set<string>, existing: set<string>): set<string>
  {
    Elems(override_.sdkTypes) + override_.mappingOverrides.Keys + candidates + existing - {""}
  }

  /** `sdkCandidatesForTarget`: its own de-duplication and sort. */
  method SdkCandidates(
    service: string, derived: seq<string>, existing: seq<SdkMapping>) returns (candidates: seq<string>)
    ensures candidates == Listing(TypeLess, Elems(derived) + TypesIn(service, existing) - {""})
    ensures Elems(candidates) == Elems(derived) + TypesIn(service, existing) - {""}
  {
    var names := ExistingTypeNames(service, existing);
    var all := derived + names;
    candidates := UniqueByOrderLoop(all);
    candidates := Sort(TypeLess, candidates);
    SortedUnique(all);
    ElemsConcat(derived, names);
    TypeLessIsStrictTotal();
    ListingSpec(TypeLess, Elems(all) - {""});
  }

  /** `sdkMappingOrder` ranges over a Go map, sorts, appends, removes duplicates and sorts again; what
      comes out is the increasing listing of the tracked set. */
  method SdkMappingOrder(service: string, candidates: seq<string>, existing: seq<SdkMapping>, override_: TargetOverride)
    returns (order: seq<string>)
    ensures order == Listing(TypeLess, Tracked(override_, Elems(candidates), TypesIn(service, existing)))
    ensures Increasing(TypeLess, order) && Distinct(order) && "" !in order
  {
    var overrideTypes := SortedKeys(override_.mappingOverrides.Keys);
    LessIsStrictTotal();
    ListingSpec(Less, override_.mappingOverrides.Keys);
    var names := ExistingTypeNames(service, existing);
    var all := override_.sdkTypes + overrideTypes + candidates + names;
    ElemsConcat(override_.sdkTypes, overrideTypes);
    ElemsConcat(override_.sdkTypes + overrideTypes, candidates);
    ElemsConcat(override_.sdkTypes + overrideTypes + candidates, names);
    order := UniqueByOrderLoop(all);
    order := Sort(TypeLess, order);
    SortedUnique(all);
    TypeLessIsStrictTotal();
    ListingSpec(TypeLess, Elems(all) - {""});
    assert "" in order ==> "" in Elems(order);
  }

  // ----- building the mappings -----

  function DefaultMapping(service: string, t: string, byType: map<string, SdkMapping>): SdkMapping
  {
    if t in byType then byType[t] else SdkMapping(Qualified(service, t), "", false, "")
  }

  function ApplyOverride(mapping: SdkMapping, override_: TargetOverride, t: string): SdkMapping
  {
    var m := if override_.useStatus && Blank(mapping.apiSurface) then mapping.(apiSurface := "status") else mapping;
    if t !in override_.mappingOverrides then m
    else
      var o := override_.mappingOverrides[t];
      m.(apiSurface := if !Blank(o.apiSurface) then o.apiSurface else m.apiSurface,
         exclude := o.exclude || m.exclude,
         reason := if !Blank(o.reason) then o.reason else m.reason)
  }

  function MappingFor(
    service: string, t: string, byType: map<string, SdkMapping>, override_: TargetOverride): SdkMapping
  {
    ApplyOverride(DefaultMapping(service, t, byType), override_, t)
  }

  ghost function MappingsInOrder(
    service: string, order: seq<string>, byType: map<string, SdkMapping>,
    override_: TargetOverride): (ms: seq<SdkMapping>)
    ensures |ms| == |order|
    ensures forall i :: 0 <= i < |ms| ==> ms[i] == MappingFor(service, order[i], byType, override_)
  {
    seq(|order|, i requires 0 <= i < |order| => MappingFor(service, order[i], byType, override_))
  }

  ghost function MappingsOf(
    service: string, derived: set<string>, existing: seq<SdkMapping>, override_: TargetOverride): seq<SdkMapping>
  {
    if override_.emptySdkMappings then []
    else
      MappingsInOrder(service, Listing(TypeLess, Tracked(override_, derived, TypesIn(service, existing))),
                      ByType(service, existing), override_)
  }

  method BuildSdkMappings(
    service: string, candidates: seq<string>, override_: TargetOverride, existing: seq<SdkMapping>)
    returns (mappings: seq<SdkMapping>)
    ensures mappings == MappingsOf(service, Elems(candidates), existing, override_)
  {
    if override_.emptySdkMappings {
      return [];
    }
    var byType := ExistingByType(service, existing);
    var order := SdkMappingOrder(service, candidates, existing, override_);
    mappings := [];
    for i := 0 to |order|
      invariant mappings == MappingsInOrder(service, order[..i], byType, override_)
    {
      mappings := mappings + [MappingFor(service, order[i], byType, override_)];
    }
    assert order[..|order|] == order;
  }

  /** The candidates already hold the existing types, so passing them twice changes nothing. */
  lemma CandidatesAbsorbExisting(
    service: string, derived: set<string>, existing: seq<SdkMapping>, override_: TargetOverride)
    ensures MappingsOf(service, derived + TypesIn(service, existing) - {""}, existing, override_)
            == MappingsOf(service, derived, existing, override_)
  {
    assert Tracked(override_, derived + TypesIn(service, existing) - {""}, TypesIn(service, existing))
        == Tracked(override_, derived, TypesIn(service, existing));
  }

  // ----- what rendering keeps -----

  /** Rendering leaves out blank surfaces and reasons. */
  function Normal(m: SdkMapping): SdkMapping
  {
    m.(apiSurface := if Blank(m.apiSurface) then "" else m.apiSurface,
       reason := if Blank(m.reason) then "" else m.reason)
  }

  ghost function NormalAll(ms: seq<SdkMapping>): (r: seq<SdkMapping>)
    ensures |r| == |ms| && forall i :: 0 <= i < |r| ==> r[i] == Normal(ms[i])
  {
    seq(|ms|, i requires 0 <= i < |ms| => Normal(ms[i]))
  }

  lemma StatusIsNotBlank()
    ensures !Blank("status")
  {
  }

  /** Applying an override to what it produced changes nothing that is rendered. */
  lemma OverrideSettles(m: SdkMapping, override_: TargetOverride, t: string)
    ensures var once := Normal(ApplyOverride(m, override_, t));
            Normal(ApplyOverride(once, override_, t)) == once
  {
    hide Blank;
    BlankEmpty();
    StatusIsNotBlank();
  }

  predicate TrimmedTypes(types: set<string>) {
    forall t :: t in types ==> TrimmedEnd(t)
  }

  /** How a type that is written out by default is read back: not at all, as itself, as nothing that is tracked,
      or as another tracked type that is printed later and so overrules it. */
  predicate ReadsBackSafely(service: string, types: set<string>, t: string) {
    match UnqualifiedType(Qualified(service, t), service)
    case None => true
    case Some(u) => u == t || u == "" || (u in types && TypeLess(t, u))
  }

  predicate Safe(service: string, types: set<string>) {
    forall t :: t in types ==> ReadsBackSafely(service, types, t)
  }

  /** Names without trailing blanks, such as Go identifiers, are safe. */
  lemma TrimmedIsSafe(service: string, types: set<string>)
    requires TrimmedTypes(types)
    ensures Safe(service, types)
  {
    hide UnqualifiedType, TrimmedEnd;
    forall t | t in types ensures ReadsBackSafely(service, types, t) {
      var r := UnqualifiedType(Qualified(service, t), service);
      if r.Some? {
        QualifiedReadsBackOnlyItself(service, t, r.value);
      }
    }
  }

  /** What a type is read back as is read back as itself. */
  lemma ReadBackStays(service: string, t: string, u: string)
    requires UnqualifiedType(Qualified(service, t), service) == Some(u)
    ensures UnqualifiedType(Qualified(service, u), service) == Some(u)
  {
    hide UnqualifiedType, TrimmedEnd, TrimmedStart;
    UnqualifiedJoins(Qualified(service, t), service);
    QualifiedReadsBack(service, u);
  }

  /** The struct name that a built mapping prints. */
  lemma EntryStruct(service: string, existing: seq<SdkMapping>, override_: TargetOverride, t: string)
    ensures var name := Normal(MappingFor(service, t, ByType(service, existing), override_)).sdkStruct;
            && (t !in ByType(service, existing) ==> name == Qualified(service, t))
            && (t in ByType(service, existing) ==> UnqualifiedType(name, service) == Some(t))
  {
    hide UnqualifiedType, Blank, ByType;
    if t in ByType(service, existing) {
      var _ := ByTypeEntry(service, existing, t);
    }
  }

  lemma TypeListing(types: set<string>)
    ensures Distinct(Listing(TypeLess, types)) && Increasing(TypeLess, Listing(TypeLess, types))
    ensures forall t :: t in Listing(TypeLess, types) <==> t in types
  {
    TypeLessIsStrictTotal();
    ListingSpec(TypeLess, types);
    assert forall t :: t in Listing(TypeLess, types) <==> t in Elems(Listing(TypeLess, types));
  }

  function ReadAs(service: string, m: SdkMapping): Option<string>
  {
    UnqualifiedType(m.sdkStruct, service)
  }

  /** A mapping that stands in its type's place wins, when all others that are read as its type come before it. */
  lemma OwnEntryWins(service: string, order: seq<string>, ms: seq<SdkMapping>, j: nat)
    requires |ms| == |order| && j < |order| && Increasing(TypeLess, order) && ReadAs(service, ms[j]) == Some(order[j])
    requires forall i :: 0 <= i < |ms| && i != j && ReadAs(service, ms[i]) == Some(order[j]) ==>
             TypeLess(order[i], order[j])
    ensures order[j] in ByType(service, ms) && ByType(service, ms)[order[j]] == ms[j]
  {
    hide UnqualifiedType, ByType, TypeLess;
    TypeLessIsStrictTotal();
    forall k | j < k < |ms| ensures ReadAs(service, ms[k]) != Some(order[j]) {
      assert TypeLess(order[j], order[k]);
    }
    ByTypeLast(service, ms, j, order[j]);
  }

  /** The order in which a target's mappings are printed, and how each is read back. */
  lemma RenderedReadings(
    service: string, derived: set<string>, existing: seq<SdkMapping>, override_: TargetOverride, i: nat)
    requires !override_.emptySdkMappings && Safe(service, Tracked(override_, derived, {}))
    requires i < |Listing(TypeLess, Tracked(override_, derived, TypesIn(service, existing)))|
    ensures var base := Tracked(override_, derived, {});
            var x := Listing(TypeLess, Tracked(override_, derived, TypesIn(service, existing)))[i];
            var r := ReadAs(service, Normal(MappingFor(service, x, ByType(service, existing), override_)));
            && (x in ByType(service, existing) ==> r == Some(x))
            && (r == None || r == Some(x) || r == Some("") || (r.value in base && TypeLess(x, r.value)))
  {
    hide UnqualifiedType, Listing, ByType, MappingFor, Normal, TypesIn, TypeLess;
    var tracked := Tracked(override_, derived, TypesIn(service, existing));
    var x := Listing(TypeLess, tracked)[i];
    TypeListing(tracked);
    assert x in tracked;
    ByTypeKeys(service, existing);
    EntryStruct(service, existing, override_, x);
    if x !in ByType(service, existing) {
      assert x in Tracked(override_, derived, {});
      assert ReadsBackSafely(service, Tracked(override_, derived, {}), x);
    }
  }

  /** A type that some printed mapping is read as, or that existed, is read from its own mapping. */
  lemma OwnEntryRead(
    service: string, derived: set<string>, existing: seq<SdkMapping>, override_: TargetOverride, i: nat, t: string)
    returns (j: nat)
    requires !override_.emptySdkMappings && Safe(service, Tracked(override_, derived, {})) && t != ""
    requires var order := Listing(TypeLess, Tracked(override_, derived, TypesIn(service, existing)));
             i < |order| && ReadAs(service, Normal(MappingFor(service, order[i], ByType(service, existing), override_)))
                 == Some(t)
    ensures var order := Listing(TypeLess, Tracked(override_, derived, TypesIn(service, existing)));
            && j < |order| && order[j] == t
            && ReadAs(service, Normal(MappingFor(service, t, ByType(service, existing), override_))) == Some(t)
  {
    hide UnqualifiedType, Listing, ByType, MappingFor, Normal, TypesIn, TypeLess;
    var tracked := Tracked(override_, derived, TypesIn(service, existing));
    var order := Listing(TypeLess, tracked);
    TypeListing(tracked);
    RenderedReadings(service, derived, existing, override_, i);
    j := i;
    if order[i] != t {
      assert t in tracked;
      j :| 0 <= j < |order| && order[j] == t;
      EntryStruct(service, existing, override_, order[i]);
      EntryStruct(service, existing, override_, t);
      if t !in ByType(service, existing) {
        ReadBackStays(service, order[i], t);
      }
    }
  }

  /** What the rendered mappings of a target say about type `t` on the next reading. */
  lemma RenderedByType(
    service: string, derived: set<string>, existing: seq<SdkMapping>, override_: TargetOverride, t: string)
    requires !override_.emptySdkMappings && t != ""
    requires Safe(service, Tracked(override_, derived, {}))
    ensures var byType := ByType(service, existing);
            var next := ByType(service, NormalAll(MappingsOf(service, derived, existing, override_)));
            && (t in next ==> t in Tracked(override_, derived, TypesIn(service, existing)))
            && (t in next ==> next[t] == Normal(MappingFor(service, t, byType, override_)))
            && (t in byType ==> t in next)
  {
    hide UnqualifiedType, Listing, ByType, MappingFor, Normal, TypesIn, TypeLess, Safe;
    var byType := ByType(service, existing);
    var tracked := Tracked(override_, derived, TypesIn(service, existing));
    var order := Listing(TypeLess, tracked);
    var ms := NormalAll(MappingsOf(service, derived, existing, override_));
    TypeListing(tracked);
    ByTypeKeys(service, existing);
    var found := t in byType;
    var i := 0;
    if t in byType {
      assert t in tracked;
      i :| 0 <= i < |order| && order[i] == t;
      RenderedReadings(service, derived, existing, override_, i);
    } else if t in ByType(service, ms) {
      i := ByTypeEntry(service, ms, t);
      found := true;
    }
    if found {
      var j := OwnEntryRead(service, derived, existing, override_, i, t);
      forall k | 0 <= k < |ms| && k != j && ReadAs(service, ms[k]) == Some(t) ensures TypeLess(order[k], t) {
        RenderedReadings(service, derived, existing, override_, k);
      }
      OwnEntryWins(service, order, ms, j);
      assert order[j] in order;
    }
  }

  /** Building the mappings again from their printed form prints the same mappings. */
  ghost predicate Settles(service: string, derived: set<string>, existing: seq<SdkMapping>, override_: TargetOverride) {
    var once := NormalAll(MappingsOf(service, derived, existing, override_));
    NormalAll(MappingsOf(service, derived, once, override_)) == once
  }

  /** Reading back the rendered mappings and building them again renders the same mappings. */
  lemma MappingsSettle(service: string, derived: set<string>, existing: seq<SdkMapping>, override_: TargetOverride)
    requires override_.emptySdkMappings || Safe(service, Tracked(override_, derived, {}))
    ensures Settles(service, derived, existing, override_)
  {
    hide UnqualifiedType, Blank, Listing, ByType, ApplyOverride, Normal, Safe, TypeLess;
    if !override_.emptySdkMappings {
      var once := NormalAll(MappingsOf(service, derived, existing, override_));
      var byType, next := ByType(service, existing), ByType(service, once);
      ByTypeKeys(service, existing);
      ByTypeKeys(service, once);
      var tracked := Tracked(override_, derived, TypesIn(service, existing));
      assert Tracked(override_, derived, TypesIn(service, once)) == tracked by {
        forall t | t in TypesIn(service, once) && t != "" ensures t in tracked {
          RenderedByType(service, derived, existing, override_, t);
        }
        forall t | t in TypesIn(service, existing) && t != "" ensures t in TypesIn(service, once) {
          RenderedByType(service, derived, existing, override_, t);
        }
      }
      var order := Listing(TypeLess, tracked);
      TypeListing(tracked);
      var twice := NormalAll(MappingsOf(service, derived, once, override_));
      forall i | 0 <= i < |order| ensures twice[i] == once[i] {
        var t := order[i];
        assert t in tracked;
        RenderedByType(service, derived, existing, override_, t);
        if t in next {
          OverrideSettles(DefaultMapping(service, t, byType), override_, t);
        } else {
          assert t !in byType;
        }
      }
    }
  }

  // ----- exactly when the mappings settle -----

  lemma {:induction false} LastReading(service: string, ms: seq<SdkMapping>, i: nat, u: string) returns (l: nat)
    requires i < |ms| && ReadAs(service, ms[i]) == Some(u)
    ensures i <= l < |ms| && ReadAs(service, ms[l]) == Some(u)
    ensures forall k :: l < k < |ms| ==> ReadAs(service, ms[k]) != Some(u)
    decreases |ms| - i
  {
    hide ReadAs;
    if k :| i < k < |ms| && ReadAs(service, ms[k]) == Some(u) {
      l := LastReading(service, ms, k, u);
    } else {
      l := i;
    }
  }

  /** Without existing entries, mapping by mapping. */
  lemma FirstMappings(service: string, derived: set<string>, override_: TargetOverride)
    requires !override_.emptySdkMappings
    ensures var order := Listing(TypeLess, Tracked(override_, derived, {}));
            var once := NormalAll(MappingsOf(service, derived, [], override_));
            |once| == |order| && forall i :: 0 <= i < |order| ==> once[i].sdkStruct == Qualified(service, order[i])
  {
    hide Listing, MappingFor, Normal, UnqualifiedType, TypeLess;
    assert TypesIn(service, []) == {};
    var order := Listing(TypeLess, Tracked(override_, derived, {}));
    forall i | 0 <= i < |order|
      ensures Normal(MappingFor(service, order[i], ByType(service, []), override_)).sdkStruct
              == Qualified(service, order[i])
    {
      EntryStruct(service, [], override_, order[i]);
    }
  }

  /** A type read back as one that is not tracked makes the second build longer. */
  lemma UntrackedUnsettles(service: string, derived: set<string>, override_: TargetOverride, t: string, u: string)
    requires !override_.emptySdkMappings && t in Tracked(override_, derived, {})
    requires UnqualifiedType(Qualified(service, t), service) == Some(u) && u != ""
             && u !in Tracked(override_, derived, {})
    ensures !Settles(service, derived, [], override_)
  {
    hide UnqualifiedType, Listing, NormalAll, MappingsOf, TypeLess, Tracked, TypesIn, Increasing, Distinct;
    var base := Tracked(override_, derived, {});
    var order, once := Listing(TypeLess, base), NormalAll(MappingsOf(service, derived, [], override_));
    TypeListing(base);
    var i :| 0 <= i < |order| && order[i] == t;
    FirstMappingAt(service, derived, override_, i);
    assert u in TypesIn(service, once) by { TypeNamed(service, once, i, u); }
    TrackedMore(override_, derived, TypesIn(service, once), u);
    assert |base + {u}| == |base| + 1;
    SubsetCount(base + {u}, Tracked(override_, derived, TypesIn(service, once)));
    NothingTyped(service);
    MappingCount(service, derived, [], override_);
    MappingCount(service, derived, once, override_);
  }

  lemma TypeNamed(service: string, ms: seq<SdkMapping>, i: nat, u: string)
    requires i < |ms| && UnqualifiedType(ms[i].sdkStruct, service) == Some(u)
    ensures u in TypesIn(service, ms)
  {
    hide UnqualifiedType;
    assert ms[i] in ms;
  }

  lemma TrackedMore(override_: TargetOverride, derived: set<string>, types: set<string>, u: string)
    requires u in types && u != ""
    ensures Tracked(override_, derived, {}) + {u} <= Tracked(override_, derived, types)
  {
  }

  lemma SubsetCount<T>(a: set<T>, b: set<T>)
    requires a <= b
    ensures |a| <= |b|
    ensures |a| == |b| ==> a == b
  {
    assert b == a + (b - a);
  }

  /** The mapping that is read last for a type. */
  lemma LastForType(service: string, once: seq<SdkMapping>, order: seq<string>, i: nat, u: string) returns (l: nat)
    requires |once| == |order| && i < |order| && UnqualifiedType(once[i].sdkStruct, service) == Some(u)
    ensures i <= l < |order| && u in ByType(service, once) && ByType(service, once)[u] == once[l]
  {
    hide UnqualifiedType, ByType;
    l := LastReading(service, once, i, u);
    ByTypeLast(service, once, l, u);
  }

  lemma QualifiedDiffers(service: string, a: string, b: string)
    requires a != b
    ensures Qualified(service, a) != Qualified(service, b)
  {
    assert Qualified(service, a)[|service| + 1..] == a && Qualified(service, b)[|service| + 1..] == b;
  }

  lemma FirstMappingAt(service: string, derived: set<string>, override_: TargetOverride, i: nat)
    requires !override_.emptySdkMappings && i < |Listing(TypeLess, Tracked(override_, derived, {}))|
    ensures var order := Listing(TypeLess, Tracked(override_, derived, {}));
            var once := NormalAll(MappingsOf(service, derived, [], override_));
            |once| == |order| && once[i].sdkStruct == Qualified(service, order[i])
  {
    hide Listing, NormalAll, MappingsOf, TypeLess, Tracked, Qualified;
    FirstMappings(service, derived, override_);
  }

  /** A type read back as one that is printed earlier takes its place in the second build. */
  lemma LaterUnsettles(service: string, derived: set<string>, override_: TargetOverride, t: string, u: string)
    requires !override_.emptySdkMappings && t in Tracked(override_, derived, {})
    requires UnqualifiedType(Qualified(service, t), service) == Some(u) && u in Tracked(override_, derived, {})
             && TypeLess(u, t)
    ensures !Settles(service, derived, [], override_)
  {
    hide UnqualifiedType, Listing, ByType, NormalAll, MappingsOf, TypeLess, Tracked, Increasing, Settles, Distinct,
         Qualified;
    var base := Tracked(override_, derived, {});
    var order, once := Listing(TypeLess, base), NormalAll(MappingsOf(service, derived, [], override_));
    TypeListing(base);
    var i :| 0 <= i < |order| && order[i] == t;
    var j :| 0 <= j < |order| && order[j] == u;
    EarlierIndex(order, j, i);
    FirstMappingAt(service, derived, override_, i);
    FirstMappingAt(service, derived, override_, j);
    var l := LastForType(service, once, order, i, u);
    FirstMappingAt(service, derived, override_, l);
    DistinctAt(order, j, l);
    QualifiedDiffers(service, order[l], u);
    if Settles(service, derived, [], override_) {
      SecondMapping(service, derived, override_, j);
    }
  }

  lemma EarlierIndex(order: seq<string>, j: nat, i: nat)
    requires Increasing(TypeLess, order) && i < |order| && j < |order| && TypeLess(order[j], order[i])
    ensures j < i
  {
    hide TypeLess, Increasing;
    TypeLessIsStrictTotal();
    if i < j {
      IncreasingAt(order, i, j);
    }
  }

  lemma IncreasingAt(order: seq<string>, i: nat, j: nat)
    requires Increasing(TypeLess, order) && i < j < |order|
    ensures TypeLess(order[i], order[j])
  {
  }

  lemma DistinctAt(order: seq<string>, i: nat, j: nat)
    requires Distinct(order) && i < j < |order|
    ensures order[i] != order[j]
  {
  }

  /** In a build that settles, the second mapping of a type has the struct name that was read for it. */
  lemma SecondMapping(service: string, derived: set<string>, override_: TargetOverride, j: nat)
    requires !override_.emptySdkMappings && Settles(service, derived, [], override_)
    requires j < |Listing(TypeLess, Tracked(override_, derived, {}))|
    ensures var u := Listing(TypeLess, Tracked(override_, derived, {}))[j];
            var once := NormalAll(MappingsOf(service, derived, [], override_));
            j < |once| && (u in ByType(service, once) ==> once[j].sdkStruct == ByType(service, once)[u].sdkStruct)
  {
    hide UnqualifiedType, Listing, ByType, TypeLess, TypesIn, Blank;
    var base := Tracked(override_, derived, {});
    var once := NormalAll(MappingsOf(service, derived, [], override_));
    FirstMappings(service, derived, override_);
    NothingTyped(service);
    MappingCount(service, derived, [], override_);
    MappingCount(service, derived, once, override_);
    SubsetCount(base, Tracked(override_, derived, TypesIn(service, once)));
  }

  lemma NothingTyped(service: string)
    ensures TypesIn(service, []) == {}
  {
  }

  /** A target's mappings settle whatever the registry held, if and only if every type that overrides and
      derivation bring in is read back safely. */
  lemma SettlesIff(service: string, derived: set<string>, override_: TargetOverride)
    ensures (forall existing :: Settles(service, derived, existing, override_))
            <==> override_.emptySdkMappings || Safe(service, Tracked(override_, derived, {}))
  {
    hide Settles, UnqualifiedType, TypeLess, Tracked;
    var base := Tracked(override_, derived, {});
    if override_.emptySdkMappings || Safe(service, base) {
      forall existing ensures Settles(service, derived, existing, override_) {
        MappingsSettle(service, derived, existing, override_);
      }
    } else {
      UnsafeUnsettles(service, derived, override_);
    }
  }

  /** The first registry that shows it is the empty one. */
  lemma UnsafeUnsettles(service: string, derived: set<string>, override_: TargetOverride)
    requires !override_.emptySdkMappings && !Safe(service, Tracked(override_, derived, {}))
    ensures !Settles(service, derived, [], override_)
  {
    hide Settles, UnqualifiedType, TypeLess, Tracked;
    var base := Tracked(override_, derived, {});
    var t :| t in base && !ReadsBackSafely(service, base, t);
    var u := UnqualifiedType(Qualified(service, t), service).value;
    TypeLessIsStrictTotal();
    if u in base {
      LaterUnsettles(service, derived, override_, t, u);
    } else {
      UntrackedUnsettles(service, derived, override_, t, u);
    }
  }

  lemma MappingCount(service: string, derived: set<string>, existing: seq<SdkMapping>, o: TargetOverride)
    requires !o.emptySdkMappings
    ensures |NormalAll(MappingsOf(service, derived, existing, o))| == |Tracked(o, derived, TypesIn(service, existing))|
  {
    hide ByType, TypesIn, MappingFor, Normal, Listing, Tracked, TypeLess;
    TypeLessIsStrictTotal();
    ListingSpec(TypeLess, Tracked(o, derived, TypesIn(service, existing)));
  }

  /** One such input: an override type with a trailing blank, which is read back without it. */
  lemma TrailingBlankUnsettles(service: string, u: string)
    requires '.' !in service && TrimmedStart(service) && '.' !in u && u != "" && TrimmedEnd(u)
    ensures !Settles(service, {}, [], NO_OVERRIDE.(sdkTypes := [u + " "]))
  {
    hide UnqualifiedType, Settles, TrimmedEnd, TrimmedStart;
    var t := u + " ";
    var o := NO_OVERRIDE.(sdkTypes := [t]);
    BlankReadsTrimmed(service, u);
    assert |t| != |u|;
    OnlyTracked(t);
    UntrackedUnsettles(service, {}, o, t, u);
  }

  lemma OnlyTracked(t: string)
    requires t != ""
    ensures Tracked(NO_OVERRIDE.(sdkTypes := [t]), {}, {}) == {t}
  {
  }

  lemma BlankReadsTrimmed(service: string, u: string)
    requires '.' !in service && TrimmedStart(service) && '.' !in u && u != "" && TrimmedEnd(u)
    ensures UnqualifiedType(Qualified(service, u + " "), service) == Some(u)
  {
    hide Split, IsSpace;
    DotIsNotSpace();
    var q, r := Qualified(service, u + " "), Qualified(service, u);
    assert q[..|q| - 1] == r && q[|q| - 1] == ' ';
    assert r[|r| - 1] == u[|u| - 1] && q[0] == if service == "" then '.' else service[0];
    assert IsSpace(' ') by { SpaceIsSpace(); }
    assert TrimLeft(q) == q && TrimRight(r) == r;
    assert TrimSpace(q) == r;
    SplitTwo(service, u, '.');
  }

  lemma SpaceIsSpace()
    ensures IsSpace(' ')
  {
  }

  // ----- what a run keeps of an entry -----

  /** A type of the registry is still read after a run, whatever else is tracked. */
  lemma StaysTracked(
    service: string, derived: set<string>, existing: seq<SdkMapping>, override_: TargetOverride, t: string)
    requires !override_.emptySdkMappings && t != "" && t in ByType(service, existing)
    ensures t in ByType(service, NormalAll(MappingsOf(service, derived, existing, override_)))
  {
    hide UnqualifiedType, Listing, ByType, MappingFor, Normal, TypesIn, TypeLess, Increasing, Distinct;
    var tracked := Tracked(override_, derived, TypesIn(service, existing));
    var order := Listing(TypeLess, tracked);
    var ms := NormalAll(MappingsOf(service, derived, existing, override_));
    TypeListing(tracked);
    ByTypeKeys(service, existing);
    assert t in tracked;
    var j :| 0 <= j < |order| && order[j] == t;
    EntryStruct(service, existing, override_, t);
    TypeNamed(service, ms, j, t);
    ByTypeKeys(service, ms);
  }

  /** No other type of `types` is read back as `t` and printed after it. */
  predicate Unshadowed(service: string, types: set<string>, t: string) {
    forall x :: x in types && x != t && UnqualifiedType(Qualified(service, x), service) == Some(t) ==> TypeLess(x, t)
  }

  lemma SafeIsUnshadowed(service: string, types: set<string>, t: string)
    requires Safe(service, types) && t != ""
    ensures Unshadowed(service, types, t)
  {
    hide UnqualifiedType, TypeLess;
    forall x | x in types && x != t && UnqualifiedType(Qualified(service, x), service) == Some(t)
        ensures TypeLess(x, t) {
      assert ReadsBackSafely(service, types, x);
    }
  }

  /** The entry of a type survives a run, changed by the override only. */
  ghost predicate KeepsEntry(
    service: string, derived: set<string>, existing: seq<SdkMapping>, override_: TargetOverride, t: string) {
    var next := ByType(service, NormalAll(MappingsOf(service, derived, existing, override_)));
    t in next && next[t] == Normal(MappingFor(service, t, ByType(service, existing), override_))
  }

  lemma UnshadowedKept(
    service: string, derived: set<string>, existing: seq<SdkMapping>, override_: TargetOverride, t: string)
    requires !override_.emptySdkMappings && t != "" && t in ByType(service, existing)
    requires Unshadowed(service, Tracked(override_, derived, {}), t)
    ensures KeepsEntry(service, derived, existing, override_, t)
  {
    hide ByType, Unshadowed, KeepsEntry, TypesIn;
    ByTypeKeys(service, existing);
    UnshadowedRead(service, derived, existing, override_, t);
  }

  /** The entry that is read for a tracked type after a run is its own, when no other type shadows it. */
  lemma UnshadowedRead(
    service: string, derived: set<string>, existing: seq<SdkMapping>, override_: TargetOverride, t: string)
    requires !override_.emptySdkMappings && t in Tracked(override_, derived, TypesIn(service, existing))
    requires t in ByType(service, existing) || UnqualifiedType(Qualified(service, t), service) == Some(t)
    requires Unshadowed(service, Tracked(override_, derived, {}), t)
    ensures KeepsEntry(service, derived, existing, override_, t)
  {
    hide UnqualifiedType, Listing, ByType, MappingFor, Normal, TypesIn, TypeLess, Increasing, Distinct;
    var tracked := Tracked(override_, derived, TypesIn(service, existing));
    var order := Listing(TypeLess, tracked);
    var ms := NormalAll(MappingsOf(service, derived, existing, override_));
    TypeListing(tracked);
    ByTypeKeys(service, existing);
    var j :| 0 <= j < |order| && order[j] == t;
    EntryStruct(service, existing, override_, t);
    forall i | 0 <= i < |ms| && i != j && ReadAs(service, ms[i]) == Some(t) ensures TypeLess(order[i], t) {
      assert order[i] in order && order[i] in tracked;
      EntryStruct(service, existing, override_, order[i]);
      DistinctPair(order, i, j);
    }
    OwnEntryWins(service, order, ms, j);
  }

  lemma DistinctPair(order: seq<string>, i: nat, j: nat)
    requires Distinct(order) && i < |order| && j < |order| && i != j
    ensures order[i] != order[j]
  {
  }

  /** A type that is read back as `t` and printed after it: the next reading takes the entry of such a type. */
  lemma ShadowedLoses(
    service: string, derived: set<string>, m: SdkMapping, override_: TargetOverride, t: string, x: string)
    returns (y: string)
    requires !override_.emptySdkMappings && t != "" && m.sdkStruct == Qualified(service, t)
    requires x in Tracked(override_, derived, {}) && TypeLess(t, x)
    requires UnqualifiedType(Qualified(service, x), service) == Some(t)
    ensures t in ByType(service, [m]) && ByType(service, [m])[t] == m
    ensures y in Tracked(override_, derived, {}) && y != t
    ensures var next := ByType(service, NormalAll(MappingsOf(service, derived, [m], override_)));
            && t in next && next[t].sdkStruct == Qualified(service, y)
            && next[t] == Normal(MappingFor(service, y, map[t := m], override_))
  {
    hide UnqualifiedType, Listing, ByType, MappingFor, Normal, TypeLess, Increasing, Distinct, Qualified, Tracked,
         TypesIn;
    ReadBackStays(service, x, t);
    OnlyEntry(service, m, t);
    var tracked := Tracked(override_, derived, {t});
    var order := Listing(TypeLess, tracked);
    var ms := NormalAll(MappingsOf(service, derived, [m], override_));
    TypeListing(tracked);
    TrackedWith(override_, derived, t);
    var i :| 0 <= i < |order| && order[i] == x;
    var j :| 0 <= j < |order| && order[j] == t;
    EarlierIndex(order, j, i);
    TypeLessDiffers(t, x);
    EntryStruct(service, [m], override_, x);
    var l := LastForType(service, ms, order, i, t);
    DistinctAt(order, j, l);
    y := order[l];
    assert y in order;
    EntryStruct(service, [m], override_, y);
  }

  lemma TypeLessDiffers(t: string, x: string)
    requires TypeLess(t, x)
    ensures t != x
  {
    LessIrreflexive(t);
  }

  lemma OnlyEntry(service: string, m: SdkMapping, t: string)
    requires UnqualifiedType(m.sdkStruct, service) == Some(t)
    ensures ByType(service, [m]) == map[t := m] && TypesIn(service, [m]) == {t}
  {
    hide UnqualifiedType;
    assert [m][..0] == [];
    assert m in [m];
  }

  lemma TrackedWith(override_: TargetOverride, derived: set<string>, t: string)
    requires t != ""
    ensures Tracked(override_, derived, {t}) == Tracked(override_, derived, {}) + {t}
  {
  }

  /** A type's entry survives whatever the registry held, if and only if no other type shadows it. */
  lemma KeptIff(service: string, derived: set<string>, override_: TargetOverride, t: string)
    requires !override_.emptySdkMappings && t != ""
    ensures (forall existing :: t in ByType(service, existing) ==> KeepsEntry(service, derived, existing, override_, t))
            <==> Unshadowed(service, Tracked(override_, derived, {}), t)
  {
    hide UnqualifiedType, ByType, KeepsEntry, TypeLess, Tracked;
    var base := Tracked(override_, derived, {});
    if Unshadowed(service, base, t) {
      forall existing | t in ByType(service, existing) ensures KeepsEntry(service, derived, existing, override_, t) {
        UnshadowedKept(service, derived, existing, override_, t);
      }
    } else {
      var x :| x in base && x != t && UnqualifiedType(Qualified(service, x), service) == Some(t) && !TypeLess(x, t);
      TypeLessIsStrictTotal();
      ShadowedNotKept(service, derived, override_, t, x);
    }
  }

  lemma ShadowedNotKept(service: string, derived: set<string>, override_: TargetOverride, t: string, x: string)
    requires !override_.emptySdkMappings && t != ""
    requires x in Tracked(override_, derived, {}) && TypeLess(t, x)
    requires UnqualifiedType(Qualified(service, x), service) == Some(t)
    ensures exists existing :: t in ByType(service, existing) && !KeepsEntry(service, derived, existing, override_, t)
  {
    hide UnqualifiedType, ByType, TypeLess, Tracked, MappingsOf, NormalAll, Qualified, Blank;
    var m := SdkMapping(Qualified(service, t), "", true, "");
    var y := ShadowedLoses(service, derived, m, override_, t, x);
    QualifiedDiffers(service, y, t);
    assert Normal(MappingFor(service, t, ByType(service, [m]), override_)).sdkStruct == m.sdkStruct;
    assert !KeepsEntry(service, derived, [m], override_, t);
  }

  /** One such input: the registry excludes type `A`, an override adds `A` with a trailing blank, and after one
      run the entry that is read for `A` is not excluded any more. */
  lemma ExclusionLost(service: string)
    requires '.' !in service && TrimmedStart(service)
    ensures var o := NO_OVERRIDE.(sdkTypes := ["A "]);
            var existing := [SdkMapping(Qualified(service, "A"), "", true, "")];
            var next := ByType(service, NormalAll(MappingsOf(service, {}, existing, o)));
            && "A" in ByType(service, existing) && ByType(service, existing)["A"].exclude
            && "A" in next && !next["A"].exclude
  {
    hide UnqualifiedType, ByType, Tracked, MappingsOf, NormalAll, Qualified, TrimmedStart, TypeLess, Blank;
    var t, x := "A", "A" + " ";
    var o := NO_OVERRIDE.(sdkTypes := [x]);
    var m := SdkMapping(Qualified(service, t), "", true, "");
    assert x == "A ";
    assert TrimmedEnd(t) by { VisibleA(); }
    BlankReadsTrimmed(service, t);
    BlankPrintedLater();
    OnlyTracked(x);
    var y := ShadowedLoses(service, {}, m, o, t, x);
    assert y == x && y != t;
  }

  lemma VisibleA()
    ensures !IsSpace('A')
  {
  }

  lemma BlankPrintedLater()
    ensures TypeLess("A", "A ")
  {
    assert SdkTypeOrder("A") == 3 && SdkTypeOrder("A ") == 3;
    assert "A"[1..] == "" && "A "[1..] == " ";
    assert Less("A"[1..], "A "[1..]);
  }

  // ----- what a run does to an entry -----

  /** The entry `e` that a run leaves for type `t`: `old_` is the entry that was read, if there was one.  An override's
      surface and reason win over what was there, its exclusion adds to it, and `useStatus` fills an empty surface. */
  ghost predicate EntryAfter(
    service: string, old_: Option<SdkMapping>, override_: TargetOverride, t: string, e: SdkMapping) {
    var set_ := t in override_.mappingOverrides;
    var surface := if old_.Some? then old_.value.apiSurface else "";
    var reason := if old_.Some? then old_.value.reason else "";
    && e.sdkStruct == (if old_.Some? then old_.value.sdkStruct else service + "." + t)
    && (set_ && !Blank(override_.mappingOverrides[t].reason) ==> e.reason == override_.mappingOverrides[t].reason)
    && (!(set_ && !Blank(override_.mappingOverrides[t].reason)) ==> e.reason == if Blank(reason) then "" else reason)
    && (set_ && !Blank(override_.mappingOverrides[t].apiSurface) ==>
          e.apiSurface == override_.mappingOverrides[t].apiSurface)
    && (!(set_ && !Blank(override_.mappingOverrides[t].apiSurface)) && !Blank(surface) ==> e.apiSurface == surface)
    && (!(set_ && !Blank(override_.mappingOverrides[t].apiSurface)) && Blank(surface) ==>
          e.apiSurface == if override_.useStatus then "status" else "")
    && (e.exclude <==> (old_.Some? && old_.value.exclude) || (set_ && override_.mappingOverrides[t].exclude))
  }

  lemma OverrideTakesEffect(service: string, byType: map<string, SdkMapping>, override_: TargetOverride, t: string)
    ensures EntryAfter(service, if t in byType then Some(byType[t]) else None, override_, t,
                       Normal(MappingFor(service, t, byType, override_)))
  {
    hide Blank;
    BlankEmpty();
    StatusIsNotBlank();
  }

  /** Which types are read after a run: those that were, and whatever the types brought in are read back as. */
  lemma ReadAfter(
    service: string, derived: set<string>, existing: seq<SdkMapping>, override_: TargetOverride, t: string)
    requires !override_.emptySdkMappings && t != ""
    ensures t in ByType(service, NormalAll(MappingsOf(service, derived, existing, override_))) <==>
              || t in ByType(service, existing)
              || exists x :: x in Tracked(override_, derived, {}) && x !in ByType(service, existing)
                             && UnqualifiedType(Qualified(service, x), service) == Some(t)
  {
    hide UnqualifiedType, Listing, ByType, MappingFor, Normal, TypesIn, TypeLess, Increasing, Distinct, Qualified;
    var tracked := Tracked(override_, derived, TypesIn(service, existing));
    var order := Listing(TypeLess, tracked);
    var ms := NormalAll(MappingsOf(service, derived, existing, override_));
    TypeListing(tracked);
    ByTypeKeys(service, existing);
    ByTypeKeys(service, ms);
    if t in ByType(service, existing) {
      StaysTracked(service, derived, existing, override_, t);
    }
    if x :| x in Tracked(override_, derived, {}) && x !in ByType(service, existing)
            && UnqualifiedType(Qualified(service, x), service) == Some(t) {
      assert x in tracked;
      var j :| 0 <= j < |order| && order[j] == x;
      EntryStruct(service, existing, override_, x);
      TypeNamed(service, ms, j, t);
    }
    if t in ByType(service, ms) {
      var i := ByTypeEntry(service, ms, t);
      assert order[i] in order && order[i] in tracked;
      EntryStruct(service, existing, override_, order[i]);
    }
  }
}
