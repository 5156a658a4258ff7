/**
 SDK type names: how the registry tool derives them from a spec, removes duplicates and orders them.
 */
module SdkNames {
  import opened Orders
  import opened Text
  import opened SpecVariants

  // ----- orders -----

  function SdkTypeOrder(t: string): nat
  {
    if HasPrefix(t, "Create") && HasSuffix(t, "Details") then 0
    else if HasPrefix(t, "Update") && HasSuffix(t, "Details") then 1
    else if HasSuffix(t, "Details") then 2
    else if HasSuffix(t, "VersionSummary") then 4
    else if HasSuffix(t, "Summary") then 5
    else 3
  }

  /** The comparator of `sortSDKTypeNames`. */
  predicate TypeLess(a: string, b: string)
  {
    if SdkTypeOrder(a) != SdkTypeOrder(b) then SdkTypeOrder(a) < SdkTypeOrder(b) else Less(a, b)
  }

  lemma TypeLessIsStrictTotal()
    ensures StrictTotal(TypeLess)
  {
    LessIsStrictTotal();
  }

  /** The order on the shapes of names: the details first, of these the ones to create and then the ones to update; the
      summaries last, of these the ones of versions first; by name where the shapes do not decide. */
  lemma ShapesInOrder(a: string, b: string)
    ensures HasSuffix(a, "Details") && !HasSuffix(b, "Details") ==> TypeLess(a, b)
    ensures HasSuffix(a, "Details") && HasSuffix(b, "Details") ==>
              && (HasPrefix(a, "Create") && !HasPrefix(b, "Create") ==> TypeLess(a, b))
              && (!HasPrefix(b, "Create") && HasPrefix(a, "Update") && !HasPrefix(b, "Update") ==> TypeLess(a, b))
    ensures !HasSuffix(a, "Details") && !HasSuffix(a, "Summary") && HasSuffix(b, "Summary") ==> TypeLess(a, b)
    ensures HasSuffix(a, "VersionSummary") && HasSuffix(b, "Summary") && !HasSuffix(b, "VersionSummary") ==>
              TypeLess(a, b)
    ensures SameShape(a, b) ==> (TypeLess(a, b) <==> Less(a, b))
  {
    hide HasPrefix, HasSuffix, Less;
    ShapeEndings(a);
    ShapeEndings(b);
  }

  predicate SameShape(a: string, b: string) {
    && (HasSuffix(a, "Details") <==> HasSuffix(b, "Details"))
    && (HasSuffix(a, "Details") ==>
          && (HasPrefix(a, "Create") <==> HasPrefix(b, "Create"))
          && (HasPrefix(a, "Update") <==> HasPrefix(b, "Update")))
    && (HasSuffix(a, "Summary") <==> HasSuffix(b, "Summary"))
    && (HasSuffix(a, "VersionSummary") <==> HasSuffix(b, "VersionSummary"))
  }

  lemma ShapeEndings(t: string)
    ensures HasSuffix(t, "VersionSummary") ==> HasSuffix(t, "Summary")
    ensures HasSuffix(t, "Summary") ==> !HasSuffix(t, "Details")
    ensures HasPrefix(t, "Create") ==> !HasPrefix(t, "Update")
  {
    if HasSuffix(t, "VersionSummary") {
      SuffixOfSuffix(t, "VersionSummary", "Summary");
    }
    if HasSuffix(t, "Summary") {
      SuffixesDiffer(t, "Summary", "Details");
    }
    assert "Create"[0] == 'C' && "Update"[0] == 'U';
  }

  const GROUP_ORDER: seq<string> := [
    "database", "email", "generativeai", "mysql", "streaming", "queue", "functions", "marketplace", "nosql",
    "objectstorage", "ocvp", "oda", "ons", "logging", "psql", "usageapi", "events", "monitoring", "dns",
    "loadbalancer", "networkloadbalancer", "artifacts", "certificates", "certificatesmanagement",
    "containerengine", "identity", "keymanagement", "limits", "secrets", "vault", "core"
  ]

  function IndexFrom(names: seq<string>, name: string, i: nat): (k: nat)
    requires i <= |names|
    decreases |names| - i
  {
    if i == |names| then |names| + 100
    else if names[i] == name then i
    else IndexFrom(names, name, i + 1)
  }

  function GroupOrder(group: string): nat
  {
    IndexFrom(GROUP_ORDER, group, 0)
  }

  /** The comparator shared by every sort on API or SDK groups. */
  predicate GroupLess(a: string, b: string)
  {
    if GroupOrder(a) != GroupOrder(b) then GroupOrder(a) < GroupOrder(b) else Less(a, b)
  }

  lemma GroupLessIsStrictTotal()
    ensures StrictTotal(GroupLess)
  {
    LessIsStrictTotal();
  }

  lemma {:induction false} IndexFound(names: seq<string>, i: nat, k: nat)
    requires Distinct(names) && i <= k < |names|
    ensures IndexFrom(names, names[k], i) == k
    decreases k - i
  {
    if i < k {
      IndexFound(names, i + 1, k);
    }
  }

  lemma {:induction false} IndexMissing(names: seq<string>, name: string, i: nat)
    requires i <= |names| && name !in names
    ensures IndexFrom(names, name, i) == |names| + 100
    decreases |names| - i
  {
    if i < |names| {
      IndexMissing(names, name, i + 1);
    }
  }

  /** The groups of the list come first, in its order; the others follow by name. */
  ghost predicate FollowsList(named: seq<string>, a: string, b: string) {
    && (forall i, j :: 0 <= i < |named| && 0 <= j < |named| ==> (GroupLess(named[i], named[j]) <==> i < j))
    && (a in named && b !in named ==> GroupLess(a, b))
    && (a !in named && b !in named ==> (GroupLess(a, b) <==> Less(a, b)))
  }

  lemma FollowsAnyList(named: seq<string>, a: string, b: string)
    requires Distinct(named) && forall group :: GroupOrder(group) == IndexFrom(named, group, 0)
    ensures FollowsList(named, a, b)
  {
    hide Less, GroupOrder, IndexFrom;
    LessIsStrictTotal();
    forall i | 0 <= i < |named| ensures GroupOrder(named[i]) == i { IndexFound(named, 0, i); }
    if a !in named { IndexMissing(named, a, 0); }
    if b !in named { IndexMissing(named, b, 0); }
  }

  lemma GroupsInOrder(a: string, b: string)
    ensures FollowsList([
                "database", "email", "generativeai", "mysql", "streaming", "queue", "functions", "marketplace", "nosql",
                "objectstorage", "ocvp", "oda", "ons", "logging", "psql", "usageapi", "events", "monitoring", "dns",
                "loadbalancer", "networkloadbalancer", "artifacts", "certificates", "certificatesmanagement",
                "containerengine", "identity", "keymanagement", "limits", "secrets", "vault", "core"], a, b)
  {
    hide FollowsList, IndexFrom;
    NamedGroupsDistinct();
    FollowsAnyList(GROUP_ORDER, a, b);
  }

  lemma NamedGroupsDistinct()
    ensures Distinct(GROUP_ORDER)
  {
  }

  // ----- removing blanks and duplicates -----

  function UniqueByOrder(names: seq<string>): seq<string>
  {
    if names == [] then []
    else
      var init := UniqueByOrder(names[..|names| - 1]);
      var last := names[|names| - 1];
      if last == "" || last in init then init else init + [last]
  }

  method UniqueByOrderLoop(names: seq<string>) returns (out: seq<string>)
    ensures out == UniqueByOrder(names)
  {
    var seen: set<string> := {};
    out := [];
    for i := 0 to |names|
      invariant out == UniqueByOrder(names[..i])
      invariant seen == Elems(out)
    {
      assert names[..i + 1][..i] == names[..i];
      if names[i] != "" && names[i] !in seen {
        ElemsConcat(out, [names[i]]);
        seen := seen + {names[i]};
        out := out + [names[i]];
      }
    }
    assert names[..|names|] == names;
  }

  lemma {:induction false} UniqueByOrderSpec(names: seq<string>)
    ensures Distinct(UniqueByOrder(names))
    ensures Elems(UniqueByOrder(names)) == Elems(names) - {""}
  {
    if names != [] {
      var init, last := names[..|names| - 1], names[|names| - 1];
      UniqueByOrderSpec(init);
      assert names == init + [last];
      ElemsConcat(init, [last]);
      var u := UniqueByOrder(init);
      assert last in Elems(u) <==> last in u;
      if last != "" && last !in u {
        ElemsConcat(u, [last]);
      }
    }
  }

  /** The names that stay are in the order in which they first occur. */
  lemma {:induction false} UniqueByOrderKeepsOrder(names: seq<string>, i: nat, j: nat) returns (a: nat, b: nat)
    requires i < j < |UniqueByOrder(names)|
    ensures a < b < |names|
    ensures names[a] == UniqueByOrder(names)[i] && names[a] !in names[..a]
    ensures names[b] == UniqueByOrder(names)[j] && names[b] !in names[..b]
  {
    var init, last := names[..|names| - 1], names[|names| - 1];
    var u := UniqueByOrder(init);
    if j < |u| {
      a, b := UniqueByOrderKeepsOrder(init, i, j);
      assert names[..a] == init[..a] && names[..b] == init[..b];
    } else {
      UniqueByOrderSpec(init);
      b := |names| - 1;
      assert last !in init by {
        assert last in Elems(init) - {""} <==> last in Elems(u);
        assert last in init <==> last in Elems(init);
        assert last in u <==> last in Elems(u);
      }
      a := FirstOccurrence(init, u[i]);
      assert names[..a] == init[..a] && names[..b] == init;
    }
  }

  lemma {:induction false} FirstOccurrence(names: seq<string>, name: string) returns (a: nat)
    requires name in UniqueByOrder(names)
    ensures a < |names| && names[a] == name && name !in names[..a]
  {
    UniqueByOrderSpec(names);
    assert name in Elems(UniqueByOrder(names));
    assert name in names;
    a := 0;
    while names[a] != name
      invariant a < |names| && name !in names[..a]
      decreases |names| - a
    {
      assert names[..a + 1] == names[..a] + [names[a]];
      assert names == names[..a + 1] + names[a + 1..];
      a := a + 1;
    }
  }

  /** De-duplicating and sorting by the type order lists the set of the non-empty names. */
  lemma SortedUnique(names: seq<string>)
    ensures Sort(TypeLess, UniqueByOrder(names)) == Listing(TypeLess, Elems(names) - {""})
  {
    TypeLessIsStrictTotal();
    UniqueByOrderSpec(names);
    SortDistinct(TypeLess, UniqueByOrder(names));
  }

  // ----- candidate names -----

  /** `specVariants`: the spelling itself and, when different, the derived one. */
  function Variants(spec: string): seq<string>
  {
    UniqueByOrder(if Spelling(spec) != spec then [spec, Spelling(spec)] else [spec])
  }

  function InputBases(input: string): seq<string>
  {
    Variants(input) + (if HasSuffix(input, "ByName") then Variants(TrimSuffix(input, "ByName")) else [])
  }

  function CandidateBases(spec: string, targetName: string): seq<string>
  {
    UniqueByOrder(InputBases(spec) + (if targetName != "" && targetName != spec then InputBases(targetName) else []))
  }

  function PrimaryCandidates(base: string): seq<string>
  {
    ["Create" + base + "Details", "Update" + base + "Details", base, base + "Summary", base + "VersionSummary",
     base + "PublicOnly"]
  }

  function FallbackCandidates(base: string): seq<string>
  {
    [base + "Details", "Get" + base + "Details", base + "Collection", base + "Entry", base + "EntryCollection"]
  }

  function PluralAliases(base: string): seq<string>
  {
    UniqueByOrder(
      [base + "s"]
      + (if HasSuffix(base, "y") then [TrimSuffix(base, "y") + "ies"] else [])
      + (if HasSuffix(base, "ies") then [TrimSuffix(base, "ies") + "y"] else []))
  }

  function Gather(f: string -> seq<string>, bases: seq<string>): seq<string>
  {
    if bases == [] then [] else Gather(f, bases[..|bases| - 1]) + f(bases[|bases| - 1])
  }

  lemma {:induction false} GatherElems(f: string -> seq<string>, bases: seq<string>, t: string)
    ensures t in Gather(f, bases) <==> exists base :: base in bases && t in f(base)
  {
    if bases != [] {
      GatherElems(f, bases[..|bases| - 1], t);
      assert bases == bases[..|bases| - 1] + [bases[|bases| - 1]];
    }
  }

  function SecondaryCandidates(base: string): seq<string>
  {
    FallbackCandidates(base) + PluralAliases(base)
  }

  function Keep(structs: set<string>, names: seq<string>): seq<string>
  {
    if names == [] then []
    else
      Keep(structs, names[..|names| - 1])
      + (if names[|names| - 1] in structs then [names[|names| - 1]] else [])
  }

  lemma {:induction false} KeepElems(structs: set<string>, names: seq<string>)
    ensures Elems(Keep(structs, names)) == Elems(names) * structs
  {
    if names != [] {
      var init, last := names[..|names| - 1], names[|names| - 1];
      KeepElems(structs, init);
      assert names == init + [last];
      ElemsConcat(init, [last]);
      ElemsConcat(Keep(structs, init), if last in structs then [last] else []);
    }
  }

  lemma {:induction false} KeepConcat(structs: set<string>, a: seq<string>, b: seq<string>)
    ensures Keep(structs, a + b) == Keep(structs, a) + Keep(structs, b)
  {
    if b == [] {
      assert a + b == a;
    } else {
      assert (a + b)[..|a + b| - 1] == a + b[..|b| - 1];
      KeepConcat(structs, a, b[..|b| - 1]);
    }
  }

  lemma KeepNone(structs: set<string>)
    ensures Keep(structs, []) == []
  {
  }

  lemma KeepThree(structs: set<string>, a: seq<string>, b: seq<string>, c: seq<string>)
    ensures Keep(structs, a + b + c) == [] + Keep(structs, a) + Keep(structs, b) + Keep(structs, c)
  {
    KeepConcat(structs, a, b);
    KeepConcat(structs, a + b, c);
  }

  /** Every name the tool considers for a spec, in the order it considers them. */
  function Considered(overrideTypes: seq<string>, spec: string, targetName: string): seq<string>
  {
    var bases := CandidateBases(spec, targetName);
    overrideTypes + Gather(PrimaryCandidates, bases) + Gather(SecondaryCandidates, bases)
  }

  /** `addIf` over a list of names. */
  method AddEach(out: seq<string>, structs: set<string>, names: seq<string>) returns (out': seq<string>)
    ensures out' == out + Keep(structs, names)
  {
    out' := out;
    for i := 0 to |names|
      invariant out' == out + Keep(structs, names[..i])
    {
      assert names[..i + 1][..i] == names[..i];
      if names[i] in structs {
        out' := out' + [names[i]];
      }
    }
    assert names[..|names|] == names;
  }

  method AddPrimary(out: seq<string>, structs: set<string>, bases: seq<string>) returns (out': seq<string>)
    ensures out' == out + Keep(structs, Gather(PrimaryCandidates, bases))
  {
    hide PrimaryCandidates;
    out' := out;
    for i := 0 to |bases|
      invariant out' == out + Keep(structs, Gather(PrimaryCandidates, bases[..i]))
    {
      assert bases[..i + 1][..i] == bases[..i];
      KeepConcat(structs, Gather(PrimaryCandidates, bases[..i]), PrimaryCandidates(bases[i]));
      out' := AddEach(out', structs, PrimaryCandidates(bases[i]));
    }
    assert bases[..|bases|] == bases;
  }

  method AddSecondary(out: seq<string>, structs: set<string>, bases: seq<string>) returns (out': seq<string>)
    ensures out' == out + Keep(structs, Gather(SecondaryCandidates, bases))
  {
    hide FallbackCandidates, PluralAliases, Keep;
    KeepNone(structs);
    out' := out;
    for i := 0 to |bases|
      invariant out' == out + Keep(structs, Gather(SecondaryCandidates, bases[..i]))
    {
      assert bases[..i + 1][..i] == bases[..i];
      KeepConcat(structs, FallbackCandidates(bases[i]), PluralAliases(bases[i]));
      KeepConcat(structs, Gather(SecondaryCandidates, bases[..i]), SecondaryCandidates(bases[i]));
      out' := AddEach(out', structs, FallbackCandidates(bases[i]));
      out' := AddEach(out', structs, PluralAliases(bases[i]));
    }
    assert bases[..|bases|] == bases;
  }

  function DerivedTypes(overrideTypes: seq<string>, spec: string, targetName: string, structs: set<string>): seq<string>
  {
    UniqueByOrder(Keep(structs, Considered(overrideTypes, spec, targetName)))
  }

  /** Sound and complete: exactly the considered names that the vendored SDK declares, each once. */
  lemma DerivedTypesSpec(overrideTypes: seq<string>, spec: string, targetName: string, structs: set<string>)
    ensures Distinct(DerivedTypes(overrideTypes, spec, targetName, structs))
    ensures Elems(DerivedTypes(overrideTypes, spec, targetName, structs))
            == Elems(Considered(overrideTypes, spec, targetName)) * structs - {""}
  {
    UniqueByOrderSpec(Keep(structs, Considered(overrideTypes, spec, targetName)));
    KeepElems(structs, Considered(overrideTypes, spec, targetName));
  }

  /** `base` is `input` in either spelling. */
  predicate Spelled(input: string, base: string) {
    base == input || base == Spelling(input)
  }

  /** Names are made from the input and, when it ends in `ByName`, from what comes before. */
  ghost predicate BaseOf(input: string, base: string) {
    base != "" && (Spelled(input, base) || exists bare :: input == bare + "ByName" && Spelled(bare, base))
  }

  /** The names made from one base. */
  ghost predicate NameFrom(b: string, t: string) {
    || t == "Create" + b + "Details" || t == "Update" + b + "Details" || t == b || t == b + "Summary"
    || t == b + "VersionSummary" || t == b + "PublicOnly" || t == b + "Details" || t == "Get" + b + "Details"
    || t == b + "Collection" || t == b + "Entry" || t == b + "EntryCollection" || t == b + "s"
    || (exists stem :: b == stem + "y" && t == stem + "ies") || (exists stem :: b == stem + "ies" && t == stem + "y")
  }

  lemma VariantsSpec(input: string, base: string)
    ensures base in Variants(input) <==> base != "" && Spelled(input, base)
  {
    hide Spelling, UniqueByOrder;
    var all := if Spelling(input) != input then [input, Spelling(input)] else [input];
    UniqueByOrderSpec(all);
    assert base in UniqueByOrder(all) <==> base in Elems(UniqueByOrder(all));
    assert base in all <==> base in Elems(all);
  }

  lemma InputBasesSpec(input: string, base: string)
    ensures base in InputBases(input) <==> BaseOf(input, base)
  {
    hide Spelled, Variants;
    VariantsSpec(input, base);
    if HasSuffix(input, "ByName") {
      VariantsSpec(TrimSuffix(input, "ByName"), base);
      assert input == TrimSuffix(input, "ByName") + "ByName";
    }
    forall bare | input == bare + "ByName" ensures HasSuffix(input, "ByName") && TrimSuffix(input, "ByName") == bare {
      TrimAppended(bare, "ByName");
    }
  }

  lemma CandidateBasesSpec(spec: string, targetName: string, base: string)
    ensures base in CandidateBases(spec, targetName)
            <==> BaseOf(spec, base) || (targetName != "" && BaseOf(targetName, base))
  {
    hide InputBases, BaseOf, UniqueByOrder;
    InputBasesSpec(spec, base);
    InputBasesSpec(targetName, base);
    var all := InputBases(spec) + (if targetName != "" && targetName != spec then InputBases(targetName) else []);
    UniqueByOrderSpec(all);
    assert base in UniqueByOrder(all) <==> base in Elems(UniqueByOrder(all));
    assert base in all <==> base in Elems(all);
    assert BaseOf(spec, base) ==> base != "" by { BaseNamed(spec, base); }
    assert BaseOf(targetName, base) ==> base != "" by { BaseNamed(targetName, base); }
  }

  lemma BaseNamed(input: string, base: string)
    ensures BaseOf(input, base) ==> base != ""
  {
  }

  lemma PluralAliasesSpec(b: string, t: string)
    ensures t in PluralAliases(b)
            <==> || t == b + "s" || (exists stem :: b == stem + "y" && t == stem + "ies")
                 || (exists stem :: b == stem + "ies" && t == stem + "y")
  {
    hide UniqueByOrder, HasSuffix;
    var all := [b + "s"] + (if HasSuffix(b, "y") then [TrimSuffix(b, "y") + "ies"] else [])
      + (if HasSuffix(b, "ies") then [TrimSuffix(b, "ies") + "y"] else []);
    UniqueByOrderSpec(all);
    assert t in UniqueByOrder(all) <==> t in Elems(UniqueByOrder(all));
    assert t in all <==> t in Elems(all);
    EndsIn(b, "y");
    EndsIn(b, "ies");
  }

  lemma EndsIn(b: string, suffix: string)
    ensures HasSuffix(b, suffix) ==> b == TrimSuffix(b, suffix) + suffix
    ensures forall stem :: b == stem + suffix ==> HasSuffix(b, suffix) && TrimSuffix(b, suffix) == stem
  {
    forall stem | b == stem + suffix ensures HasSuffix(b, suffix) && TrimSuffix(b, suffix) == stem {
      TrimAppended(stem, suffix);
    }
  }

  lemma NamesFromBase(b: string, t: string)
    ensures t in PrimaryCandidates(b) || t in SecondaryCandidates(b) <==> NameFrom(b, t)
  {
    hide PluralAliases;
    PluralAliasesSpec(b, t);
  }

  /** What is derived, written out: the names of the override, and those made from the spec or the target name, that
      the vendored SDK declares. */
  lemma DerivedTypesNamed(overrideTypes: seq<string>, spec: string, targetName: string, structs: set<string>, t: string)
    ensures t in DerivedTypes(overrideTypes, spec, targetName, structs)
            <==> && t != "" && t in structs
                 && (t in overrideTypes
                     || exists b :: && (BaseOf(spec, b) || (targetName != "" && BaseOf(targetName, b)))
                                    && NameFrom(b, t))
  {
    hide DerivedTypes, NameFrom, BaseOf, CandidateBases, PrimaryCandidates, SecondaryCandidates, Gather;
    DerivedTypesSpec(overrideTypes, spec, targetName, structs);
    var types, all := DerivedTypes(overrideTypes, spec, targetName, structs),
        Considered(overrideTypes, spec, targetName);
    var bases := CandidateBases(spec, targetName);
    assert t in types <==> t in Elems(types);
    assert t in all <==> t in Elems(all);
    GatherElems(PrimaryCandidates, bases, t);
    GatherElems(SecondaryCandidates, bases, t);
    forall b
      ensures b in bases <==> BaseOf(spec, b) || (targetName != "" && BaseOf(targetName, b))
      ensures t in PrimaryCandidates(b) || t in SecondaryCandidates(b) <==> NameFrom(b, t)
    {
      CandidateBasesSpec(spec, targetName, b);
      NamesFromBase(b, t);
    }
  }

  method DeriveSdkTypes(overrideTypes: seq<string>, spec: string, targetName: string, structs: set<string>)
    returns (types: seq<string>)
    ensures types == DerivedTypes(overrideTypes, spec, targetName, structs)
  {
    var bases := CandidateBases(spec, targetName);
    var out := AddEach([], structs, overrideTypes);
    out := AddPrimary(out, structs, bases);
    out := AddSecondary(out, structs, bases);
    KeepThree(structs, overrideTypes, Gather(PrimaryCandidates, bases), Gather(SecondaryCandidates, bases));
    types := UniqueByOrderLoop(out);
  }

  // ----- kind selection -----

  datatype ApiTypeInfo = ApiTypeInfo(spec: string, status: string)

  datatype Selection = Selected(specs: seq<ApiTypeInfo>) | Missing(kinds: seq<string>)

  function SpecNames(specs: seq<ApiTypeInfo>): (names: set<string>)
  {
    set s | s in specs :: s.spec
  }

  /** Keep the first entry of each wanted kind. */
  function FirstOfEach(specs: seq<ApiTypeInfo>, wanted: set<string>): seq<ApiTypeInfo>
  {
    if specs == [] then []
    else if specs[0].spec in wanted then [specs[0]] + FirstOfEach(specs[1..], wanted - {specs[0].spec})
    else FirstOfEach(specs[1..], wanted)
  }

  /** `sort.Strings` over the keys of a map. */
  method SortedKeys(names: set<string>) returns (out: seq<string>)
    ensures out == Listing(Less, names)
  {
    LessIsStrictTotal();
    out := SortedElements(Less, names);
  }

  method FilterConfiguredApiSpecs(selectedKinds: seq<string>, specs: seq<ApiTypeInfo>) returns (r: Selection)
    ensures r.Selected? <==> forall k :: k in selectedKinds ==> k in SpecNames(specs)
    ensures r.Selected? ==>
              r.specs == if selectedKinds == [] then specs else FirstOfEach(specs, Elems(selectedKinds))
    ensures r.Missing? ==> r.kinds == Listing(Less, Elems(selectedKinds) - SpecNames(specs))
  {
    if |selectedKinds| == 0 {
      return Selected(specs);
    }
    var selected: set<string> := set k | k in selectedKinds;
    var filtered := [];
    for i := 0 to |specs|
      invariant selected == Elems(selectedKinds) - SpecNames(specs[..i])
      invariant filtered + FirstOfEach(specs[i..], selected) == FirstOfEach(specs, Elems(selectedKinds))
    {
      assert specs[..i + 1] == specs[..i] + [specs[i]];
      assert SpecNames(specs[..i + 1]) == SpecNames(specs[..i]) + {specs[i].spec};
      assert specs[i..][1..] == specs[i + 1..];
      if specs[i].spec in selected {
        filtered := filtered + [specs[i]];
        selected := selected - {specs[i].spec};
      }
    }
    assert specs[..|specs|] == specs;
    assert filtered == FirstOfEach(specs, Elems(selectedKinds));
    if selected == {} {
      forall k | k in selectedKinds ensures k in SpecNames(specs) {
        assert k in Elems(selectedKinds);
        assert k !in selected;
      }
      return Selected(filtered);
    }
    var missing := SortedKeys(selected);
    assert exists k :: k in selected;
    r := Missing(missing);
  }

  /** From a listing with distinct names (as `sortedAPITypeInfo` gives) the filter keeps exactly the selected specs. */
  lemma {:induction false} FirstOfEachSpec(specs: seq<ApiTypeInfo>, wanted: set<string>)
    requires forall i, j :: 0 <= i < j < |specs| ==> specs[i].spec != specs[j].spec
    ensures forall s :: s in FirstOfEach(specs, wanted) <==> s in specs && s.spec in wanted
    ensures Distinct(FirstOfEach(specs, wanted))
  {
    if specs != [] {
      assert specs == [specs[0]] + specs[1..];
      if specs[0].spec in wanted {
        FirstOfEachSpec(specs[1..], wanted - {specs[0].spec});
        assert forall s :: s in specs[1..] ==> s.spec != specs[0].spec;
      } else {
        FirstOfEachSpec(specs[1..], wanted);
      }
    }
  }
}
