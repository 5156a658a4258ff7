/**
 The SDK registry: which SDK structs it lists, in which order, and how the printed entries, grouped by
 package, read back.
 */
module SdkRegistry {
  import opened Orders
  import opened Text
  import opened SdkNames
  import opened Mappings
  import opened ApiRegistry
  import Regeneration

  datatype SdkTarget = SdkTarget(group: string, typeName: string)

  /** The comparator of `buildSDKTargets`. */
  predicate SdkLess(a: SdkTarget, b: SdkTarget)
  {
    if a.group != b.group then GroupLess(a.group, b.group) else TypeLess(a.typeName, b.typeName)
  }

  lemma SdkLessIsStrictTotal()
    ensures StrictTotal(SdkLess)
  {
    hide GroupLess, TypeLess;
    GroupLessIsStrictTotal();
    TypeLessIsStrictTotal();
  }

  function TwoParts(sdkStruct: string): (r: Option<SdkTarget>)
  {
    var parts := Split(sdkStruct, '.');
    if |parts| == 2 then Some(SdkTarget(parts[0], parts[1])) else None
  }

  lemma TwoPartsJoins(sdkStruct: string)
    requires TwoParts(sdkStruct).Some?
    ensures sdkStruct == Qualified(TwoParts(sdkStruct).value.group, TwoParts(sdkStruct).value.typeName)
  {
    var parts := Split(sdkStruct, '.');
    JoinSplit(sdkStruct, '.');
    assert parts == [parts[0], parts[1]];
    JoinTwo(parts[0], parts[1], '.');
  }

  function StructNames(ts: seq<SpecTarget>): (names: set<string>)
  {
    set t, m | t in ts && m in t.mappings :: m.sdkStruct
  }

  /** Exactly the two-part struct names that the API targets mention. */
  function Mentioned(ts: seq<SpecTarget>): (xs: set<SdkTarget>)
  {
    set n | n in StructNames(ts) && TwoParts(n).Some? :: TwoParts(n).value
  }

  /** The tool's map from struct name to target, filled over all mappings. */
  method CollectStructs(ts: seq<SpecTarget>) returns (found: map<string, SdkTarget>)
    ensures forall n :: n in found <==> n in StructNames(ts) && TwoParts(n).Some?
    ensures forall n :: n in found ==> TwoParts(n) == Some(found[n])
  {
    hide TwoParts;
    found := map[];
    for i := 0 to |ts|
      invariant forall n :: n in found <==> n in StructNames(ts[..i]) && TwoParts(n).Some?
      invariant forall n :: n in found ==> TwoParts(n) == Some(found[n])
    {
      ghost var before := found;
      var ms := ts[i].mappings;
      for k := 0 to |ms|
        invariant forall n :: n in found <==>
                    (n in before || (exists m :: m in ms[..k] && m.sdkStruct == n)) && TwoParts(n).Some?
        invariant forall n :: n in found ==> TwoParts(n) == Some(found[n])
      {
        assert ms[..k + 1] == ms[..k] + [ms[k]];
        var parts := TwoParts(ms[k].sdkStruct);
        if parts.Some? {
          found := found[ms[k].sdkStruct := parts.value];
        }
      }
      assert ms[..|ms|] == ms;
      assert ts[..i + 1] == ts[..i] + [ts[i]];
      forall n ensures n in StructNames(ts[..i + 1]) <==>
          n in StructNames(ts[..i]) || (exists m :: m in ms && m.sdkStruct == n) {
      }
    }
    assert ts[..|ts|] == ts;
  }

  /** Closed and deterministic: the list is the increasing listing of the mentioned structs, for every
      order in which the map is ranged over. */
  method BuildSdkTargets(ts: seq<SpecTarget>) returns (out: seq<SdkTarget>)
    ensures out == Listing(SdkLess, Mentioned(ts))
    ensures Increasing(SdkLess, out) && Elems(out) == Mentioned(ts)
  {
    hide TwoParts, StructNames, SdkLess;
    var found := CollectStructs(ts);
    var rest := found.Keys;
    out := [];
    while rest != {}
      invariant rest <= found.Keys
      invariant forall x :: x in out <==> exists n :: n in found.Keys - rest && found[n] == x
      invariant Distinct(out)
      decreases rest
    {
      var n :| n in rest;
      forall m | m in found.Keys - rest ensures found[m] != found[n] {
        TwoPartsJoins(m);
        TwoPartsJoins(n);
      }
      assert found[n] !in out;
      rest := rest - {n};
      out := out + [found[n]];
    }
    assert Elems(out) == Mentioned(ts) by {
      forall x | x in Elems(out) ensures x in Mentioned(ts) {
        var n :| n in found && found[n] == x;
      }
      forall x | x in Mentioned(ts) ensures x in Elems(out) {
        var n :| n in StructNames(ts) && TwoParts(n) == Some(x);
        assert n in found && found[n] == x;
        assert x in out;
      }
    }
    SdkLessIsStrictTotal();
    SortDistinct(SdkLess, out);
    ListingSpec(SdkLess, Mentioned(ts));
    out := Sort(SdkLess, out);
  }

  // ----- printing by group -----

  function GroupsIn(list: seq<SdkTarget>): (groups: set<string>)
  {
    set x | x in list :: x.group
  }

  /** Two packages are always imported, for the table of interface implementations. */
  const REQUIRED := {"mysql", "databasetools"}

  method SdkRegistryGroups(list: seq<SdkTarget>) returns (groups: seq<string>)
    ensures groups == Listing(GroupLess, GroupsIn(list) + {"mysql", "databasetools"})
  {
    GroupLessIsStrictTotal();
    groups := SortedElements(GroupLess, GroupsIn(list) + REQUIRED);
  }

  function TypesOfGroup(list: seq<SdkTarget>, g: string): seq<string>
  {
    if list == [] then []
    else
      TypesOfGroup(list[..|list| - 1], g)
      + (if list[|list| - 1].group == g then [list[|list| - 1].typeName] else [])
  }

  lemma {:induction false} TypesOfGroupSpec(list: seq<SdkTarget>, g: string, t: string)
    ensures t in TypesOfGroup(list, g) <==> SdkTarget(g, t) in list
  {
    if list != [] {
      var n := |list| - 1;
      assert list == list[..n] + [list[n]];
      TypesOfGroupSpec(list[..n], g, t);
    }
  }

  /** `sdkTargetsByGroup`: sorted by name, then again by the type order. */
  function PrintedTypes(list: seq<SdkTarget>, g: string): seq<string>
  {
    Sort(TypeLess, Sort(Less, UniqueByOrder(TypesOfGroup(list, g))))
  }

  lemma PrintedTypesSpec(list: seq<SdkTarget>, g: string)
    ensures Increasing(TypeLess, PrintedTypes(list, g))
    ensures forall t :: t in PrintedTypes(list, g) <==> t != "" && SdkTarget(g, t) in list
  {
    hide Less, TypeLess, Listing, Sort, UniqueByOrder;
    var names := TypesOfGroup(list, g);
    var u := UniqueByOrder(names);
    UniqueByOrderSpec(names);
    LessIsStrictTotal();
    TypeLessIsStrictTotal();
    SortPermutes(Less, u);
    PermutationDistinct(u, Sort(Less, u));
    PermutationElems(u, Sort(Less, u));
    SortDistinct(TypeLess, Sort(Less, u));
    ListingSpec(TypeLess, Elems(u));
    forall t ensures t in PrintedTypes(list, g) <==> t != "" && SdkTarget(g, t) in list {
      TypesOfGroupSpec(list, g, t);
      assert t in PrintedTypes(list, g) <==> t in Elems(u);
      assert t in names <==> t in Elems(names);
    }
  }

  ghost function Entries(g: string, types: seq<string>): (xs: seq<SdkTarget>)
    ensures |xs| == |types| && forall i :: 0 <= i < |xs| ==> xs[i] == SdkTarget(g, types[i])
  {
    seq(|types|, i requires 0 <= i < |types| => SdkTarget(g, types[i]))
  }

  ghost function SeedsOf(list: seq<SdkTarget>, groups: seq<string>): seq<SdkTarget>
  {
    if groups == [] then []
    else SeedsOf(list, groups[..|groups| - 1]) + Entries(groups[|groups| - 1], PrintedTypes(list, groups[|groups| - 1]))
  }

  /** The `newTarget` entries of the printed SDK registry, top to bottom. */
  ghost function Seeds(list: seq<SdkTarget>): seq<SdkTarget>
  {
    SeedsOf(list, Listing(GroupLess, GroupsIn(list) + REQUIRED))
  }

  lemma EntriesSpec(list: seq<SdkTarget>, g: string)
    ensures Increasing(SdkLess, Entries(g, PrintedTypes(list, g)))
    ensures forall x :: x in Entries(g, PrintedTypes(list, g)) <==> x in list && x.group == g && x.typeName != ""
  {
    hide PrintedTypes, GroupLess, TypeLess;
    PrintedTypesSpec(list, g);
    var types := PrintedTypes(list, g);
    forall x ensures x in Entries(g, types) <==> x in list && x.group == g && x.typeName != "" {
      if x in list && x.group == g && x.typeName != "" {
        assert x == SdkTarget(g, x.typeName);
        var i :| 0 <= i < |types| && types[i] == x.typeName;
        assert Entries(g, types)[i] == x;
      }
    }
  }

  lemma {:induction false} SeedsOfSpec(list: seq<SdkTarget>, groups: seq<string>)
    requires Increasing(GroupLess, groups)
    ensures Increasing(SdkLess, SeedsOf(list, groups))
    ensures forall x :: x in SeedsOf(list, groups) <==> x in list && x.group in groups && x.typeName != ""
  {
    hide PrintedTypes, GroupLess, TypeLess, Entries;
    if groups != [] {
      var n := |groups| - 1;
      var g, init := groups[n], groups[..n];
      SeedsOfSpec(list, init);
      EntriesSpec(list, g);
      var before, entries := SeedsOf(list, init), Entries(g, PrintedTypes(list, g));
      forall x, y | x in before && y in entries ensures SdkLess(x, y) {
        var k :| 0 <= k < n && groups[k] == x.group;
        assert GroupLess(groups[k], groups[n]);
        GroupLessIrreflexive(g);
      }
      IncreasingConcat(SdkLess, before, entries);
      assert groups == init + [g];
    }
  }

  lemma GroupLessIrreflexive(g: string)
    ensures !GroupLess(g, g)
  {
    GroupLessIsStrictTotal();
  }

  /** Grouping first and sorting inside the groups prints the same list as one global sort, except
      that entries with an empty type name are not printed. */
  lemma GroupThenSortIsGlobalSort(list: seq<SdkTarget>)
    ensures Seeds(list) == Listing(SdkLess, set x | x in list && x.typeName != "")
  {
    hide GroupLess, SeedsOf, Listing;
    GroupLessIsStrictTotal();
    SdkLessIsStrictTotal();
    var groups := Listing(GroupLess, GroupsIn(list) + REQUIRED);
    ListingSpec(GroupLess, GroupsIn(list) + REQUIRED);
    SeedsOfSpec(list, groups);
    var xs := set x | x in list && x.typeName != "";
    forall x ensures x in Elems(Seeds(list)) <==> x in xs {
      assert x.group in groups <==> x.group in Elems(groups);
    }
    ListingSpec(SdkLess, xs);
    IncreasingUnique(SdkLess, Seeds(list), Listing(SdkLess, xs));
  }

  /** The printed entries are the built list itself exactly when no type name is empty. */
  lemma SeedsAreTheBuiltList(list: seq<SdkTarget>, mentioned: set<SdkTarget>)
    requires list == Listing(SdkLess, mentioned)
    ensures Seeds(list) == list <==> forall x :: x in mentioned ==> x.typeName != ""
  {
    hide Seeds, SdkLess, Listing;
    SdkLessIsStrictTotal();
    ListingSpec(SdkLess, mentioned);
    GroupThenSortIsGlobalSort(list);
    var xs := set x | x in list && x.typeName != "";
    ListingSpec(SdkLess, xs);
    assert forall x :: x in list <==> x in mentioned by {
      assert forall x :: x in list <==> x in Elems(list);
    }
    if forall x :: x in mentioned ==> x.typeName != "" {
      assert xs == mentioned;
    }
    if Seeds(list) == list {
      assert xs == Elems(list) == mentioned;
    }
  }

  // ----- reading the printed entries -----

  predicate LowerAlnum(c: char) { 'a' <= c <= 'z' || '0' <= c <= '9' }

  predicate Alnum(c: char) { LowerAlnum(c) || 'A' <= c <= 'Z' }

  /** The alphabets of the pattern that `parseExistingSDKTargets` matches. */
  predicate Readable(x: SdkTarget) {
    && x.group != "" && (forall i :: 0 <= i < |x.group| ==> LowerAlnum(x.group[i]))
    && x.typeName != "" && (forall i :: 0 <= i < |x.typeName| ==> Alnum(x.typeName[i]))
  }

  function Reread(printed: seq<SdkTarget>): seq<SdkTarget>
  {
    if printed == [] then []
    else (if Readable(printed[0]) then [printed[0]] else []) + Reread(printed[1..])
  }

  lemma {:induction false} RereadAll(printed: seq<SdkTarget>)
    requires forall x :: x in printed ==> Readable(x)
    ensures Reread(printed) == printed
  {
    hide Readable;
    if printed != [] {
      assert printed[0] in printed;
      RereadAll(printed[1..]);
    }
  }

  /** Re-reading the printed SDK registry gives back the built list. */
  lemma SeedsReadBack(list: seq<SdkTarget>, mentioned: set<SdkTarget>)
    requires list == Listing(SdkLess, mentioned) && forall x :: x in mentioned ==> Readable(x)
    ensures Reread(Seeds(list)) == list
  {
    hide Seeds, SdkLess, Listing;
    SeedsAreTheBuiltList(list, mentioned);
    SdkLessIsStrictTotal();
    ListingSpec(SdkLess, mentioned);
    assert forall x :: x in list <==> x in Elems(list);
    RereadAll(list);
  }

  // ----- both files of a run -----

  lemma NormalStructs(t: SpecTarget, n: string)
    ensures (exists m :: m in NormalTarget(t).mappings && m.sdkStruct == n) <==>
            (exists m :: m in t.mappings && m.sdkStruct == n)
  {
    hide Blank;
    var ms, normal := t.mappings, NormalTarget(t).mappings;
    forall m | m in ms ensures exists m' :: m' in normal && m'.sdkStruct == m.sdkStruct {
      var i :| 0 <= i < |ms| && ms[i] == m;
      assert normal[i] in normal;
    }
    forall m | m in normal ensures exists m' :: m' in ms && m'.sdkStruct == m.sdkStruct {
      var i :| 0 <= i < |normal| && normal[i] == m;
      assert ms[i] in ms;
    }
  }

  lemma {:induction false} StructNamesNormal(ts: seq<SpecTarget>)
    ensures StructNames(Regeneration.NormalTargets(ts)) == StructNames(ts)
  {
    hide NormalTarget;
    if ts != [] {
      var normal := Regeneration.NormalTargets(ts);
      StructNamesNormal(ts[1..]);
      assert normal == [NormalTarget(ts[0])] + Regeneration.NormalTargets(ts[1..]);
      forall n ensures n in StructNames(normal) <==> n in StructNames(ts) {
        NormalStructs(ts[0], n);
        StructNamesHead(normal, n);
        StructNamesHead(ts, n);
        assert normal[1..] == Regeneration.NormalTargets(ts[1..]);
      }
    }
  }

  lemma StructNamesHead(ts: seq<SpecTarget>, n: string)
    requires ts != []
    ensures n in StructNames(ts) <==> (exists m :: m in ts[0].mappings && m.sdkStruct == n) || n in StructNames(ts[1..])
  {
    assert ts == [ts[0]] + ts[1..];
  }

  // ----- no run prints an empty type name -----

  lemma QualifiedTwoParts(service: string, t: string)
    requires TwoParts(Qualified(service, t)).Some?
    ensures TwoParts(Qualified(service, t)).value == SdkTarget(service, t)
  {
    hide Split;
    var x := TwoParts(Qualified(service, t)).value;
    SplitParts(Qualified(service, t), '.');
    TwoPartsJoins(Qualified(service, t));
    var parts := Split(Qualified(service, t), '.');
    assert parts[0] in parts && parts[1] in parts;
    FirstDot(service, t, x.group, x.typeName);
  }

  lemma FirstDot(a: string, b: string, c: string, d: string)
    requires a + ['.'] + b == c + ['.'] + d && '.' !in c && '.' !in d
    ensures a == c && b == d
  {
    var s := a + ['.'] + b;
    assert s[|a|] == '.';
    OnlyDot(c, d, |a|);
    assert a == s[..|a|] == c && b == s[|a| + 1..] == d;
  }

  lemma OnlyDot(c: string, d: string, i: nat)
    requires '.' !in c && '.' !in d && i < |c + ['.'] + d| && (c + ['.'] + d)[i] == '.'
    ensures i == |c|
  {
  }

  /** No mapping of a type with a name prints a struct name whose second part is empty. */
  lemma TypeNamePrinted(
    service: string, existing: seq<SdkMapping>, override_: TargetOverride, t: string)
    requires t != ""
    ensures var x := TwoParts(MappingFor(service, t, ByType(service, existing), override_).sdkStruct);
            x.Some? ==> x.value.typeName != ""
  {
    hide TwoParts, UnqualifiedType, ByType, Blank;
    var name := MappingFor(service, t, ByType(service, existing), override_).sdkStruct;
    if t in ByType(service, existing) {
      var _ := ByTypeEntry(service, existing, t);
      assert UnqualifiedType(name, service) == Some(t);
      if TwoParts(name).Some? {
        TrimmedSecondPart(name, service, t);
      }
    } else if TwoParts(name).Some? {
      QualifiedTwoParts(service, t);
    }
  }

  /** Trimming a name does not bring characters behind its last dot. */
  lemma TrimmedSecondPart(name: string, service: string, t: string)
    requires UnqualifiedType(name, service) == Some(t) && t != "" && TwoParts(name).Some?
    ensures TwoParts(name).value.typeName != ""
  {
    hide Split, UnqualifiedType, IsSpace, TrimSpace, TwoParts, TrimmedStart, TrimmedEnd, Qualified;
    UnqualifiedJoins(name, service);
    TwoPartsJoins(name);
    DotIsNotSpace();
    EndsWithType(service, t);
    EndsWithDot(TwoParts(name).value.group);
    if TwoParts(name).value.typeName == "" {
      LastVisible(name);
    }
  }

  predicate EndsIn(s: string, c: char) {
    s != "" && s[|s| - 1] == c
  }

  lemma EndsWithType(service: string, t: string)
    requires t != "" && '.' !in t
    ensures !EndsIn(Qualified(service, t), '.')
  {
    var q := Qualified(service, t);
    assert q[|q| - 1] == t[|t| - 1];
  }

  lemma EndsWithDot(group: string)
    ensures EndsIn(Qualified(group, ""), '.')
  {
  }

  /** A visible last character stays the last one. */
  lemma LastVisible(s: string)
    requires s != "" && !IsSpace(s[|s| - 1])
    ensures TrimSpace(s) != "" && TrimSpace(s)[|TrimSpace(s)| - 1] == s[|s| - 1]
  {
    hide IsSpace, TrimLeft, TrimRight;
    LeftKeepsVisible(s);
  }

  lemma {:induction false} LeftKeepsVisible(s: string)
    requires s != "" && !IsSpace(s[|s| - 1])
    ensures TrimLeft(s) != "" && TrimLeft(s)[|TrimLeft(s)| - 1] == s[|s| - 1]
  {
    hide IsSpace;
    if IsSpace(s[0]) {
      LeftKeepsVisible(s[1..]);
    }
  }

  /** So every entry of the list that a run builds has a type name. */
  lemma BuiltNamesNonEmpty(inp: Regeneration.Inputs, registry: Registry, x: SdkTarget)
    requires Regeneration.Build(inp, registry).Ok? && x in Mentioned(Regeneration.Build(inp, registry).value)
    ensures x.typeName != ""
  {
    hide TwoParts, Sort, Regeneration.AllTargets, Regeneration.TargetFor, Regeneration.Derived, Regeneration.TargetLess;
    var all := Regeneration.AllTargets(inp, inp.services, registry);
    var ts := Regeneration.Build(inp, registry).value;
    SortPermutes(Regeneration.TargetLess, all);
    PermutationElems(ts, all);
    var n :| n in StructNames(ts) && TwoParts(n) == Some(x);
    var t, m :| t in ts && m in t.mappings && m.sdkStruct == n;
    var svc, info := Regeneration.TargetOrigin(inp, inp.services, registry, t);
    TargetMapping(inp, svc, info, registry, m);
  }

  /** Each mapping of a rebuilt target is one for a type with a name. */
  lemma TargetMapping(
    inp: Regeneration.Inputs, svc: Regeneration.Service, info: ApiTypeInfo, registry: Registry, m: SdkMapping)
    requires m in Regeneration.TargetFor(inp, svc, info, registry).mappings
    ensures TwoParts(m.sdkStruct).Some? ==> TwoParts(m.sdkStruct).value.typeName != ""
  {
    hide TwoParts, Regeneration.Derived, Regeneration.TargetName, Blank, Listing, ByType, TypesIn, MappingFor, TypeLess;
    var old_ := Regeneration.Lookup(registry, Key(svc.group, info.spec));
    var o := Regeneration.OverrideOf(inp, svc.service, info.spec);
    var tracked := Tracked(o, Elems(Regeneration.Derived(inp, svc, info.spec)), TypesIn(svc.service, old_.mappings));
    var order := Listing(TypeLess, tracked);
    var ms := Regeneration.TargetFor(inp, svc, info, registry).mappings;
    var i :| 0 <= i < |ms| && ms[i] == m;
    TypeListing(tracked);
    assert order[i] in order && order[i] in tracked;
    TypeNamePrinted(svc.service, old_.mappings, o, order[i]);
  }

  /** The SDK registry that a run prints lists exactly what the run built, in that order: grouping by package and
      sorting inside the groups is the global sort. */
  lemma PrintedIsBuilt(inp: Regeneration.Inputs, registry: Registry)
    requires Regeneration.Build(inp, registry).Ok?
    ensures var list := Listing(SdkLess, Mentioned(Regeneration.Build(inp, registry).value));
            Seeds(list) == list
  {
    hide Regeneration.Build, Seeds, Listing, SdkLess, Mentioned;
    var mentioned := Mentioned(Regeneration.Build(inp, registry).value);
    forall x | x in mentioned ensures x.typeName != "" {
      BuiltNamesNonEmpty(inp, registry, x);
    }
    SeedsAreTheBuiltList(Listing(SdkLess, mentioned), mentioned);
  }

  /** When the API registry is a fixpoint, so is the SDK registry printed beside it: the same structs are
      listed, in the same order. */
  lemma SdkRegistryIsFixpoint(inp: Regeneration.Inputs, registry: Registry)
    requires Regeneration.Fixpoint(inp, registry)
    ensures var first := Regeneration.Build(inp, registry).value;
            var second := Regeneration.Build(inp, Regeneration.Regenerate(inp, registry).value).value;
            && Mentioned(second) == Mentioned(first)
            && Seeds(Listing(SdkLess, Mentioned(second))) == Seeds(Listing(SdkLess, Mentioned(first)))
  {
    hide Regeneration.Build, Regeneration.NormalTargets, StructNames, Seeds, Listing, TwoParts;
    var first := Regeneration.Build(inp, registry).value;
    var second := Regeneration.Build(inp, Regeneration.Regenerate(inp, registry).value).value;
    StructNamesNormal(first);
    StructNamesNormal(second);
  }
}
