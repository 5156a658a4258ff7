# Model of the OSOK build tooling

The operator's repository is mostly generated code; its logic sits in the tools that generate and check it. This
project models the most involved of them and proves what they are for.

**The registry regenerator** (`hack/update_validator_registries.go`) reads the checked-in API registry, derives SDK
type names from the API specs, merges them with overrides and with the entries it read, and prints the API and SDK
registries. Its output is its own next input. `Text`, `Orders` and `SpecVariants` hold strings, sorting and acronym
respelling; `SdkNames` candidate names and orders; `Mappings` the merge for one target; `ApiRegistry` and
`RegistryReading` printing and parsing as Go syntax; `Regeneration` whole runs; `SdkRegistry` the second file. A Go
map range is an arbitrary choice here, so that determinism is a theorem. Main results: a second run prints what the
first printed, from every registry, if and only if the SDK type names are read back safely, as Go identifiers are
(`Regeneration.FixpointIff`), and the SDK registry then is a fixpoint too (`SdkRegistry.SdkRegistryIsFixpoint`); over
any number of runs no tracked type is lost (`Regeneration.TrackedTypesNeverShrink`), and no exclusion is taken back
where no other type is read back as the same (`Regeneration.RunsKeepType`); in every run the SDK registry printed by
group is the built list (`SdkRegistry.PrintedIsBuilt`); a run applies the scanned status and the overrides, and tracks
exactly the types it should (`Regeneration.RunSetsStatusAndName`, `Regeneration.RunAppliesOverride`,
`Regeneration.RunTracks`); the respelling chain leaves none of its patterns behind and writes nothing but their
replacements (`SpecVariants.SpellingClears`, `SpecVariants.SpellingWritesReplacements`).

**The snapshot tools** (`cmd/osok-generated-runtime-check`, `cmd/osok-generated-coverage`) build a workspace of links,
copies and empty directories next to a checkout, let a generator and controller-gen write into it, and link checked-in
companion files. `FileSystem` is a disk with symbolic links followed as the kernel follows them, `Doorways` what
happens behind a link to a directory; `Snapshot`, `RuntimeCheck` and `Coverage` populate a workspace; `Isolation` and
`Workspace` hold the invariant of a run; `BuildPlan`, `RuntimeRun` and `CoverageRun` finish it; `PlainCheckout` is a
concrete checkout that meets all assumptions. The generator is an arbitrary sequence of writes, directory creations
and removals in its output scope. Main results for the runtime check (`RuntimeRun.RunRuntimeCheck`): whatever the
generator does and wherever a run stops, nothing that was on disk is altered, and a successful run in a temporary
workspace leaves the disk exactly as it was; when the build plan is made, every package in it holds files that pass
the detection test, and every such file is there with the content that the generator wrote in this run (for service
managers, unless a checked-in link of a selected root leads into the workspace); and every companion file and manual
root of the checkout is in the workspace then. For the coverage tool (`CoverageRun.RunCoverage`): nothing is altered
but the commands and the generated registrations of the checkout, and nothing at all when the generator is clear of
the links to them; a successful run leaves each registry in its own file of the workspace, and the companions beside
them.

**Smaller parts**: `Environment` (editing the environment and GODEBUG), `TopResources` (the mutability gate's top
three), `ManagerOptions` (two translations of the manager configuration).

Properties that turned out not to hold of the code as it is, each with its exact condition:

- The coverage workspace links `cmd`, while the generator writes `cmd/manager/<name>/main.go`: that output lands in
  the checkout, which is unchanged exactly when it already holds the same content or something of another kind is in
  the way (`Coverage.ManagerOutputEscapes`); `PlainCheckout.PlainCheckoutChanges` shows it happening. The cleanup of a
  stale output removes it there (`Coverage.ManagerCleanupEscapes`). Registration files of package splits
  (`core-network_generated.go`) stay linked, because only exact group names are left out, with the same effect
  (`Coverage.RegistrationWriteEscapes`). Nothing else escapes (`CoverageRun.RunBounded`).
- Regeneration is a fixpoint for every registry exactly when each type that overrides and derivation bring in is read
  back as nothing, as itself, as the empty name, or as a tracked type that is printed later
  (`Regeneration.FixpointIff`); an override type with a trailing blank can break it
  (`Mappings.TrailingBlankUnsettles`).
- An exclusion, surface or reason can be lost when another tracked type is read back as the same type and printed
  after it, and exactly then (`Mappings.KeptIff`, `Mappings.ExclusionLost`). Like the previous point this takes type
  names with trailing blanks, which the compiled-in override table does not hold.

Conditions on single functions, which no run of the tools violates:

- A list of SDK targets is printed as itself exactly when no type name is empty (`SdkRegistry.SeedsAreTheBuiltList`);
  built lists never have one (`SdkRegistry.PrintedIsBuilt`).
- Deriving a spelling twice is deriving it once exactly when the name does not contain `OAuth`
  (`SpecVariants.SpellingIdempotent`); the tool derives once.
- Editing GODEBUG twice is editing it once exactly when every comma-separated part of the new entry is blank or sets
  the same name again (`Environment.SettingIdempotent`); the tool's own entry does
  (`Environment.SnapshotEnvFixpoint`).
- Setting an environment key takes effect exactly when it had at most one entry or already had the value
  (`Environment.SetEnvEffective`); a process environment has unique keys.

`dafny verify dfyconfig.toml` checks everything.

## Model

| member | source | states |
|---|---|---|
| `Orders.SortPermutes` | hack/update_validator_registries.go:758-766 | a stable sort keeps every element with its multiplicity |
| `Orders.SortOrdered` | hack/update_validator_registries.go:758-766 | for a consistent comparator no later element is below an earlier one |
| `Orders.SortStable` | hack/update_validator_registries.go:768-779 | elements that the comparator does not separate keep their relative order |
| `Orders.SortUnique` | hack/update_validator_registries.go:768-779 | any ordered, stable permutation is this one: the result of the library sort is determined |
| `Orders.IncreasingUnique` | hack/update_validator_registries.go:781-812 | under a strict total order a set has one increasing listing, whatever order its elements arrived in |
| `Orders.SortedElements` | hack/update_validator_registries.go:1961-1965 | picking elements in any order and sorting gives the increasing listing of the set |
| `Text.SplitJoin` | hack/update_validator_registries.go:899-905 | splitting undoes joining exactly when no part holds the separator |
| `Text.QualifiedInjective` | hack/update_validator_registries.go:899-905 | a qualified name with a dot-free first half determines both halves |
| `SpecVariants.SpellingClears` | hack/update_validator_registries.go:1921-1946 | none of the twelve acronym patterns, from `IPSec` to `RR`, occurs in the derived spelling, although later replacements run over the output of earlier ones |
| `SpecVariants.RespellClears` | hack/update_validator_registries.go:1921-1946 | the same for the rules run in any order and any selection that holds the pattern |
| `SpecVariants.SpellingWritesReplacements` | hack/update_validator_registries.go:1921-1946 | before the `OAuth` step the length is the same, and a character differs only where a pattern stood, and is then the character of that pattern's replacement |
| `SpecVariants.IsolatedRespelled` | hack/update_validator_registries.go:1921-1946 | an occurrence of a pattern that no other occurrence overlaps is spelled as its replacement, whatever surrounds it |
| `SpecVariants.EachSpelled` | hack/update_validator_registries.go:1921-1946 | each pattern alone is spelled as its replacement, and `OAuth` as `OAuth2` |
| `SpecVariants.SpellingGrowth` | hack/update_validator_registries.go:1921-1946 | the spelling is longer by exactly one character per occurrence of `OAuth` |
| `SpecVariants.SpellingIdempotent` | hack/update_validator_registries.go:1921-1946 | respelling twice changes nothing more if and only if the name has no `OAuth` |
| `SdkNames.TypeLessIsStrictTotal` | hack/update_validator_registries.go:1967-1982 | rank and name together separate all distinct type names |
| `SdkNames.ShapesInOrder` | hack/update_validator_registries.go:1967-1982 | details come before all else, of these the ones to create and then the ones to update; summaries come last, of these the ones of versions first; by name otherwise |
| `SdkNames.GroupLessIsStrictTotal` | hack/update_validator_registries.go:2577-2587 | rank and name together separate all distinct groups |
| `SdkNames.GroupsInOrder` | hack/update_validator_registries.go:2577-2587 | the 31 named groups come in the order in which they are named, and before all others, which go by name |
| `SdkNames.UniqueByOrderLoop` | hack/update_validator_registries.go:1948-1959 | the loop with its seen-set keeps the first occurrence of each non-empty name |
| `SdkNames.UniqueByOrderSpec` | hack/update_validator_registries.go:1948-1959 | the kept names are exactly the non-empty ones, each once |
| `SdkNames.UniqueByOrderKeepsOrder` | hack/update_validator_registries.go:1948-1959 | kept names stand in the order of their first occurrences |
| `SdkNames.SortedUnique` | hack/update_validator_registries.go:739-766 | de-duplicating and sorting by rank gives a listing that depends on the set of names only |
| `SdkNames.DerivedTypesSpec` | hack/update_validator_registries.go:1834-1912 | derived types are, without duplicates, exactly the considered names that the vendored SDK declares |
| `SdkNames.CandidateBasesSpec` | hack/update_validator_registries.go:1859-1874 | the bases are the spec and the target name, each with what comes before `ByName`, in both spellings |
| `SdkNames.DerivedTypesNamed` | hack/update_validator_registries.go:1834-1912 | a name is derived if and only if the SDK declares it and it is an override's, or made from a base as one of the eleven candidates or a plural |
| `SdkNames.AddEach` | hack/update_validator_registries.go:1908-1912 | appends exactly the names in the struct set, in order |
| `SdkNames.DeriveSdkTypes` | hack/update_validator_registries.go:1834-1857 | the loops over bases compute the derived types: overrides, then primary, then fallback and plural names |
| `SdkNames.FilterConfiguredApiSpecs` | hack/update_validator_registries.go:520-555 | succeeds exactly when every selected kind occurs; otherwise reports exactly the missing kinds, sorted |
| `SdkNames.FirstOfEachSpec` | hack/update_validator_registries.go:520-555 | from a duplicate-free listing the filter keeps exactly the selected specs |
| `Mappings.QualifiedReadsBack` | hack/update_validator_registries.go:899-905 | a written struct name is read as the same type if and only if it has one dot and no outer blanks |
| `Mappings.QualifiedReadsBackOnlyItself` | hack/update_validator_registries.go:899-905 | a type without trailing blanks is never read back as another type |
| `Mappings.ExistingByType` | hack/update_validator_registries.go:830-840 | the loop builds the map in which the last entry of a type wins |
| `Mappings.ByTypeLast` | hack/update_validator_registries.go:830-840 | an entry with no later entry of its type is the one found |
| `Mappings.ByTypeKeys` | hack/update_validator_registries.go:830-840 | the keys are exactly the types named by the entries |
| `Mappings.ExistingTypeNames` | hack/update_validator_registries.go:859-869 | collects exactly the types of the service that the entries name |
| `Mappings.SdkCandidates` | hack/update_validator_registries.go:739-756 | the candidates are the increasing listing of derived and existing types |
| `Mappings.SdkMappingOrder` | hack/update_validator_registries.go:842-857 | the order is the increasing listing of the union of its inputs, without blanks or duplicates, for every map iteration order |
| `Mappings.BuildSdkMappings` | hack/update_validator_registries.go:814-828 | one mapping per tracked type in canonical order, none for an emptied target |
| `Mappings.CandidatesAbsorbExisting` | hack/update_validator_registries.go:720-756 | passing existing types both as candidates and as entries changes nothing |
| `Mappings.OverrideSettles` | hack/update_validator_registries.go:878-897 | applying an override to its own printed result changes nothing that is printed |
| `Mappings.OverrideTakesEffect` | hack/update_validator_registries.go:871-897 | a surface and a reason of the override win over what was there, its exclusion adds to it, `useStatus` fills a blank surface with `status`, and a type without entry or override has neither exclusion nor reason |
| `Mappings.ReadAfter` | hack/update_validator_registries.go:814-869 | which types are read after a build, exactly: those read before, and what the types brought in are read back as |
| `Mappings.UnshadowedRead` | hack/update_validator_registries.go:814-869 | a tracked type that no other shadows is read back with its own entry |
| `Mappings.RenderedByType` | hack/update_validator_registries.go:814-905 | what the printed mappings say about a type on the next reading: its own mapping, although others may be read as the same type; an existing type stays tracked |
| `Mappings.MappingsSettle` | hack/update_validator_registries.go:814-905 | with types that are read back safely, reading printed mappings and building again prints the same mappings |
| `Mappings.SettlesIff` | hack/update_validator_registries.go:814-905 | a target's mappings settle for every registry if and only if it is emptied or all its types are read back safely |
| `Mappings.TrimmedIsSafe` | hack/update_validator_registries.go:899-905 | names without trailing blanks are read back safely |
| `Mappings.UntrackedUnsettles` | hack/update_validator_registries.go:842-857 | a type read back as an untracked one makes the second build longer |
| `Mappings.LaterUnsettles` | hack/update_validator_registries.go:830-857 | a type read back as one that is printed earlier takes its place in the second build |
| `Mappings.TrailingBlankUnsettles` | hack/update_validator_registries.go:899-905 | an input that does not settle: one override type with a trailing blank |
| `Mappings.StaysTracked` | hack/update_validator_registries.go:814-869 | a type of the registry is still read after a run, with no condition on other types |
| `Mappings.KeptIff` | hack/update_validator_registries.go:814-897 | a type's entry survives a run from every registry, changed by the override only, if and only if no other type is read back as it and printed after it |
| `Mappings.ExclusionLost` | hack/update_validator_registries.go:830-840 | an input on which an exclusion is lost: a shadowing override type |
| `ApiRegistry.ParseSdkMapping` | hack/update_validator_registries.go:381-393 | the field loop reads a mapping literal, or stops at the first bad field |
| `ApiRegistry.ParseExistingApiTarget` | hack/update_validator_registries.go:228-241 | the field loop reads a target literal, or stops at the first bad field |
| `RegistryReading.MappingRead` | hack/update_validator_registries.go:381-446 | any mapping literal is read if and only if its known fields have the expected form; each part is the last field of its key |
| `RegistryReading.MappingsRead` | hack/update_validator_registries.go:359-379 | a list of mappings is read if and only if each element is, to what the elements are read as alone |
| `RegistryReading.LegacyMappingsRead` | hack/update_validator_registries.go:342-357 | the older list of strings is read as mappings that say nothing but their type |
| `RegistryReading.TargetReadIff` | hack/update_validator_registries.go:228-315 | any target literal is read if and only if its known fields have the expected form |
| `RegistryReading.TargetRead` | hack/update_validator_registries.go:228-340 | each part is the last field of its key, group and spec without `v1beta1` and `Spec`, and the last of the two forms of mapping lists counts |
| `ApiRegistry.MappingRoundTrip` | hack/update_validator_registries.go:2048-2061 | a printed mapping reads back as itself with blank surface and reason made empty |
| `ApiRegistry.MappingsRoundTrip` | hack/update_validator_registries.go:359-379 | the same for a list of mappings, in order |
| `ApiRegistry.TargetRoundTrip` | hack/update_validator_registries.go:2033-2046 | a printed target reads back as itself, also for groups ending in `v1beta1` and specs ending in `Spec` |
| `ApiRegistry.TargetsRoundTrip` | hack/update_validator_registries.go:211-226 | reading a printed target list adds exactly those targets, the last of a key winning |
| `ApiRegistry.RegistryRoundTrip` | hack/update_validator_registries.go:167-209 | reading a printed registry file never fails and gives the printed targets by key |
| `ApiRegistry.IndexedEntry` | hack/update_validator_registries.go:211-226 | a key that some target has is found, with a target of that key |
| `Regeneration.BuildServiceTarget` | hack/update_validator_registries.go:720-737 | the steps give the merged target: new status or the old one, old name or a made one, mappings of all sources |
| `Regeneration.BuildServiceTargets` | hack/update_validator_registries.go:698-709 | one target per spec, in order |
| `Regeneration.BuildTargets` | hack/update_validator_registries.go:684-696 | all targets sorted, or an error exactly when some SDK package is missing |
| `Regeneration.TargetLessIsStrictWeak` | hack/update_validator_registries.go:768-779 | the target comparator is consistent, though it may leave targets tied |
| `Regeneration.BuiltTargetsOrdered` | hack/update_validator_registries.go:768-779 | the result is a permutation of the built targets, by group and within a group by name |
| `Regeneration.TargetOrigin` | hack/update_validator_registries.go:684-709 | every target comes from a selected service and one of its filtered specs |
| `Regeneration.TargetPresent` | hack/update_validator_registries.go:684-709 | every such pair has its target |
| `Regeneration.TargetOfKey` | hack/update_validator_registries.go:684-709 | the key determines the pair: targets and pairs correspond one to one |
| `Regeneration.RegeneratedEntry` | hack/update_validator_registries.go:108-135 | after a run the registry holds, for each pair, exactly the rebuilt target up to printing |
| `Regeneration.RunSetsStatusAndName` | hack/update_validator_registries.go:720-737 | after a run the entry of a selected spec has the scanned status, or when that is blank the old one, made empty if blank; and the old name, or when that is blank the made one |
| `Regeneration.RunsKeepName` | hack/update_validator_registries.go:724-727 | a name that is there stays over any number of runs |
| `Regeneration.PascalWord` | hack/update_validator_registries.go:2526-2535 | a word gets a capital and is otherwise kept |
| `Regeneration.PascalJoins` | hack/update_validator_registries.go:2526-2535 | words separated by `_` or `-` are put together |
| `Regeneration.RunEmpties` | hack/update_validator_registries.go:814-828 | a target that is to be emptied has no mapping after a run |
| `Regeneration.RunTracks` | hack/update_validator_registries.go:814-869 | which types the registry tracks after a run, exactly |
| `Regeneration.RunAppliesOverride` | hack/update_validator_registries.go:878-897 | in the registry after a run, a type that no other shadows has the override's surface, reason and exclusion where set, else what was there |
| `Regeneration.TargetSettles` | hack/update_validator_registries.go:720-745 | rebuilding a target from its printed form prints the same target |
| `Regeneration.RegenerationIsFixpoint` | hack/update_validator_registries.go:684-745 | with safe inputs, whatever the first registry held, a second run prints exactly what the first printed, and further runs change nothing |
| `Regeneration.FixpointIff` | hack/update_validator_registries.go:684-745 | every registry leads to a fixpoint in one run if and only if the inputs are safe |
| `Regeneration.IdentifiersAreSafe` | hack/update_validator_registries.go:907-930 | struct names and override types without trailing blanks, such as Go identifiers, are safe inputs |
| `Regeneration.RunKeepsType` | hack/update_validator_registries.go:814-897 | one run keeps a tracked type, and keeps its entry but for the override when no other type shadows it |
| `Regeneration.RunsKeepType` | hack/update_validator_registries.go:814-897 | over any runs with changing SDKs and overrides a type stays tracked; if no run shadows it, an exclusion stays, and so does a non-blank surface or reason that no override sets |
| `Regeneration.IdentifiersAreUnshadowed` | hack/update_validator_registries.go:907-930 | with struct names and override types without trailing blanks no type is shadowed |
| `Regeneration.TrackedTypesNeverShrink` | hack/update_validator_registries.go:739-756 | the set of tracked types of a target that stays selected and is not emptied never shrinks, whatever types are tracked beside them |
| `Regeneration.ApiRegistryGroups` | hack/update_validator_registries.go:1994-2011 | the imports are the increasing listing of the targets' groups |
| `Regeneration.ImportsFollowTargets` | hack/update_validator_registries.go:1994-2011 | for sorted targets the imports are the groups in order of first appearance |
| `SdkRegistry.SdkLessIsStrictTotal` | hack/update_validator_registries.go:799-811 | the comparator separates all distinct SDK targets |
| `SdkRegistry.CollectStructs` | hack/update_validator_registries.go:781-798 | the map holds exactly the two-part struct names that the API targets mention |
| `SdkRegistry.BuildSdkTargets` | hack/update_validator_registries.go:781-812 | the list is the increasing listing of those, the same for every map iteration order |
| `SdkRegistry.SdkRegistryGroups` | hack/update_validator_registries.go:2087-2107 | the groups in use and the two required ones, in group order |
| `SdkRegistry.PrintedTypesSpec` | hack/update_validator_registries.go:2109-2119 | two sorts in a row leave a group's non-empty types strictly increasing |
| `SdkRegistry.GroupThenSortIsGlobalSort` | hack/update_validator_registries.go:2087-2147 | grouping and sorting inside groups prints the global order of the entries with a type name |
| `SdkRegistry.SeedsAreTheBuiltList` | hack/update_validator_registries.go:2109-2147 | for any list, the printed entries are the list itself if and only if no type name is empty |
| `SdkRegistry.TypeNamePrinted` | hack/update_validator_registries.go:871-905 | a mapping built for a type with a name never prints a struct name with an empty second part |
| `SdkRegistry.PrintedIsBuilt` | hack/update_validator_registries.go:781-812 | in every run, flattening the printed groups gives exactly the built list |
| `SdkRegistry.SeedsReadBack` | hack/update_validator_registries.go:448-458 | for names in the parser's alphabets, re-reading the printed entries gives back the built list |
| `SdkRegistry.SdkRegistryIsFixpoint` | hack/update_validator_registries.go:108-135 | when the API registry is a fixpoint, the SDK registry printed beside it lists the same structs in the same order |
| `FileSystem.ResolveInPlace` | cmd/osok-generated-runtime-check/main.go:1026-1038 | without links on the way a look-up ends at the path itself |
| `FileSystem.SymlinkInPlace` | cmd/osok-generated-runtime-check/main.go:1026-1028 | linking adds one node, or changes nothing when the destination exists |
| `FileSystem.WriteInPlace` | cmd/osok-generated-runtime-check/main.go:1068-1093 | writing where no link is on the way changes that file only |
| `FileSystem.MkdirAllInPlace` | cmd/osok-generated-runtime-check/main.go:922-924 | making directories only adds directories on the way, and the last one exists on success |
| `FileSystem.RemoveAllExact` | cmd/osok-generated-runtime-check/main.go:222-227 | removing a tree removes exactly what is at or below it |
| `FileSystem.ResolveParent` | cmd/osok-generated-runtime-check/main.go:1040-1093 | a look-up, through any links, ends inside an existing directory, which keeps the tree well-formed under every operation |
| `FileSystem.PathLessIsStrictTotal` | cmd/osok-generated-runtime-check/main.go:1040-1041 | the order in which a walk visits is a strict total order |
| `Snapshot.LinkChildren` | cmd/osok-generated-runtime-check/main.go:515-524 | links exactly the wanted entries; no step meets an existing destination |
| `Snapshot.CopyTree` | cmd/osok-generated-runtime-check/main.go:1040-1093 | the walk reproduces the source tree node for node below the destination and changes nothing else |
| `Snapshot.PopulateDirectory` | cmd/osok-generated-runtime-check/main.go:499-526 | a new directory holds exactly the wanted links; it fails exactly when the source directory is missing |
| `Snapshot.PopulateInternal` | cmd/osok-generated-runtime-check/main.go:470-497 | `internal` holds copies of the copied trees, links to the rest and no registrations, exactly |
| `Snapshot.PopulateInternalDirectory` | cmd/osok-generated-runtime-check/main.go:470-497 | the same as a step of populating: what was placed before is kept |
| `Snapshot.PopulateApi` | cmd/osok-generated-runtime-check/main.go:499-526 | directories of unselected groups are linked and nothing else |
| `Snapshot.PopulateControllers` | cmd/osok-generated-runtime-check/main.go:528-554 | everything but the directories of selected groups is linked |
| `Snapshot.PopulatePkg` | cmd/osok-generated-runtime-check/main.go:556-604 | everything but `servicemanager` is linked, and inside it everything but selected roots |
| `Snapshot.PopulateRegistrations` | cmd/osok-generated-runtime-check/main.go:606-630 | exactly the preserved registration files are linked |
| `Snapshot.LinkTopEntries` | cmd/osok-generated-runtime-check/main.go:437-444 | exactly the chosen entries of the checkout are linked at the top |
| `Snapshot.MakeOutputDirs` | cmd/osok-generated-runtime-check/main.go:461-466 | adds the empty output directories and nothing else |
| `RuntimeCheck.GeneratedRegistrationsNotPreserved` | cmd/osok-generated-runtime-check/main.go:980-1012 | no generated registration file is preserved, for any selection |
| `RuntimeCheck.ManualRegistrationsPreserved` | cmd/osok-generated-runtime-check/main.go:980-1012 | a hand-written registration file is preserved if and only if it is `<group>_manual.go` or `<group>-<part>_manual.go` of a selected group |
| `RuntimeCheck.OtherRegistrationsPreserved` | cmd/osok-generated-runtime-check/main.go:980-992 | every file that is neither generated nor hand-written by its name is preserved |
| `RuntimeCheck.PopulateSources` | cmd/osok-generated-runtime-check/main.go:431-457 | the first steps succeed exactly when their source directories exist, and place exactly their part of the layout |
| `RuntimeCheck.PopulateSnapshot` | cmd/osok-generated-runtime-check/main.go:431-468 | succeeds exactly when the source directories exist; then the workspace is exactly the layout; nothing outside changes even on failure |
| `RuntimeCheck.ApiEntryFate` | cmd/osok-generated-runtime-check/main.go:499-526 | an entry of `api` is linked, left for generation or skipped, exactly one of these |
| `RuntimeCheck.ControllerEntryFate` | cmd/osok-generated-runtime-check/main.go:528-554 | an entry of `controllers` is linked or left for generation, exactly one of these |
| `RuntimeCheck.RootEntryFate` | cmd/osok-generated-runtime-check/main.go:578-604 | an entry of the service-manager directory is linked or left for generation, exactly one of these |
| `RuntimeCheck.PkgEntryFate` | cmd/osok-generated-runtime-check/main.go:556-576 | every entry of `pkg` but `servicemanager` is linked |
| `RuntimeCheck.TopEntryFate` | cmd/osok-generated-runtime-check/main.go:431-468 | `go.mod`, `go.sum`, `hack`, `vendor` and `formal` are linked exactly when the checkout has them |
| `RuntimeCheck.OtherTopEntries` | cmd/osok-generated-runtime-check/main.go:431-468 | nothing is made beside the eleven named entries, so no `cmd` |
| `RuntimeCheck.InternalEntryFate` | cmd/osok-generated-runtime-check/main.go:470-497 | of `internal`, the generator is copied node for node, `registrations` is made anew, the rest is linked |
| `RuntimeCheck.RegistrationFate` | cmd/osok-generated-runtime-check/main.go:606-630 | a registration file is linked unless it is generated, or hand-written for a group that is not selected |
| `Isolation.RunTool` | cmd/osok-generated-runtime-check/main.go:234-241 | a tool performs its operations in order and stops at the first error |
| `Isolation.OpContained` | cmd/osok-generated-runtime-check/main.go:234-241 | an operation without links on its way changes nothing outside, adds no link and writes no other file |
| `Isolation.RunContained` | cmd/osok-generated-runtime-check/main.go:234-241 | a tool whose paths are clear of links when it starts stays inside for its whole run, complete or not |
| `Workspace.PopulatedExpected` | cmd/osok-generated-runtime-check/main.go:431-630 | after populating, links are only at known places and files only in the copied tree |
| `Workspace.RuntimeWritesEverywhere` | cmd/osok-generated-runtime-check/main.go:431-468 | for the runtime check no output path of the generator is behind a link |
| `Workspace.WriteScopeAvoidsLinks` | cmd/osok-generated-runtime-check/main.go:431-630 | no prefix of an output path is a link place |
| `Workspace.GeneratorKeepsInv` | cmd/osok-generated-runtime-check/main.go:234-241 | after any generator run: nothing outside changed, links only where expected, and every file the plan can see was written by it |
| `Workspace.MirrorDirectory` | cmd/osok-generated-runtime-check/main.go:927-929 | mirroring a checked-in directory keeps the invariant and every existing path |
| `Workspace.MirrorLink` | cmd/osok-generated-runtime-check/main.go:946-953 | linking one companion keeps the invariant and every existing path |
| `Workspace.PreserveCompanions` | cmd/osok-generated-runtime-check/main.go:909-953 | every entry below the base is dealt with on success; nothing is added but directories and links of the entries that should be linked; existing paths stay |
| `Workspace.PreserveManualRoots` | cmd/osok-generated-runtime-check/main.go:889-907 | on success every manual root that the checkout has is in the workspace; nothing but links to named roots is added, and no existing path is altered |
| `Workspace.DeepcopyKeepsInv` | cmd/osok-generated-runtime-check/main.go:122-125 | writing a deepcopy file below real directories never goes through a companion link |
| `Workspace.RunControllerGen` | cmd/osok-generated-runtime-check/main.go:122-125 | any sequence of deepcopy writes keeps the invariant and every path, changes nothing but the files written, and on success leaves every deepcopy file that is reached |
| `BuildPlan.CollectControllerPackages` | cmd/osok-generated-runtime-check/main.go:667-690 | sorted, one package per listed group with a controller file; fails exactly when a group's path is not a directory |
| `BuildPlan.FindController` | cmd/osok-generated-runtime-check/main.go:679-685 | finds a controller file exactly when the directory has one |
| `BuildPlan.ReportedSpec` | cmd/osok-generated-runtime-check/main.go:667-690 | a package is reported if and only if a listed group holds a controller file |
| `BuildPlan.CollectUnderRoot` | cmd/osok-generated-runtime-check/main.go:708-732 | adds exactly the directories below the root with a marked service-manager or client file |
| `BuildPlan.CollectServiceManagerPackages` | cmd/osok-generated-runtime-check/main.go:692-706 | in strict order, exactly those directories over all roots |
| `BuildPlan.CollectRegistrationPackages` | cmd/osok-generated-runtime-check/main.go:789-812 | succeeds exactly when every group has a marked registration file, else names exactly the missing ones in order |
| `BuildPlan.ResolveThroughLink` | cmd/osok-generated-runtime-check/main.go:972-978 | reading through a last-component link reads its target |
| `BuildPlan.ControllerFresh` | cmd/osok-generated-runtime-check/main.go:667-690 | a reported group holds controller files when the plan is made, and every one is there with content that this run's generator wrote |
| `BuildPlan.LinkedManagerUnmarked` | cmd/osok-generated-runtime-check/main.go:876-907 | no linked file or manual root can pass the marker test, as long as no checked-in link of the root leads into the workspace |
| `BuildPlan.MarkedOutside` | cmd/osok-generated-runtime-check/main.go:972-978 | a look-up that keeps out of the workspace reads the same before and after anything that happens inside |
| `BuildPlan.ManagerFresh` | cmd/osok-generated-runtime-check/main.go:708-739 | every file that makes a service-manager package is there with content that this run's generator wrote |
| `BuildPlan.RegistrationFresh` | cmd/osok-generated-runtime-check/main.go:789-812 | a registration file that counts as generated is there with content that this run's generator wrote |
| `BuildPlan.CollectBuildPlan` | cmd/osok-generated-runtime-check/main.go:632-665 | exactly when the plan succeeds, exactly what it lists, and that every file behind it is on disk as this run's generator wrote it |
| `BuildPlan.PlainNames` | cmd/osok-generated-runtime-check/main.go:667-787 | package names, file name endings and the marker in plain text |
| `RuntimeRun.FindRepoRoot` | cmd/osok-generated-runtime-check/main.go:299-314 | the nearest directory at or above the start with a `go.mod`, or none exactly when there is none |
| `RuntimeRun.SourceMarked` | cmd/osok-generated-runtime-check/main.go:972-978 | the marker test on a checked-in file sees the content from before the run |
| `RuntimeRun.PreservePackage` | cmd/osok-generated-runtime-check/main.go:832-849 | links all API and controller companions of a package, adds nothing else but directories, and touches no existing path |
| `RuntimeRun.PreserveRoot` | cmd/osok-generated-runtime-check/main.go:876-887 | links all unmarked Go files of a service-manager root that are not going to be generated, and nothing else |
| `RuntimeRun.PreserveAllCompanions` | cmd/osok-generated-runtime-check/main.go:814-830 | on success every package and root is complete, for every order of the roots; nothing is added but directories and links of companions |
| `RuntimeRun.AllFiles` | cmd/osok-generated-runtime-check/main.go:814-953 | so every checked-in Go file of the packages and roots that the generator does not write, named by its ending and its content, is in the workspace |
| `RuntimeRun.InvLinksMirror` | cmd/osok-generated-runtime-check/main.go:909-963 | a link below a package or root points to the same place of the checkout, and none has the name of a generated file |
| `RuntimeRun.AllAccounted` | cmd/osok-generated-runtime-check/main.go:117-140 | whatever the generator did not leave so is a directory, the link of a companion or of a manual root, or a deepcopy file |
| `RuntimeRun.EmptyDirReady` | cmd/osok-generated-runtime-check/main.go:411-421 | an empty directory cannot lie at or above the checkout |
| `RuntimeRun.MakeRoot` | cmd/osok-generated-runtime-check/main.go:392-413 | only new directories appear on the way to the workspace root |
| `RuntimeRun.PrepareSnapshot` | cmd/osok-generated-runtime-check/main.go:384-429 | an explicit directory must be empty, a temporary one is new; afterwards the workspace is the layout |
| `RuntimeRun.CheckInside` | cmd/osok-generated-runtime-check/main.go:117-140 | from the generator to the build plan nothing outside the workspace changes, wherever it stops; on success the plan lists exactly the packages found, fresh on the disk as it is then, and every companion, manual root, generator output and deepcopy file is there, and nothing besides |
| `RuntimeRun.CleanupRestores` | cmd/osok-generated-runtime-check/main.go:222-232 | removing a temporary workspace restores the disk exactly |
| `RuntimeRun.RunRuntimeCheck` | cmd/osok-generated-runtime-check/main.go:95-161 | on every path nothing that was on disk is altered; success in a workspace that is not kept leaves no trace; on the disk as the plan saw it, the plan lists exactly the packages found, every file behind it is as this run's generator wrote it, all companions and manual roots of the checkout are linked, and nothing else was added to what the generator left but deepcopy files; and a run with nothing to preserve succeeds when its steps do |
| `Coverage.PopulateCoverageInternal` | cmd/osok-generated-coverage/main.go:582-611 | `internal` with copied validator and generator and the kept registrations, exactly |
| `Coverage.PopulateCoverage` | cmd/osok-generated-coverage/main.go:551-580 | succeeds exactly when the source directories exist; then the workspace is exactly the coverage layout |
| `Coverage.CoverageTopFate` | cmd/osok-generated-coverage/main.go:551-580 | five entries, `cmd` among them, are linked in any case, `vendor` and `formal` exactly when the checkout has them |
| `Coverage.CoverageSourceFate` | cmd/osok-generated-coverage/main.go:613-718 | each entry of `api`, `controllers` and `pkg` is linked, or left out when it is selected |
| `Coverage.CoverageInternalFate` | cmd/osok-generated-coverage/main.go:582-744 | generator and validator are copied node for node, other entries of `internal` are linked, and so is each registration file but those named `<group>_generated.go` for a selected group |
| `Coverage.CoverageExpected` | cmd/osok-generated-coverage/main.go:551-744 | after populating, links are only at the coverage tool's places |
| `CoverageRun.RegistryClear` | cmd/osok-generated-coverage/main.go:264-273 | nothing on the way to the two validator registries is a link |
| `CoverageRun.RegistriesWritten` | hack/update_validator_registries.go:97-102 | the two writes leave each registry in its own file and everything else as it was, and succeed when both files can be written |
| `CoverageRun.OpBounded` | internal/generator/render.go:117-203 | any operation in the output scope, behind a link or not, changes nothing outside the workspace but commands and generated registrations |
| `CoverageRun.RunBounded` | internal/generator/generator.go:63-175 | the same for every sequence of such operations, wherever it stops |
| `CoverageRun.GeneratorLeaves` | cmd/osok-generated-coverage/main.go:238-254 | what the generator leaves is a sound base for the later steps, equal to the start when it was clear of the links |
| `CoverageRun.CoverageInside` | cmd/osok-generated-coverage/main.go:238-293 | generator, companions, both registry rewrites and controller-gen change nothing outside but commands and generated registrations, and nothing at all when the generator is clear of the links; on success the workspace holds each registry in its file, every companion, what the generator left and the deepcopy files, and nothing besides |
| `CoverageRun.PrepareCoverage` | cmd/osok-generated-coverage/main.go:511-549 | an explicit directory must be empty, a temporary one is new; afterwards the workspace is the layout |
| `CoverageRun.CleanupRestoresBut` | cmd/osok-generated-coverage/main.go:210-220 | removing the workspace leaves the disk as it was but for commands and generated registrations |
| `CoverageRun.RunCoverage` | cmd/osok-generated-coverage/main.go:108-150 | for any generator output, on every path, nothing that was on disk is altered but commands and generated registrations, and nothing at all when the generator is clear of the links; on the disk before cleanup a successful run shows each registry in its own file and all companions linked; and a run with nothing to preserve succeeds when its steps do |
| `Doorways.MkdirAllEnters` | internal/generator/render.go:186-194 | making directories below a link makes them below its target |
| `Doorways.OutputBelowDoorway` | internal/generator/render.go:186-203 | making two levels of directories below a link and writing a file: exactly when it succeeds, where the file lands, and exactly when the rest of the disk is unchanged |
| `Coverage.ManagerOutputEscapes` | internal/generator/render.go:186-203 | exactly when manager output succeeds, that it lands in the checkout, and that the checkout is unchanged if and only if something is in the way or it held that content already |
| `Doorways.RemoveBelowDoorway` | internal/generator/cleanup.go:448-475 | a file removed below a link is removed below its target |
| `Coverage.ManagerCleanupEscapes` | internal/generator/cleanup.go:322-331 | cleaning up a stale manager output removes it from the checkout, unless there is nothing to remove |
| `Coverage.RegistrationWriteEscapes` | cmd/osok-generated-coverage/main.go:720-744 | writing a registration file leaves the checkout unchanged if and only if the checkout has no differing file of that name outside the selected groups |
| `PlainCheckout.PlainCheckoutQualifies` | cmd/osok-generated-runtime-check/main.go:384-468 | a plain checkout meets every assumption of both whole-run results, for any selection |
| `PlainCheckout.PlainCheckoutChanges` | cmd/osok-generated-coverage/main.go:551-580 | from a plain checkout populating and manager output succeed, and the checkout holds a file that it did not hold before |
| `PlainCheckout.PlainRunSucceeds` | cmd/osok-generated-runtime-check/main.go:95-161 | a whole runtime check on the plain checkout, with a controller, a service manager and a registration generated, succeeds with a plan and leaves the disk as it was |
| `Environment.SetEnvironment` | cmd/osok-generated-runtime-check/main.go:1114-1123 | the loop overwrites the first entry of the key or appends one |
| `Environment.SetEnvOthers` | cmd/osok-generated-runtime-check/main.go:1114-1123 | all other keys keep value and number of entries |
| `Environment.SetEnvEffective` | cmd/osok-generated-runtime-check/main.go:1114-1123 | the key takes effect if and only if it had at most one entry or already had the value |
| `Environment.SetEnvSame` | cmd/osok-generated-runtime-check/main.go:1114-1123 | setting a key to its value changes nothing |
| `Environment.WithGoDebugSetting` | cmd/osok-generated-runtime-check/main.go:1125-1145 | the loop drops blank parts and the old setting and appends the new one |
| `Environment.SettingsAfter` | cmd/osok-generated-runtime-check/main.go:1125-1145 | a reader of the result sees the other settings in order, then the new one |
| `Environment.SettingIsSet` | cmd/osok-generated-runtime-check/main.go:1125-1145 | without commas there is exactly one entry for the name, the last |
| `Environment.SettingIdempotent` | cmd/osok-generated-runtime-check/main.go:1125-1145 | editing twice is editing once, for every list, if and only if the new entry absorbs itself |
| `Environment.AppendBuildVcsContains` | cmd/osok-generated-runtime-check/main.go:1104-1112 | the result is trimmed and always mentions the flag |
| `Environment.AppendBuildVcsIdempotent` | cmd/osok-generated-runtime-check/main.go:1104-1112 | appending the flag twice is appending it once |
| `Environment.AppendBuildVcsKeeps` | cmd/osok-generated-runtime-check/main.go:1104-1112 | flags that mention `-buildvcs` are only trimmed; others are kept in front of `-buildvcs=false` |
| `Environment.SnapshotCommandEnv` | cmd/osok-generated-runtime-check/main.go:1095-1102 | from unique keys exactly four keys get new values, in one entry each, and a command sees every other key as before |
| `Environment.SnapshotEnvIsMapUpdate` | cmd/osok-generated-runtime-check/main.go:1095-1102 | with unique keys the edits are a map update of exactly four keys, and keys stay unique |
| `Environment.SnapshotSettings` | cmd/osok-generated-runtime-check/main.go:1095-1145 | a command sees the two caches, flags that mention `-buildvcs`, and `gotypesalias=1` as the last debug setting and the only one of its name |
| `Environment.SnapshotEnvFixpoint` | cmd/osok-generated-runtime-check/main.go:1095-1102 | starting from the edited environment gives the same environment |
| `TopResources.SortSlice` | cmd/osok-generated-mutability-check/main.go:366-377 | an unstable sort gives some ordered permutation |
| `TopResources.RowLessIsStrictTotal` | cmd/osok-generated-mutability-check/main.go:366-377 | the comparator separates all rows that print differently |
| `TopResources.TiesBySlot` | cmd/osok-generated-mutability-check/main.go:366-377 | rows of equal score are told apart by service, then by kind, then by slug |
| `TopResources.TopRowsInOrder` | cmd/osok-generated-mutability-check/main.go:366-398 | printed rows come by falling score, and among equal scores by service, kind and slug |
| `TopResources.AppendTopResourceSection` | cmd/osok-generated-mutability-check/main.go:349-398 | the rows are the first three of the positively scored resources in order |
| `TopResources.TopUnique` | cmd/osok-generated-mutability-check/main.go:349-398 | the rows are determined, however the sort breaks ties |
| `TopResources.InputOrderIrrelevant` | cmd/osok-generated-mutability-check/main.go:349-398 | the rows do not depend on the order of the resources, even when service, kind and slug repeat |
| `TopResources.TopIsBest` | cmd/osok-generated-mutability-check/main.go:379-398 | the number of rows is the smaller of three and the positive count, and nothing left out ranks above a row |
| `TopResources.OmittedScoreNoHigher` | cmd/osok-generated-mutability-check/main.go:349-398 | a resource that is not printed outscores no printed row |
| `TopResources.CandidatesCount` | cmd/osok-generated-mutability-check/main.go:349-364 | a row may be printed once for each resource with a positive score that prints as it |
| `TopResources.FewRowsAreAll` | cmd/osok-generated-mutability-check/main.go:349-398 | with fewer than three rows every resource with a positive score is printed |
| `ManagerOptions.ApplyLeaderElection` | main_manager_config.go:201-223 | overwrites exactly what the file gives and keeps the rest |
| `ManagerOptions.GeneralOptions` | main_manager_config.go:155-176 | cache, shutdown and metrics agree with the overlay on a fresh start |
| `ManagerOptions.HealthOptions` | main_manager_config.go:177-185 | health settings agree with the overlay on a fresh start |
| `ManagerOptions.ControllerOptions` | main_manager_config.go:186-194 | controller settings agree with the overlay on a fresh start |
| `ManagerOptions.ToOptions` | main_manager_config.go:155-199 | the whole translation equals overlaying the file on options that have a scheme only |
| `ManagerOptions.OverlayIsMerge` | main.go:113-224 | overlaying a file merges in, field by field, what it gives on a fresh start |
| `ManagerOptions.OverlaysKeepFirst` | main.go:113-224 | overlaying any number of files leaves a field at its first value that is set |
| `ManagerOptions.FieldsKeepFirst` | main.go:113-224 | every field but the scheme behaves so |
| `ManagerOptions.SchemeKept` | main.go:113-122 | the scheme is never touched |

## Left out

- The generated controllers, API types and service managers, the formal and documentation tools and the code behind `core.BaseReconciler`: forwarding or data.
- Go parsing, formatting, quoting, regular expressions, YAML and JSON: the registries are modelled as composite literals and their fields.
- The literal override table, target-name prefixes and label maps: arbitrary parameters. The interface-implementation list and helper code of the SDK registry are not part of this model.
- Which SDK directory a service has and which structs it declares (`sdkStructNamesForService`, `scanSDKStructNames`, `scanAPISpecDir`): parameters.
- What the generator writes: an arbitrary sequence of operations in `Workspace.OutputScope`, read off `internal/generator/render.go` and `internal/generator/cleanup.go`.
- External commands, temporary-directory names, file modes, report files, logging and time: parameters or nothing. A tool's failure inside a command is a boolean.
- Concurrent changes to the disk during a run, relative link targets, hard links, and `.` and `..` in paths, so package paths are used as split, without cleaning.
- The difference between a missing path, a non-directory on the way and too many links, where the source asks only for "does not exist".
- `prepareSnapshot` and `cleanupSnapshot` of the mutability gate: the same life cycle as the two modelled tools.
- Manager start-up, flags, the type-meta check and health checks: easy members. Leader-election options that the source updates through a pointer are values here.
- Regeneration.FixpointIff: asks for distinct groups (`internal/generator/config.go:360-370` refuses others), distinct specs per group (they come from a map), dot-free groups, and vendored packages for all services.
- Regeneration.RunsKeepType: speaks of types with a name, since an entry that names the empty type is dropped by the first run; its clauses on exclusion, surface and reason ask that no run shadows the type, which is exact for one run (`Mappings.KeptIff`).
- RuntimeRun.RunRuntimeCheck: asks that `api`, `controllers`, `internal/registrations` and `pkg/servicemanager` are not reached through links, that the copied trees hold none, that the workspace path is canonical and not inside one of the source directories, and that a selected group or root is not a link or plain file there. For service-manager packages freshness also asks that no checked-in link of a selected root leads into the workspace, where the run itself could change what it reads as.
- CoverageRun.RunCoverage: asks the same, and that `cmd` in the checkout is a directory, with no links in it or at generated registrations and without the workspace in it, unless the generator is clear of them.
- Coverage.ManagerOutputEscapes: asks that `cmd` in the checkout is a directory without links and without the workspace in it.
- Coverage.RegistrationWriteEscapes: asks that the registration file of the checkout is not itself a link.
- RuntimeRun.PreserveAllCompanions: which unmarked files of a root are complete is stated for files and directories; a checked-in link is linked or not by what it reads as at that time (`RuntimeRun.PreserveRoot`).
