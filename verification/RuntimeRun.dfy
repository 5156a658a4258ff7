/**
 Whole runs of the runtime check: prepare the workspace, generate, link companions, run controller-gen,
 collect the build plan, clean up.
 */
module RuntimeRun {
  import opened Orders
  import opened Text
  import opened FileSystem
  import opened Snapshot
  import opened Isolation
  import opened RuntimeCheck
  import opened Workspace
  import opened BuildPlan

  datatype Manager = Manager(path: string, client: string, manager: string)

  datatype PackageModel = PackageModel(group: string, version: string, managers: seq<Manager>)

  /** What the configuration selects. */
  datatype Job = Job(groups: seq<string>, registrations: seq<string>, packages: seq<PackageModel>, manual: seq<string>)

  function ManagerRoot(m: Manager): string
  {
    Split(m.path, '/')[0]
  }

  function Roots(packages: seq<PackageModel>): set<string>
  {
    set p, m | p in packages && m in p.managers && !Blank(ManagerRoot(m)) :: ManagerRoot(m)
  }

  function SelectionOf(job: Job): Selection
  {
    Selection(RuntimeTool, Elems(job.groups), Elems(job.registrations), Roots(job.packages))
  }

  /** The files that the generator writes for the service managers of one root. */
  function GeneratedPaths(packages: seq<PackageModel>, r: string): set<Path>
  {
    set p, m, f | p in packages && m in p.managers && ManagerRoot(m) == r && f in {m.client, m.manager} ::
      ["pkg", "servicemanager"] + Split(m.path, '/') + [f]
  }

  // ----- which checked-in files are companions -----

  function NameCompanion(base: Path, generated: string -> bool): Path -> bool
  {
    sub => base + sub != [] && HasSuffix(Last(base + sub), ".go") && !generated(Last(base + sub))
  }

  function ManagerCompanion(t: Tree, repo: Path, base: Path, generated: set<Path>): Path -> bool
  {
    sub => base + sub != [] && HasSuffix(Last(base + sub), ".go") && !Marked(t, repo + base + sub)
        && base + sub !in generated
  }

  /** Every checked-in entry below `base` has been dealt with, unless `base` itself is a link. */
  ghost predicate Complete(t0: Tree, t: Tree, repo: Path, root: Path, base: Path, shouldLink: Path -> bool) {
    IsLink(t0, repo + base) || forall sub :: sub in Below(t0, repo + base) ==>
        Mirrored(t0, t, repo + base, root + base, shouldLink, sub)
  }

  lemma CompleteKept(t0: Tree, t: Tree, t': Tree, repo: Path, root: Path, base: Path, shouldLink: Path -> bool)
    requires Complete(t0, t, repo, root, base, shouldLink) && Extends(t, t')
    ensures Complete(t0, t', repo, root, base, shouldLink)
  {
    hide Below;
  }

  lemma ExtendsKeeps(root: Path, t: Tree, t': Tree)
    requires Extends(t, t')
    ensures Keeps(root, t, t')
  {
  }

  lemma KeepsKeys(root: Path, t: Tree, t': Tree)
    requires Keeps(root, t, t')
    ensures t.Keys <= t'.Keys
  {
  }

  lemma KeepsTwice(root: Path, t: Tree, t': Tree, t'': Tree)
    requires Keeps(root, t, t') && Keeps(root, t', t'')
    ensures Keeps(root, t, t'')
  {
  }

  lemma PresentDirect(t: Tree, repo: Path, rel: Path)
    requires WellFormed(t) && repo + rel in t && !IsLink(t, repo + rel)
    ensures Direct(t, repo, rel)
  {
    hide WellFormed;
    WellFormedAbove(t, repo + rel);
    forall i | 0 < i <= |rel| ensures !IsLink(t, repo + rel[..i]) {
      assert (repo + rel)[..|repo| + i] == repo + rel[..i];
      assert i == |rel| ==> rel[..i] == rel;
    }
  }

  /** The marker test on a checked-in file sees the file as it was before the run. */
  lemma SourceMarked(t0: Tree, t: Tree, repo: Path, root: Path, sel: Selection, rel: Path)
    requires Ready(t0, repo, root) && SameOutside(root, t0, t) && Region(sel, rel) && repo + rel in t0
             && !IsLink(t0, repo + rel)
    ensures Marked(t, repo + rel) <==> t0[repo + rel].File? && HasMarker(t0[repo + rel].content)
    ensures Marked(t0, repo + rel) <==> Marked(t, repo + rel)
  {
    hide Ready, Separate, Direct, HasMarker, Marked, NoLinkAbove, DirsAbove, Region, SameOutside, WellFormed;
    RegionSource(sel, rel);
    ReadyParts(t0, repo, root);
    PresentDirect(t0, repo, rel);
    SourceNode(t0, t, repo, root, rel);
    MarkedInPlace(t, repo + rel);
    WellFormedAbove(t0, repo + rel);
    MarkedInPlace(t0, repo + rel);
  }

  lemma MarkedInPlace(t: Tree, p: Path)
    requires DirsAbove(t, p) && p in t && !IsLink(t, p)
    ensures Marked(t, p) <==> t[p].File? && HasMarker(t[p].content)
  {
    hide Resolve, HasMarker, NoLinkAbove, DirsAbove;
    DirsAboveHaveNoLinks(t, p);
    ResolveInPlace(t, p, true);
  }

  lemma NamePlaces(t0: Tree, repo: Path, root: Path, sel: Selection, base: Path, generated: string -> bool, sub: Path)
    requires SelectionOk(t0, repo, sel) && Region(sel, base) && base[0] in {"api", "controllers"}
    requires base[0] == "api" ==> |base| == 3 && generated == GeneratedApiFile
    requires base[0] == "controllers" ==> |base| == 2 && generated == GeneratedControllerFile
    requires repo + base + sub in t0 && !IsDir(t0, repo + base + sub) && NameCompanion(base, generated)(sub)
    ensures CompanionPlace(t0, repo, root, sel, base + sub)
  {
    hide Region, GeneratedApiFile, GeneratedControllerFile, HasSuffix;
    RegionDown(sel, base, sub);
    assert repo + base + sub == repo + (base + sub);
    assert sub == [] ==> base + sub == base;
    if base[0] == "controllers" && sub == [] {
      GroupIsDir(t0, repo, sel, base);
    }
  }

  lemma GroupIsDir(t0: Tree, repo: Path, sel: Selection, base: Path)
    requires SelectionOk(t0, repo, sel) && Region(sel, base) && |base| == 2 && base[0] == "controllers"
             && repo + base in t0
    ensures IsDir(t0, repo + base)
  {
    assert base == ["controllers", base[1]];
  }

  lemma ManagerPlaces(
    t0: Tree, t: Tree, repo: Path, root: Path, sel: Selection, base: Path, generated: set<Path>, sub: Path)
    requires Ready(t0, repo, root) && SameOutside(root, t0, t) && Region(sel, base) && |base| == 3 && base[0] == "pkg"
    requires repo + base + sub in t0 && !IsDir(t0, repo + base + sub) && ManagerCompanion(t, repo, base, generated)(sub)
    ensures CompanionPlace(t0, repo, root, sel, base + sub)
  {
    hide Region, Ready, SameOutside, HasSuffix, Marked, LooksOutside, IsDir;
    RegionDown(sel, base, sub);
    assert repo + base + sub == repo + (base + sub);
    UnmarkedThen(t0, t, repo, root, repo + (base + sub));
  }

  /** A file that is unmarked now was unmarked at the start, if its look-up keeps outside the workspace. */
  lemma UnmarkedThen(t0: Tree, t: Tree, repo: Path, root: Path, p: Path)
    requires Ready(t0, repo, root) && SameOutside(root, t0, t) && !Marked(t, p)
    ensures LooksOutside(t0, root, p) ==> !Marked(t0, p)
  {
    hide Ready, SameOutside, Marked, LooksOutside, Separate, Direct, WellFormed;
    ReadyParts(t0, repo, root);
    if LooksOutside(t0, root, p) {
      MarkedOutside(t0, t, root, p);
    }
  }

  // ----- linking companions -----

  function ApiBase(p: PackageModel): Path { ["api", p.group, p.version] }
  function ControllerBase(p: PackageModel): Path { ["controllers", p.group] }

  /** Every checked-in companion of a package is in the workspace. */
  ghost predicate PackageComplete(t0: Tree, t: Tree, repo: Path, root: Path, p: PackageModel) {
    && Complete(t0, t, repo, root, ApiBase(p), NameCompanion(ApiBase(p), GeneratedApiFile))
    && Complete(t0, t, repo, root, ControllerBase(p), NameCompanion(ControllerBase(p), GeneratedControllerFile))
  }

  /** The same for a service-manager root: every directory is there, and every unmarked Go file that is not a
      link and not going to be generated. */
  ghost predicate RootComplete(t0: Tree, t: Tree, repo: Path, root: Path, packages: seq<PackageModel>, r: string) {
    var base := ManagerPath(r, []);
    forall sub :: sub in Below(t0, repo + base) && !IsLink(t0, repo + base + sub) ==>
      Mirrored(t0, t, repo + base, root + base, ManagerCompanion(t0, repo, base, GeneratedPaths(packages, r)), sub)
  }

  // ----- and nothing else -----

  /** A file that the generator writes for a service manager. */
  predicate ManagerOutput(packages: seq<PackageModel>, rel: Path) {
    exists p, m :: p in packages && m in p.managers
      && (|| rel == ["pkg", "servicemanager"] + Split(m.path, '/') + [m.client]
          || rel == ["pkg", "servicemanager"] + Split(m.path, '/') + [m.manager])
  }

  /** Where a companion may be linked: a Go file of a package or root that is not one the generator writes. */
  predicate CompanionAt(packages: seq<PackageModel>, rel: Path) {
    && rel != [] && HasSuffix(Last(rel), ".go")
    && (|| (exists p :: p in packages && ["api", p.group, p.version] <= rel
                        && Last(rel) !in {"groupversion_info.go", "zz_generated.deepcopy.go"}
                        && !HasSuffix(Last(rel), "_types.go"))
        || (exists p :: p in packages && ["controllers", p.group] <= rel && !HasSuffix(Last(rel), "_controller.go"))
        || (exists r :: r in Roots(packages) && ["pkg", "servicemanager", r] <= rel && !ManagerOutput(packages, rel)))
  }

  /** What linking companions adds: directories, and links of companions to where they come from. */
  ghost predicate NewCompanions(t: Tree, t': Tree, repo: Path, root: Path, packages: seq<PackageModel>) {
    forall q :: q in t' && q !in t ==>
      t'[q] == Dir || exists rel :: CompanionAt(packages, rel) && q == root + rel && t'[q] == Link(repo + rel)
  }

  lemma NoNewCompanions(t: Tree, repo: Path, root: Path, packages: seq<PackageModel>)
    ensures NewCompanions(t, t, repo, root, packages)
  {
  }

  lemma NewCompanionsThen(t: Tree, t': Tree, t'': Tree, repo: Path, root: Path, packages: seq<PackageModel>)
    requires Extends(t', t'') && NewCompanions(t, t', repo, root, packages)
             && NewCompanions(t', t'', repo, root, packages)
    ensures NewCompanions(t, t'', repo, root, packages)
  {
    hide CompanionAt;
  }

  lemma MirrorsAreCompanions(
    t: Tree, t': Tree, repo: Path, root: Path, base: Path, shouldLink: Path -> bool, packages: seq<PackageModel>)
    requires NewMirrors(t, t', repo + base, root + base, shouldLink)
    requires forall sub :: shouldLink(sub) ==> CompanionAt(packages, base + sub)
    ensures NewCompanions(t, t', repo, root, packages)
  {
    hide CompanionAt;
    forall q | q in t' && q !in t && t'[q] != Dir
      ensures exists rel :: CompanionAt(packages, rel) && q == root + rel && t'[q] == Link(repo + rel)
    {
      var sub :| shouldLink(sub) && q == root + base + sub && t'[q] == Link(repo + base + sub);
      assert q == root + (base + sub) && repo + base + sub == repo + (base + sub);
    }
  }

  lemma ApiCompanionAt(packages: seq<PackageModel>, p: PackageModel, sub: Path)
    requires p in packages && NameCompanion(ApiBase(p), GeneratedApiFile)(sub)
    ensures CompanionAt(packages, ApiBase(p) + sub)
  {
    hide HasSuffix;
    assert !GeneratedApiFile(Last(ApiBase(p) + sub));
    assert ["api", p.group, p.version] <= ApiBase(p) + sub;
  }

  lemma ControllerCompanionAt(packages: seq<PackageModel>, p: PackageModel, sub: Path)
    requires p in packages && NameCompanion(ControllerBase(p), GeneratedControllerFile)(sub)
    ensures CompanionAt(packages, ControllerBase(p) + sub)
  {
    hide HasSuffix;
    assert !GeneratedControllerFile(Last(ControllerBase(p) + sub));
    assert ["controllers", p.group] <= ControllerBase(p) + sub;
  }

  lemma RootCompanionAt(t: Tree, repo: Path, packages: seq<PackageModel>, r: string, sub: Path)
    requires r in Roots(packages)
             && ManagerCompanion(t, repo, ManagerPath(r, []), GeneratedPaths(packages, r))(sub)
    ensures CompanionAt(packages, ManagerPath(r, []) + sub)
  {
    hide HasSuffix, Roots, Marked, Split;
    var rel := ManagerPath(r, []) + sub;
    assert ["pkg", "servicemanager", r] <= rel;
    assert rel[2] == r;
    forall p, m | p in packages && m in p.managers
      ensures rel != ["pkg", "servicemanager"] + Split(m.path, '/') + [m.client]
      ensures rel != ["pkg", "servicemanager"] + Split(m.path, '/') + [m.manager]
    {
    }
  }

  /** `preserveRuntimeCheckPackageCompanionFiles`. */
  method PreservePackage(
    disk: Disk, ghost t0: Tree, repo: Path, root: Path, sel: Selection, ghost packages: seq<PackageModel>,
    p: PackageModel, ghost written: set<Output>)
    returns (ok: bool)
    requires Ready(t0, repo, root) && SelectionOk(t0, repo, sel) && Inv(t0, disk.tree, repo, root, sel, {}, written)
    requires p.group in sel.groups && p in packages
    modifies disk
    ensures Inv(t0, disk.tree, repo, root, sel, {}, written) && Extends(old(disk.tree), disk.tree)
    ensures NewCompanions(old(disk.tree), disk.tree, repo, root, packages)
    ensures ok ==> PackageComplete(t0, disk.tree, repo, root, p)
    ensures repo + ApiBase(p) !in t0 && repo + ControllerBase(p) !in t0 ==> ok && disk.tree == old(disk.tree)
  {
    hide Ready, SelectionOk, Inv, WellFormed, CompanionPlace, Mirrored, Below, NameCompanion, GeneratedApiFile,
         GeneratedControllerFile,
         Direct, IsDir, IsLink, NewMirrors, NewCompanions, CompanionAt;
    var api, controllers := ApiBase(p), ControllerBase(p);
    BaseDirect(t0, repo, root, sel, api);
    BaseDirect(t0, repo, root, sel, controllers);
    var linkApi, linkController := NameCompanion(api, GeneratedApiFile),
        NameCompanion(controllers, GeneratedControllerFile);
    forall sub | repo + api + sub in t0 && !IsDir(t0, repo + api + sub) && linkApi(sub)
        ensures CompanionPlace(t0, repo, root, sel, api + sub) {
      NamePlaces(t0, repo, root, sel, api, GeneratedApiFile, sub);
    }
    forall sub | repo + controllers + sub in t0 && !IsDir(t0, repo + controllers + sub) && linkController(sub)
      ensures CompanionPlace(t0, repo, root, sel, controllers + sub)
    {
      NamePlaces(t0, repo, root, sel, controllers, GeneratedControllerFile, sub);
    }
    forall sub | linkApi(sub) ensures CompanionAt(packages, api + sub) { ApiCompanionAt(packages, p, sub); }
    forall sub | linkController(sub) ensures CompanionAt(packages, controllers + sub) {
      ControllerCompanionAt(packages, p, sub);
    }
    ok := PreserveCompanions(disk, t0, repo, root, sel, api, linkApi, written);
    ghost var t := disk.tree;
    MirrorsAreCompanions(old(disk.tree), t, repo, root, api, linkApi, packages);
    if !ok { return; }
    ok := PreserveCompanions(disk, t0, repo, root, sel, controllers, linkController, written);
    MirrorsAreCompanions(t, disk.tree, repo, root, controllers, linkController, packages);
    NewCompanionsThen(old(disk.tree), t, disk.tree, repo, root, packages);
    CompleteKept(t0, t, disk.tree, repo, root, api, linkApi);
  }

  /** One service-manager root. */
  method PreserveRoot(
    disk: Disk, ghost t0: Tree, repo: Path, root: Path, sel: Selection, packages: seq<PackageModel>, r: string,
    ghost written: set<Output>)
    returns (ok: bool)
    requires Ready(t0, repo, root) && SelectionOk(t0, repo, sel) && Inv(t0, disk.tree, repo, root, sel, {}, written)
             && r in sel.roots && r in Roots(packages)
    modifies disk
    ensures Inv(t0, disk.tree, repo, root, sel, {}, written) && Extends(old(disk.tree), disk.tree)
    ensures NewCompanions(old(disk.tree), disk.tree, repo, root, packages)
    ensures ok ==> Complete(t0, disk.tree, repo, root, ManagerPath(r, []),
                            ManagerCompanion(old(disk.tree), repo, ManagerPath(r, []), GeneratedPaths(packages, r)))
    ensures ok ==> RootComplete(t0, disk.tree, repo, root, packages, r)
    ensures repo + ManagerPath(r, []) !in t0 ==> ok && disk.tree == old(disk.tree)
  {
    hide Ready, SelectionOk, Inv, WellFormed, CompanionPlace, Mirrored, Below, ManagerCompanion, GeneratedPaths,
         SameOutside, IsDir, IsLink,
         Direct, RootComplete, NewMirrors, NewCompanions, CompanionAt, Roots;
    BaseDirect(t0, repo, root, sel, ManagerPath(r, []));
    InvRoot(t0, disk.tree, repo, root, sel, {}, written);
    var base := ManagerPath(r, []);
    var generated := GeneratedPaths(packages, r);
    var t := disk.tree;
    var shouldLink := ManagerCompanion(t, repo, base, generated);
    forall sub | repo + base + sub in t0 && !IsDir(t0, repo + base + sub) && shouldLink(sub)
        ensures CompanionPlace(t0, repo, root, sel, base + sub) {
      ManagerPlaces(t0, t, repo, root, sel, base, generated, sub);
    }
    forall sub | shouldLink(sub) ensures CompanionAt(packages, base + sub) {
      RootCompanionAt(t, repo, packages, r, sub);
    }
    ok := PreserveCompanions(disk, t0, repo, root, sel, base, shouldLink, written);
    MirrorsAreCompanions(t, disk.tree, repo, root, base, shouldLink, packages);
    if ok {
      ManagerComplete(t0, t, disk.tree, repo, root, sel, packages, r);
    }
  }

  lemma ManagerComplete(
    t0: Tree, t: Tree, t': Tree, repo: Path, root: Path, sel: Selection, packages: seq<PackageModel>, r: string)
    requires Ready(t0, repo, root) && SelectionOk(t0, repo, sel) && SameOutside(root, t0, t) && r in sel.roots
    requires Complete(t0, t', repo, root, ManagerPath(r, []),
             ManagerCompanion(t, repo, ManagerPath(r, []), GeneratedPaths(packages, r)))
    ensures RootComplete(t0, t', repo, root, packages, r)
  {
    hide Ready, SelectionOk, SameOutside, Marked, IsDir, HasSuffix, Below, GeneratedPaths;
    var base, generated := ManagerPath(r, []), GeneratedPaths(packages, r);
    if repo + base in t0 {
      SelectedRootIsDir(t0, repo, sel, base);
      DirIsNoLink(t0, repo + base);
    }
    forall sub | sub in Below(t0, repo + base) && !IsLink(t0, repo + base + sub)
      ensures Mirrored(t0, t', repo + base, root + base, ManagerCompanion(t0, repo, base, generated), sub)
    {
      assert Mirrored(t0, t', repo + base, root + base, ManagerCompanion(t, repo, base, generated), sub);
      assert repo + base + sub == repo + (base + sub);
      RegionDown(sel, base, sub);
      SourceMarked(t0, t, repo, root, sel, base + sub);
    }
  }

  lemma DirIsNoLink(t: Tree, p: Path)
    requires IsDir(t, p)
    ensures !IsLink(t, p)
  {
  }

  /** The checkout has nothing yet for any of the packages. */
  ghost predicate NoCompanions(t: Tree, repo: Path, packages: seq<PackageModel>) {
    && (forall p :: p in packages ==> repo + ApiBase(p) !in t && repo + ControllerBase(p) !in t)
    && (forall r :: r in Roots(packages) ==> repo + ManagerPath(r, []) !in t)
  }

  /** `preserveCheckedInCompanionFiles`: the service-manager roots come in any order. */
  method PreserveAllCompanions(
    disk: Disk, ghost t0: Tree, repo: Path, root: Path, sel: Selection, packages: seq<PackageModel>,
    ghost written: set<Output>)
    returns (ok: bool)
    requires Ready(t0, repo, root) && SelectionOk(t0, repo, sel) && Inv(t0, disk.tree, repo, root, sel, {}, written)
    requires sel.roots == Roots(packages) && forall p :: p in packages ==> p.group in sel.groups
    modifies disk
    ensures Inv(t0, disk.tree, repo, root, sel, {}, written) && Extends(old(disk.tree), disk.tree)
    ensures ok ==> && (forall p :: p in packages ==> PackageComplete(t0, disk.tree, repo, root, p))
                   && (forall r :: r in sel.roots ==> RootComplete(t0, disk.tree, repo, root, packages, r))
    ensures NewCompanions(old(disk.tree), disk.tree, repo, root, packages)
    ensures NoCompanions(t0, repo, packages) ==> ok && disk.tree == old(disk.tree)
  {
    hide Ready, SelectionOk, Inv, WellFormed, Complete, RootComplete, Roots, NewCompanions;
    NoNewCompanions(disk.tree, repo, root, packages);
    for i := 0 to |packages|
      invariant NoCompanions(t0, repo, packages) ==> disk.tree == old(disk.tree)
      invariant Inv(t0, disk.tree, repo, root, sel, {}, written) && Extends(old(disk.tree), disk.tree)
      invariant NewCompanions(old(disk.tree), disk.tree, repo, root, packages)
      invariant forall k :: 0 <= k < i ==> PackageComplete(t0, disk.tree, repo, root, packages[k])
    {
      ghost var t := disk.tree;
      ok := PreservePackage(disk, t0, repo, root, sel, packages, packages[i], written);
      NewCompanionsThen(old(disk.tree), t, disk.tree, repo, root, packages);
      if !ok { return; }
      PackagesKept(t0, t, disk.tree, repo, root, packages[..i]);
      assert forall k :: 0 <= k < i ==> packages[..i][k] == packages[k];
    }
    assert packages[..|packages|] == packages;
    var todo := Roots(packages);
    while todo != {}
      invariant todo <= sel.roots
      invariant NoCompanions(t0, repo, packages) ==> disk.tree == old(disk.tree)
      invariant Inv(t0, disk.tree, repo, root, sel, {}, written) && Extends(old(disk.tree), disk.tree)
      invariant NewCompanions(old(disk.tree), disk.tree, repo, root, packages)
      invariant forall p :: p in packages ==> PackageComplete(t0, disk.tree, repo, root, p)
      invariant forall r :: r in sel.roots - todo ==> RootComplete(t0, disk.tree, repo, root, packages, r)
      decreases todo
    {
      ghost var t := disk.tree;
      var r :| r in todo;
      ok := PreserveRoot(disk, t0, repo, root, sel, packages, r, written);
      NewCompanionsThen(old(disk.tree), t, disk.tree, repo, root, packages);
      if !ok { return; }
      PackagesKept(t0, t, disk.tree, repo, root, packages);
      RootsKept(t0, t, disk.tree, repo, root, packages, sel.roots - todo);
      todo := todo - {r};
    }
    ok := true;
  }

  lemma PackagesKept(t0: Tree, t: Tree, t': Tree, repo: Path, root: Path, packages: seq<PackageModel>)
    requires Extends(t, t')
    ensures forall p :: p in packages && PackageComplete(t0, t, repo, root, p) ==>
            PackageComplete(t0, t', repo, root, p)
  {
    hide Complete, Extends;
    forall p | p in packages && PackageComplete(t0, t, repo, root, p) ensures PackageComplete(t0, t', repo, root, p) {
      CompleteKept(t0, t, t', repo, root, ApiBase(p), NameCompanion(ApiBase(p), GeneratedApiFile));
      CompleteKept(t0, t, t', repo, root, ControllerBase(p), NameCompanion(ControllerBase(p), GeneratedControllerFile));
    }
  }

  lemma RootsKept(t0: Tree, t: Tree, t': Tree, repo: Path, root: Path, packages: seq<PackageModel>, roots: set<string>)
    requires Extends(t, t')
    ensures forall r :: r in roots && RootComplete(t0, t, repo, root, packages, r) ==>
            RootComplete(t0, t', repo, root, packages, r)
  {
    hide Below, ManagerCompanion, GeneratedPaths;
  }

  // ----- finding the checkout -----

  /** `findRepoRoot`: the nearest directory at or above `cwd` with a `go.mod`, if there is one. */
  method FindRepoRoot(disk: Disk, cwd: Path) returns (r: Option<Path>)
    ensures r.None? ==> forall n :: 0 <= n <= |cwd| ==> Stat(disk.tree, cwd[..n] + ["go.mod"]).None?
    ensures r.Some? ==> && r.value <= cwd && Stat(disk.tree, r.value + ["go.mod"]).Some?
                        && forall n :: |r.value| < n <= |cwd| ==> Stat(disk.tree, cwd[..n] + ["go.mod"]).None?
  {
    hide Stat, WellFormed;
    var i := |cwd|;
    while true
      invariant 0 <= i <= |cwd|
      invariant forall n :: i < n <= |cwd| ==> Stat(disk.tree, cwd[..n] + ["go.mod"]).None?
      decreases i
    {
      if Stat(disk.tree, cwd[..i] + ["go.mod"]).Some? {
        return Some(cwd[..i]);
      }
      if i == 0 {
        return None;
      }
      i := i - 1;
    }
  }

  // ----- preparing -----

  /** A checkout whose listed directories are not reached through links. */
  ghost predicate Checkout(t: Tree, repo: Path) {
    && IsDir(t, repo) && repo + ["go.mod"] in t
    && Direct(t, repo, ["api"]) && Direct(t, repo, ["controllers"])
    && Direct(t, repo, ["internal", "registrations"]) && Direct(t, repo, ["pkg", "servicemanager"])
  }

  /** Where the workspace may be asked for: a canonical path, not inside one of the source directories. */
  ghost predicate Placeable(t: Tree, repo: Path, root: Path) {
    && root != [] && NoLinkAbove(t, root) && !IsLink(t, root)
    && (forall d :: d in SOURCE_DIRS ==> !(repo + [d] <= root))
  }

  /** What a temporary directory's name promises: it is new, in an existing directory. */
  ghost predicate Unused(t: Tree, root: Path) {
    root !in t && DirsAbove(t, root)
  }

  /** What was there is still there; what is new is at or below `root`, or a directory on the way to it. */
  ghost predicate OnlyAround(root: Path, t: Tree, t': Tree) {
    && Extends(t, t')
    && (forall q :: q in t' && q !in t ==> root <= q || (q <= root && t'[q] == Dir))
  }

  lemma EmptyDirReady(t: Tree, repo: Path, root: Path)
    requires WellFormed(t) && Checkout(t, repo) && Placeable(t, repo, root) && IsDir(t, root)
             && ChildNames(t, root) == {}
    ensures Ready(t, repo, root)
  {
    hide WellFormed, ChildNames, NoLinkAbove;
    forall q | q in t ensures !(root < q) {
      if root < q {
        HasChild(t, root, q);
      }
    }
    assert root <= repo ==> root < repo + ["go.mod"];
  }

  lemma HasChild(t: Tree, root: Path, q: Path)
    requires WellFormed(t) && q in t && root < q
    ensures ChildNames(t, root) != {}
  {
    hide WellFormed, ChildNames;
    var n := q[|root|];
    assert root + [n] + q[|root| + 1..] == q;
    TopExists(t, root + [n], q[|root| + 1..]);
    assert n in ChildNames(t, root);
  }

  lemma NewDirsKeepSource(t: Tree, t0: Tree, repo: Path, root: Path, sel: Selection)
    requires Checkout(t, repo) && Placeable(t, repo, root) && SelectionOk(t, repo, sel) && OnlyNewDirs(t, t0, root)
    ensures Checkout(t0, repo) && Placeable(t0, repo, root) && SelectionOk(t0, repo, sel)
  {
    hide NoLinkAbove, Direct, SelectionOk;
    OnlyNewDirsNoLinks(t, t0, root, root);
    NewDirsKeepDirect(t, t0, repo, root, ["api"]);
    NewDirsKeepDirect(t, t0, repo, root, ["controllers"]);
    NewDirsKeepDirect(t, t0, repo, root, ["internal", "registrations"]);
    NewDirsKeepDirect(t, t0, repo, root, ["pkg", "servicemanager"]);
    NewDirsKeepSelection(t, t0, repo, root, sel);
  }

  lemma NewDirsKeepDirect(t: Tree, t0: Tree, repo: Path, root: Path, rel: Path)
    requires OnlyNewDirs(t, t0, root) && Direct(t, repo, rel)
    ensures Direct(t0, repo, rel)
  {
    forall i | 0 < i <= |rel| ensures !IsLink(t0, repo + rel[..i]) {
      assert !IsLink(t, repo + rel[..i]);
    }
  }

  lemma NewDirsKeepSelection(t: Tree, t0: Tree, repo: Path, root: Path, sel: Selection)
    requires OnlyNewDirs(t, t0, root) && SelectionOk(t, repo, sel)
    ensures SelectionOk(t0, repo, sel)
  {
    hide CopiedNames;
    forall g | g in sel.groups ensures !IsLink(t0, repo + ["api", g]) {
      assert !IsLink(t, repo + ["api", g]);
    }
    forall c, q | c in CopiedNames(sel.tool) && repo + ["internal", c] <= q ensures !IsLink(t0, q) {
      assert !IsLink(t, q);
    }
  }

  lemma AroundAfterPopulate(t: Tree, t0: Tree, t': Tree, root: Path)
    requires OnlyNewDirs(t, t0, root) && SameOutside(root, t0, t') && forall q :: q in t ==> !(root < q)
    ensures OnlyAround(root, t, t')
  {
  }

  /** `prepareSnapshot`: an explicit directory must be empty, a temporary one is new. */
  method PrepareSnapshot(
    disk: Disk, repo: Path, root: Path, sel: Selection, explicit: bool) returns (ok: bool, ghost t0: Tree)
    requires Checkout(disk.tree, repo) && Placeable(disk.tree, repo, root) && SelectionOk(disk.tree, repo, sel)
    requires !explicit ==> Unused(disk.tree, root)
    modifies disk
    ensures OnlyAround(root, old(disk.tree), disk.tree)
    ensures ok ==> && Ready(t0, repo, root) && SelectionOk(t0, repo, sel) && Populated(t0, disk.tree, repo, root, sel)
                   && SameOutside(root, t0, disk.tree) && OnlyNewDirs(old(disk.tree), t0, root)
                   && (explicit || t0 == old(disk.tree)[root := Dir])
    ensures !explicit && SourceComplete(old(disk.tree), repo) ==> ok
  {
    hide WellFormed, Checkout, Placeable, SelectionOk, MkdirAll, Mkdir, ChildNames, Populated, Ready, SourceComplete,
         Listing, Less;
    ghost var t := disk.tree;
    ok := MakeRoot(disk, repo, root, explicit);
    t0 := disk.tree;
    AroundNewDirs(t, t0, root);
    if !ok { return; }
    var names, listed := disk.ReadDir(root);
    if explicit && (!listed || names != []) {
      ok := false;
      return;
    }
    NewDirsKeepSource(t, t0, repo, root, sel);
    RootIsEmpty(t, t0, repo, root, explicit, names, listed);
    EmptyDirReady(t0, repo, root);
    if SourceComplete(t, repo) {
      NewDirsKeepSources(t, t0, repo, root);
    }
    ok := PopulateSnapshot(disk, repo, root, sel);
    NothingInside(t, t0, repo, root);
    AroundAfterPopulate(t, t0, disk.tree, root);
  }

  lemma NewDirsKeepSources(t: Tree, t0: Tree, repo: Path, root: Path)
    requires OnlyNewDirs(t, t0, root) && SourceComplete(t, repo)
    ensures SourceComplete(t0, repo)
  {
  }

  lemma NothingInside(t: Tree, t0: Tree, repo: Path, root: Path)
    requires Ready(t0, repo, root) && OnlyNewDirs(t, t0, root)
    ensures forall q :: q in t ==> !(root < q)
  {
    hide WellFormed;
  }

  lemma AroundNewDirs(t: Tree, t0: Tree, root: Path)
    requires OnlyNewDirs(t, t0, root)
    ensures OnlyAround(root, t, t0)
  {
  }

  method MakeRoot(disk: Disk, ghost repo: Path, root: Path, explicit: bool) returns (ok: bool)
    requires Placeable(disk.tree, repo, root) && (!explicit ==> Unused(disk.tree, root))
    modifies disk
    ensures OnlyNewDirs(old(disk.tree), disk.tree, root)
    ensures ok ==> IsDir(disk.tree, root)
    ensures !explicit ==> ok && disk.tree == old(disk.tree)[root := Dir]
  {
    hide WellFormed, MkdirAll, NoLinkAbove, DirsAbove, Resolve;
    if explicit {
      MkdirAllInPlace(disk.tree, root);
      ok := disk.MakeDirs(root);
    } else {
      ResolveInPlace(disk.tree, root, false);
      ok := disk.MakeDir(root);
    }
  }

  lemma RootIsEmpty(t: Tree, t0: Tree, repo: Path, root: Path, explicit: bool, names: seq<string>, listed: bool)
    requires WellFormed(t) && Placeable(t0, repo, root) && IsDir(t0, root)
    requires !explicit ==> Unused(t, root) && t0 == t[root := Dir]
    requires explicit ==> listed && names == []
    requires listed ==>
             Stat(t0, root) == Some(Dir) && names == Listing(Less, ChildNames(t0, Resolve(t0, root, true).value))
    ensures ChildNames(t0, root) == {}
  {
    hide WellFormed, ChildNames, Resolve, NoLinkAbove, Listing, Less;
    if explicit {
      ResolveInPlace(t0, root, true);
      LessIsStrictTotal();
      ListingSpec(Less, ChildNames(t0, root));
    } else {
      NothingBelow(t, root);
      forall n ensures n !in ChildNames(t0, root) {
        assert [n] !in Below(t, root);
        assert root + [n] != root;
      }
    }
  }

  // ----- the run -----

  // ----- what a finished workspace holds -----

  /** Every checked-in Go file of the packages that the generator does not write is in the workspace: by name in the
      API and controller packages, by name and marker in the service-manager roots. */
  ghost predicate CompanionsThere(t0: Tree, t: Tree, repo: Path, root: Path, packages: seq<PackageModel>) {
    && (forall p, sub :: p in packages && ApiFile(t0, repo, ["api", p.group, p.version] + sub) ==>
          root + (["api", p.group, p.version] + sub) in t)
    && (forall p, sub :: p in packages && ControllerFile(t0, repo, ["controllers", p.group] + sub) ==>
          root + (["controllers", p.group] + sub) in t)
    && (forall r, sub :: r in Roots(packages) && ManagerFile(t0, repo, ["pkg", "servicemanager", r] + sub)
                         && !ManagerOutput(packages, ["pkg", "servicemanager", r] + sub) ==>
          root + (["pkg", "servicemanager", r] + sub) in t)
  }

  predicate GoFile(t: Tree, repo: Path, rel: Path) {
    rel != [] && repo + rel in t && t[repo + rel].File? && HasSuffix(rel[|rel| - 1], ".go")
  }

  predicate ApiFile(t: Tree, repo: Path, rel: Path) {
    && GoFile(t, repo, rel) && rel[|rel| - 1] !in {"groupversion_info.go", "zz_generated.deepcopy.go"}
    && !HasSuffix(rel[|rel| - 1], "_types.go")
  }

  predicate ControllerFile(t: Tree, repo: Path, rel: Path) {
    GoFile(t, repo, rel) && !HasSuffix(rel[|rel| - 1], "_controller.go")
  }

  predicate ManagerFile(t: Tree, repo: Path, rel: Path) {
    GoFile(t, repo, rel) && !Contains(t[repo + rel].content, "// Code generated by generator. DO NOT EDIT.")
  }

  lemma CompleteFile(
    t0: Tree, t: Tree, repo: Path, root: Path, base: Path, shouldLink: Path -> bool, sub: Path)
    requires WellFormed(t0) && Complete(t0, t, repo, root, base, shouldLink)
    requires repo + (base + sub) in t0 && t0[repo + (base + sub)].File? && shouldLink(sub)
    ensures root + (base + sub) in t
  {
    hide WellFormed, Below;
    assert repo + (base + sub) == repo + base + sub && root + (base + sub) == root + base + sub;
    WellFormedAbove(t0, repo + base + sub);
    assert sub == [] ==> repo + base + sub == repo + base;
    assert sub != [] ==> (repo + base + sub)[..|repo + base|] == repo + base;
    assert sub in Below(t0, repo + base);
    assert Mirrored(t0, t, repo + base, root + base, shouldLink, sub);
  }

  lemma ApiFiles(t0: Tree, t: Tree, repo: Path, root: Path, p: PackageModel, sub: Path)
    requires WellFormed(t0) && PackageComplete(t0, t, repo, root, p)
    requires ApiFile(t0, repo, ["api", p.group, p.version] + sub)
    ensures root + (["api", p.group, p.version] + sub) in t
  {
    hide WellFormed, Complete, HasSuffix;
    var base := ApiBase(p);
    assert GoFile(t0, repo, base + sub) && Last(base + sub) == (base + sub)[|base + sub| - 1];
    assert !GeneratedApiFile(Last(base + sub));
    assert NameCompanion(base, GeneratedApiFile)(sub);
    CompleteFile(t0, t, repo, root, base, NameCompanion(base, GeneratedApiFile), sub);
  }

  lemma ControllerFiles(t0: Tree, t: Tree, repo: Path, root: Path, p: PackageModel, sub: Path)
    requires WellFormed(t0) && PackageComplete(t0, t, repo, root, p)
    requires ControllerFile(t0, repo, ["controllers", p.group] + sub)
    ensures root + (["controllers", p.group] + sub) in t
  {
    hide WellFormed, Complete, HasSuffix;
    var base := ControllerBase(p);
    assert GoFile(t0, repo, base + sub) && Last(base + sub) == (base + sub)[|base + sub| - 1];
    assert NameCompanion(base, GeneratedControllerFile)(sub);
    CompleteFile(t0, t, repo, root, base, NameCompanion(base, GeneratedControllerFile), sub);
  }

  lemma GeneratedIsOutput(packages: seq<PackageModel>, r: string, rel: Path)
    ensures rel in GeneratedPaths(packages, r) ==> ManagerOutput(packages, rel)
  {
    hide Split;
  }

  lemma RootFiles(
    t0: Tree, t: Tree, repo: Path, root: Path, sel: Selection, packages: seq<PackageModel>, r: string, sub: Path)
    requires Ready(t0, repo, root) && r in sel.roots && RootComplete(t0, t, repo, root, packages, r)
    requires ManagerFile(t0, repo, ["pkg", "servicemanager", r] + sub)
    requires !ManagerOutput(packages, ["pkg", "servicemanager", r] + sub)
    ensures root + (["pkg", "servicemanager", r] + sub) in t
  {
    hide Ready, Separate, Direct, Below, Marked, HasSuffix, GeneratedPaths, Contains, WellFormed, ManagerOutput;
    var base := ManagerPath(r, []);
    var rel := base + sub;
    assert base == ["pkg", "servicemanager", r] && rel == ["pkg", "servicemanager", r] + sub;
    assert repo + rel == repo + base + sub && root + rel == root + base + sub;
    assert sub in Below(t0, repo + base);
    assert rel !in GeneratedPaths(packages, r) by { GeneratedIsOutput(packages, r, rel); }
    ReadyParts(t0, repo, root);
    WellFormedAbove(t0, repo + rel);
    MarkedInPlace(t0, repo + rel);
    assert ManagerCompanion(t0, repo, base, GeneratedPaths(packages, r))(sub);
    assert Mirrored(t0, t, repo + base, root + base, ManagerCompanion(t0, repo, base, GeneratedPaths(packages, r)),
           sub);
  }

  lemma AllFiles(t0: Tree, t: Tree, repo: Path, root: Path, sel: Selection, packages: seq<PackageModel>)
    requires Ready(t0, repo, root) && sel.roots == Roots(packages)
    requires forall p :: p in packages ==> PackageComplete(t0, t, repo, root, p)
    requires forall r :: r in sel.roots ==> RootComplete(t0, t, repo, root, packages, r)
    ensures CompanionsThere(t0, t, repo, root, packages)
  {
    hide Ready, PackageComplete, RootComplete, ApiFile, ControllerFile, ManagerFile, Roots, ManagerOutput, WellFormed,
         Separate, Direct;
    ReadyParts(t0, repo, root);
    forall p, sub | p in packages && ApiFile(t0, repo, ["api", p.group, p.version] + sub)
      ensures root + (["api", p.group, p.version] + sub) in t
    {
      ApiFiles(t0, t, repo, root, p, sub);
    }
    forall p, sub | p in packages && ControllerFile(t0, repo, ["controllers", p.group] + sub)
      ensures root + (["controllers", p.group] + sub) in t
    {
      ControllerFiles(t0, t, repo, root, p, sub);
    }
    forall r, sub | r in Roots(packages) && ManagerFile(t0, repo, ["pkg", "servicemanager", r] + sub)
                    && !ManagerOutput(packages, ["pkg", "servicemanager", r] + sub)
      ensures root + (["pkg", "servicemanager", r] + sub) in t
    {
      RootFiles(t0, t, repo, root, sel, packages, r, sub);
    }
  }

  lemma CompanionsKept(t0: Tree, t: Tree, t': Tree, repo: Path, root: Path, packages: seq<PackageModel>)
    requires CompanionsThere(t0, t, repo, root, packages) && t.Keys <= t'.Keys
    ensures CompanionsThere(t0, t', repo, root, packages)
  {
    hide ApiFile, ControllerFile, ManagerFile, Roots, ManagerOutput;
  }

  /** The same companions, seen from before the directories on the way to the workspace were made. */
  lemma CompanionsBefore(t: Tree, t0: Tree, t': Tree, repo: Path, root: Path, packages: seq<PackageModel>)
    requires OnlyNewDirs(t, t0, root) && CompanionsThere(t0, t', repo, root, packages)
    ensures CompanionsThere(t, t', repo, root, packages)
  {
    hide HasSuffix, Contains, Roots, ManagerOutput;
  }

  /** A link below a package or root points to the same place of the checkout, and no link has the name of a
      generated file. */
  ghost predicate LinksMirror(t: Tree, repo: Path, root: Path, sel: Selection) {
    forall rel :: Region(sel, rel) && IsLink(t, root + rel) ==> MirrorNode(t[root + rel].target, repo, rel)
  }

  predicate MirrorNode(target: Path, repo: Path, rel: Path)
    requires rel != []
  {
    var name := rel[|rel| - 1];
    && target == repo + rel
    && (rel[0] == "api" ==>
          name !in {"groupversion_info.go", "zz_generated.deepcopy.go"} && !HasSuffix(name, "_types.go"))
    && (rel[0] == "controllers" ==> !HasSuffix(name, "_controller.go"))
  }

  lemma InvMirrorNode(
    t0: Tree, t: Tree, repo: Path, root: Path, sel: Selection, manual: set<string>, written: set<Output>, rel: Path)
    requires Inv(t0, t, repo, root, sel, manual, written) && Region(sel, rel) && IsLink(t, root + rel)
    ensures MirrorNode(t[root + rel].target, repo, rel)
  {
    hide Inv, HasSuffix, LinkPlace, LooksOutside, Marked, Region;
    RegionSource(sel, rel);
    RegionAvoidsLinks(sel, rel, |rel|);
    assert rel[..|rel|] == rel;
    LinkWhere(t0, t, repo, root, sel, manual, written, rel);
  }

  lemma InvLinksMirror(
    t0: Tree, t: Tree, repo: Path, root: Path, sel: Selection, manual: set<string>, written: set<Output>)
    requires Inv(t0, t, repo, root, sel, manual, written)
    ensures LinksMirror(t, repo, root, sel)
  {
    hide Inv, MirrorNode;
    forall rel | Region(sel, rel) && IsLink(t, root + rel) ensures MirrorNode(t[root + rel].target, repo, rel) {
      InvMirrorNode(t0, t, repo, root, sel, manual, written, rel);
    }
  }

  /** Whatever the generator did not leave so was added by a later step: directories, links of companions and of manual
      roots, and deepcopy files. */
  ghost predicate Accounted(
    generated: Tree, t: Tree, repo: Path, root: Path, packages: seq<PackageModel>, manual: seq<string>,
    outputs: seq<Deepcopy>) {
    forall q :: q in t && !(q in generated && t[q] == generated[q]) ==>
      || (q !in generated && t[q] == Dir)
      || (exists rel :: CompanionAt(packages, rel) && q == root + rel && t[q] == Link(repo + rel))
      || (exists r :: r in manual && TrimSpace(r) != "" && ManualLink(repo, root, q, t[q], TrimSpace(r)))
      || (exists o :: o in outputs && q == root + o.rel && t[q] == File(o.content))
  }

  lemma AllAccounted(
    generated: Tree, linked: Tree, complete: Tree, t: Tree, repo: Path, root: Path, packages: seq<PackageModel>,
    manual: seq<string>, outputs: seq<Deepcopy>)
    requires Extends(generated, linked) && NewCompanions(generated, linked, repo, root, packages)
    requires Extends(linked, complete) && NewManual(linked, complete, repo, root, manual)
    requires NewDeepcopies(complete, t, root, outputs)
    ensures Accounted(generated, t, repo, root, packages, manual, outputs)
  {
    hide CompanionAt, TrimSpace, ManualLink;
  }

  /** What a successful run leaves in the workspace, besides being fresh: the companions and manual roots of the
      checkout, linked to where they come from; everything that the generator left; the deepcopy files; and nothing
      else. */
  ghost predicate Furnished(
    t0: Tree, generated: Tree, t: Tree, repo: Path, root: Path, job: Job, outputs: seq<Deepcopy>) {
    && CompanionsThere(t0, t, repo, root, job.packages)
    && (forall r :: r in job.manual ==> ManualThere(t0, t, repo, root, TrimSpace(r)))
    && LinksMirror(t, repo, root, SelectionOf(job))
    && Keeps(root, generated, t) && Accounted(generated, t, repo, root, job.packages, job.manual, outputs)
    && (forall o :: o in outputs && Reached(t, root + o.rel) ==> Deepcopied(t, root, outputs, o.rel))
  }

  lemma ManualKept(t0: Tree, t: Tree, t': Tree, repo: Path, root: Path, manual: seq<string>)
    requires Keeps(root, t, t') && forall r :: r in manual ==> ManualThere(t0, t, repo, root, TrimSpace(r))
    ensures forall r :: r in manual ==> ManualThere(t0, t', repo, root, TrimSpace(r))
  {
    hide TrimSpace;
  }

  lemma FurnishedBefore(
    t: Tree, t0: Tree, generated: Tree, t': Tree, repo: Path, root: Path, job: Job, outputs: seq<Deepcopy>)
    requires OnlyNewDirs(t, t0, root) && Furnished(t0, generated, t', repo, root, job, outputs)
    ensures Furnished(t, generated, t', repo, root, job, outputs)
  {
    hide CompanionsThere, LinksMirror, Keeps, TrimSpace, Reached, Deepcopied, SelectionOf, Accounted;
    CompanionsBefore(t, t0, t', repo, root, job.packages);
  }

  /** What the build plan asks of the disk. */
  ghost predicate PlanReady(t: Tree, root: Path, job: Job) {
    && (forall g :: g in job.groups ==> Stat(t, root + ["controllers", g]) in {None, Some(Dir)})
    && (exists g :: g in job.groups && HoldsController(t, root, g))
    && (exists r, sub :: r in Roots(job.packages) && ManagerEntry(t, root, r, sub))
    && (forall g :: g in job.registrations ==> Registered(t, root, g))
  }

  /** A run with nothing checked in to preserve, in which the generator and the outside commands succeed. */
  ghost predicate Smooth(
    t0: Tree, t: Tree, repo: Path, root: Path, job: Job, ops: seq<ToolOp>, outputs: seq<Deepcopy>) {
    && NoCompanions(t0, repo, job.packages) && job.manual == [] && outputs == []
    && Run(t, root, ops).ok && PlanReady(Run(t, root, ops).tree, root, job)
  }

  /** The steps inside a prepared workspace.  `controllerGen` and `builds` say whether the outside commands
      report success. */
  method CheckInside(
    disk: Disk, ghost t0: Tree, repo: Path, root: Path, job: Job, ops: seq<ToolOp>, outputs: seq<Deepcopy>,
    controllerGen: bool, builds: bool)
    returns (plan: Plan, ok: bool)
    requires var sel := SelectionOf(job);
             && Ready(t0, repo, root) && SelectionOk(t0, repo, sel) && Populated(t0, disk.tree, repo, root, sel)
             && SameOutside(root, t0, disk.tree)
             && (forall op :: op in ops ==> GeneratorOp(sel, op))
             && (forall o :: o in outputs ==> DeepcopyScope(sel, o.rel))
    requires forall p :: p in job.packages ==> p.group in job.groups
    modifies disk
    ensures SameOutside(root, t0, disk.tree) && RootOk(disk.tree, root)
    ensures ok ==> Fresh(plan, disk.tree, root, job.registrations, AllWritten(root, ops))
    ensures ok && RootLinksStayOut(t0, repo, root, Roots(job.packages)) ==>
              FreshManagers(plan, disk.tree, root, Roots(job.packages), AllWritten(root, ops))
    ensures ok ==> plan.controllers != [] && plan.managers != []
    ensures ok ==> PlanListed(plan, disk.tree, root, job.groups, job.registrations, Roots(job.packages))
    ensures ok ==> && controllerGen && builds && Run(old(disk.tree), root, ops).ok
                   && Furnished(t0, Run(old(disk.tree), root, ops).tree, disk.tree, repo, root, job, outputs)
    ensures Smooth(t0, old(disk.tree), repo, root, job, ops, outputs) && controllerGen && builds ==> ok
  {
    hide Ready, SelectionOk, Populated, SameOutside, RootOk, GeneratorOp, DeepcopyScope, WellFormed, Inv, NoCompanions,
         ManagerEntry, Laid, Run, AllWritten, Fresh, FreshManagers, RootLinksStayOut,
         HoldsController, ManagerReported, Registered, PackageName, PackageComplete, RootComplete, Extends, Stat, Roots,
         CompanionsThere, Keeps, ManualThere, LinksMirror, Reached, Deepcopied, TrimSpace, SameBeside, PlanListed,
         NewCompanions, NewManual, NewDeepcopies, Accounted;
    var sel := SelectionOf(job);
    plan := Plan([], [], []);
    ghost var written := AllWritten(root, ops);
    PopulatedExpected(t0, disk.tree, repo, root, sel);
    GeneratorKeepsInv(t0, disk.tree, repo, root, sel, ops);
    assert root != [] by { ReadyRoot(t0, repo, root); }
    ok := RunTool(disk, root, ops);
    InvRoot(t0, disk.tree, repo, root, sel, {}, written);
    if !ok { return; }
    ghost var generated := disk.tree;
    ok := PreserveAllCompanions(disk, t0, repo, root, sel, job.packages, written);
    InvRoot(t0, disk.tree, repo, root, sel, {}, written);
    if !ok { return; }
    AllFiles(t0, disk.tree, repo, root, sel, job.packages);
    ghost var linked := disk.tree;
    ghost var manual := set r | r in job.manual :: TrimSpace(r);
    ok := PreserveManualRoots(disk, t0, repo, root, sel, job.manual, written);
    InvRoot(t0, disk.tree, repo, root, sel, manual, written);
    if !ok { return; }
    ghost var complete := disk.tree;
    ok := RunControllerGen(disk, t0, repo, root, sel, manual, written, outputs);
    InvRoot(t0, disk.tree, repo, root, sel, manual, written);
    if !ok || !controllerGen { return plan, false; }
    FurnishedNow(t0, generated, linked, complete, disk.tree, repo, root, job, outputs);
    AllAccounted(generated, linked, complete, disk.tree, repo, root, job.packages, job.manual, outputs);
    InvLinksMirror(t0, disk.tree, repo, root, sel, manual, written);
    LessIsStrictTotal();
    var roots := SortedElements(Less, Roots(job.packages));
    ListingSpec(Less, Roots(job.packages));
    ReportedRoots(disk.tree, root, Roots(job.packages), roots);
    plan, ok := CollectBuildPlan(disk, t0, repo, root, sel, manual, written, job.groups, job.registrations, roots);
    ok := ok && builds;
  }

  /** What the companion steps placed is kept by the steps after them. */
  lemma FurnishedNow(
    t0: Tree, generated: Tree, linked: Tree, complete: Tree, t: Tree, repo: Path, root: Path, job: Job,
    outputs: seq<Deepcopy>)
    requires Extends(generated, linked) && CompanionsThere(t0, linked, repo, root, job.packages)
    requires Extends(linked, complete)
             && (forall r :: r in job.manual ==> ManualThere(t0, complete, repo, root, TrimSpace(r)))
    requires Keeps(root, complete, t)
    ensures CompanionsThere(t0, t, repo, root, job.packages) && Keeps(root, generated, t)
    ensures forall r :: r in job.manual ==> ManualThere(t0, t, repo, root, TrimSpace(r))
  {
    hide CompanionsThere, Keeps, Extends, TrimSpace, ManualThere;
    ExtendsKeeps(root, generated, linked);
    ExtendsKeeps(root, linked, complete);
    KeepsTwice(root, linked, complete, t);
    KeepsTwice(root, generated, linked, t);
    KeepsKeys(root, linked, t);
    CompanionsKept(t0, linked, t, repo, root, job.packages);
    ManualKept(t0, complete, t, repo, root, job.manual);
  }

  lemma ReportedRoots(t: Tree, root: Path, roots: set<string>, listed: seq<string>)
    requires Elems(listed) == roots
    ensures (exists r, sub :: r in roots && ManagerEntry(t, root, r, sub)) ==>
            exists p :: ManagerReported(t, root, listed, p)
  {
    hide ManagerEntry, ManagerPackage;
    if r, sub :| r in roots && ManagerEntry(t, root, r, sub) {
      assert r in listed by { assert r in Elems(listed); }
      assert ManagerReported(t, root, listed, ManagerPackage(r, sub));
    }
  }

  lemma ReadyRoot(t: Tree, repo: Path, root: Path)
    requires Ready(t, repo, root)
    ensures root != []
  {
    hide WellFormed;
  }

  /** `run`: nothing that was on disk is altered or removed on any path; a successful run in a temporary
      workspace that is not kept leaves the disk exactly as it was; and `seen`, the disk when the plan was made,
      shows every package of the plan with files of this run's generator. */
  method RunRuntimeCheck(
    disk: Disk, repo: Path, root: Path, explicit: bool, keep: bool, job: Job, ops: seq<ToolOp>, outputs: seq<Deepcopy>,
    controllerGen: bool, builds: bool)
    returns (plan: Plan, ok: bool, ghost seen: Tree)
    requires var sel := SelectionOf(job);
             && Checkout(disk.tree, repo) && Placeable(disk.tree, repo, root) && SelectionOk(disk.tree, repo, sel)
             && (!explicit ==> Unused(disk.tree, root))
             && (forall op :: op in ops ==> GeneratorOp(sel, op))
             && (forall o :: o in outputs ==> DeepcopyScope(sel, o.rel))
    requires forall p :: p in job.packages ==> p.group in job.groups
    modifies disk
    ensures OnlyAround(root, old(disk.tree), disk.tree) && OnlyAround(root, old(disk.tree), seen)
    ensures disk.tree == if ok && !explicit && !keep then old(disk.tree) else seen
    ensures ok ==> Fresh(plan, seen, root, job.registrations, AllWritten(root, ops))
    ensures ok && RootLinksStayOut(old(disk.tree), repo, root, Roots(job.packages)) ==>
              FreshManagers(plan, seen, root, Roots(job.packages), AllWritten(root, ops))
    ensures ok ==> plan.controllers != [] && plan.managers != []
    ensures ok ==> PlanListed(plan, seen, root, job.groups, job.registrations, Roots(job.packages))
    ensures ok ==> && controllerGen && builds && (forall q :: q in old(disk.tree) ==> !(root < q))
                   && exists t, t0 ::
                        && OnlyNewDirs(old(disk.tree), t0, root) && Populated(t0, t, repo, root, SelectionOf(job))
                        && Run(t, root, ops).ok
                        && Furnished(old(disk.tree), Run(t, root, ops).tree, seen, repo, root, job, outputs)
    ensures && !explicit && SourceComplete(old(disk.tree), repo) && controllerGen && builds
            && (forall t :: WellFormed(t) && Populated(old(disk.tree)[root := Dir], t, repo, root, SelectionOf(job)) ==>
                  Smooth(old(disk.tree)[root := Dir], t, repo, root, job, ops, outputs))
            ==> ok
  {
    hide Ready, SelectionOk, Populated, SameOutside, RootOk, GeneratorOp, DeepcopyScope, WellFormed, AllWritten, Fresh,
         FreshManagers,
         Smooth, SourceComplete, PlanListed, Furnished, Run,
         Checkout, Placeable, Unused, OnlyAround, OnlyNewDirs, RemoveAll, SelectionOf, RootLinksStayOut, Roots;
    ghost var t := disk.tree;
    plan := Plan([], [], []);
    ghost var t0: Tree;
    ok, t0 := PrepareSnapshot(disk, repo, root, SelectionOf(job), explicit);
    seen := disk.tree;
    if !ok { return; }
    NothingInside(t, t0, repo, root);
    assert root != [] by { ReadyRoot(t0, repo, root); }
    if RootLinksStayOut(t, repo, root, Roots(job.packages)) {
      NewDirsKeepRoots(t, t0, repo, root, Roots(job.packages));
    }
    ghost var populated := disk.tree;
    plan, ok := CheckInside(disk, t0, repo, root, job, ops, outputs, controllerGen, builds);
    seen := disk.tree;
    if ok {
      FurnishedBefore(t, t0, Run(populated, root, ops).tree, seen, repo, root, job, outputs);
    }
    AroundAfterPopulate(t, t0, disk.tree, root);
    if ok && !explicit && !keep {
      CleanupRestores(t, t0, disk.tree, root);
      var _ := disk.DeleteAll(root);
    }
  }

  lemma NewDirsKeepRoots(t: Tree, t0: Tree, repo: Path, root: Path, roots: set<string>)
    requires WellFormed(t) && OnlyNewDirs(t, t0, root) && RootLinksStayOut(t, repo, root, roots)
    ensures RootLinksStayOut(t0, repo, root, roots)
  {
    hide WellFormed, WalksOutside;
    forall r, q | r in roots && repo + ["pkg", "servicemanager", r] <= q && IsLink(t0, q)
        ensures LooksOutside(t0, root, q) {
      assert IsLink(t, q);
      NewDirsWalk(t, t0, root, [], q, MAX_LINKS);
    }
  }

  lemma InBelow(t: Tree, root: Path, q: Path)
    requires q in t && root <= q
    ensures Below(t, root) != {}
  {
    assert root + q[|root|..] == q;
    assert q[|root|..] in Below(t, root);
  }

  lemma CleanupRestores(t: Tree, t0: Tree, t': Tree, root: Path)
    requires WellFormed(t) && Unused(t, root) && t0 == t[root := Dir] && SameOutside(root, t0, t') && RootOk(t', root)
    ensures RemoveAll(t', root).tree == t && OnlyAround(root, t, t)
  {
    hide RemoveAll, WellFormed, DirsAbove;
    RemoveAllExact(t', root);
    NothingBelow(t, root);
    var t'' := RemoveAll(t', root).tree;
    forall q | q in t ensures !(root <= q) {
      if root <= q {
        InBelow(t, root, q);
      }
    }
    forall q ensures q in t'' <==> q in t {
      assert q in t'' <==> q in t' && !(root <= q);
    }
  }
}
