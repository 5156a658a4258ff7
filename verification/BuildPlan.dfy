/**
 The build plan of a runtime-check workspace: which packages are reported as generated, and why each of
 them holds a file that the generator wrote in this run.
 */
module BuildPlan {
  import opened Orders
  import opened Text
  import opened FileSystem
  import opened Snapshot
  import opened Isolation
  import opened Workspace

  datatype Plan = Plan(controllers: seq<string>, managers: seq<string>, registrations: seq<string>)

  function PackageName(rel: Path): string
  {
    "./" + Join(rel, '/')
  }

  // ----- what the tests detect -----

  predicate ControllerEntry(t: Tree, dir: Path, name: string) {
    dir + [name] in t && !IsDir(t, dir + [name]) && HasSuffix(name, "_controller.go")
  }

  predicate HoldsController(t: Tree, root: Path, group: string) {
    var dir := Resolve(t, root + ["controllers", group], true);
    dir.Some? && IsDir(t, dir.value) && exists n :: n in ChildNames(t, dir.value) && ControllerEntry(t, dir.value, n)
  }

  predicate ManagerFileName(name: string) {
    HasSuffix(name, "_servicemanager.go") || HasSuffix(name, "_serviceclient.go")
  }

  function ManagerPath(r: string, sub: Path): Path
  {
    ["pkg", "servicemanager", r] + sub
  }

  predicate ManagerEntry(t: Tree, root: Path, r: string, sub: Path) {
    var dir := Resolve(t, root + ManagerPath(r, []), false);
    && Stat(t, root + ManagerPath(r, [])).Some? && dir.Some?
    && dir.value + sub in t && !IsDir(t, dir.value + sub)
    && ManagerFileName(Last(ManagerPath(r, sub))) && Marked(t, root + ManagerPath(r, sub))
  }

  function Above(rel: Path): Path
    requires rel != []
  {
    rel[..|rel| - 1]
  }

  function ManagerPackage(r: string, sub: Path): string
  {
    PackageName(Above(ManagerPath(r, sub)))
  }

  function RegistrationPath(group: string): Path
  {
    ["internal", "registrations", group + "_generated.go"]
  }

  // ----- collecting -----

  function Reported(t: Tree, root: Path, groups: seq<string>): seq<string>
  {
    if groups == [] then []
    else
      var rest := Reported(t, root, groups[..|groups| - 1]);
      var g := groups[|groups| - 1];
      if HoldsController(t, root, g) then rest + [PackageName(["controllers", g])] else rest
  }

  lemma {:induction false} ReportedSpec(t: Tree, root: Path, groups: seq<string>, p: string)
    ensures p in Reported(t, root, groups) <==>
            exists g :: g in groups && HoldsController(t, root, g) && p == PackageName(["controllers", g])
  {
    hide HoldsController, PackageName;
    if groups != [] {
      ReportedSpec(t, root, groups[..|groups| - 1], p);
      var g := groups[|groups| - 1];
      assert groups == groups[..|groups| - 1] + [g];
    }
  }

  /** `collectControllerPackages`: in order, exactly one package per listed group with a controller file; it
      fails exactly when the directory of a listed group is not a directory. */
  method CollectControllerPackages(
    disk: Disk, root: Path, groups: seq<string>) returns (packages: seq<string>, ok: bool)
    ensures ok <==> forall g :: g in groups ==> Stat(disk.tree, root + ["controllers", g]) in {None, Some(Dir)}
    ensures ok ==> packages == Sort(Less, Reported(disk.tree, root, groups))
  {
    hide Resolve, ChildNames, Less, PackageName, Listing, WellFormed;
    packages := [];
    for i := 0 to |groups|
      invariant forall k :: 0 <= k < i ==> Stat(disk.tree, root + ["controllers", groups[k]]) in {None, Some(Dir)}
      invariant packages == Reported(disk.tree, root, groups[..i])
    {
      var dir := root + ["controllers", groups[i]];
      assert groups[..i + 1][..i] == groups[..i];
      var names, listed := disk.ReadDir(dir);
      if listed {
        var found := FindController(disk, Resolve(disk.tree, dir, true).value, names);
        if found {
          packages := packages + [PackageName(["controllers", groups[i]])];
        }
      } else if Stat(disk.tree, dir).Some? {
        return packages, false;
      }
    }
    assert groups[..|groups|] == groups;
    packages, ok := Sort(Less, packages), true;
  }

  /** The inner loop over the entries of one directory. */
  method FindController(disk: Disk, dir: Path, names: seq<string>) returns (found: bool)
    requires names == Listing(Less, ChildNames(disk.tree, dir))
    ensures found <==> exists n :: n in ChildNames(disk.tree, dir) && ControllerEntry(disk.tree, dir, n)
  {
    hide ChildNames, Less, Listing, ControllerEntry, WellFormed;
    LessIsStrictTotal();
    ListingSpec(Less, ChildNames(disk.tree, dir));
    assert forall n :: n in names <==> n in Elems(names);
    for i := 0 to |names|
      invariant forall k :: 0 <= k < i ==> !ControllerEntry(disk.tree, dir, names[k])
    {
      if ControllerEntry(disk.tree, dir, names[i]) {
        assert names[i] in ChildNames(disk.tree, dir);
        return true;
      }
    }
    found := false;
  }

  ghost predicate ManagerReported(t: Tree, root: Path, roots: seq<string>, p: string) {
    exists r, sub :: r in roots && ManagerEntry(t, root, r, sub) && p == ManagerPackage(r, sub)
  }

  /** `collectServiceManagerPackagesUnderRoot`: one more root into the set of packages seen so far. */
  method CollectUnderRoot(disk: Disk, root: Path, r: string, seen: set<string>) returns (packages: set<string>)
    ensures forall p :: p in packages <==>
              p in seen || exists sub :: ManagerEntry(disk.tree, root, r, sub) && p == ManagerPackage(r, sub)
  {
    hide Resolve, Below, PathLess, Listing, ManagerPackage, Marked, ManagerFileName, WellFormed;
    packages := seen;
    var dir := root + ManagerPath(r, []);
    if Stat(disk.tree, dir) == None {
      return;
    }
    var rels := disk.WalkDir(dir);
    PathLessIsStrictTotal();
    forall q ensures Elems(Listing(PathLess, Below(disk.tree, q))) == Below(disk.tree, q) {
      ListingSpec(PathLess, Below(disk.tree, q));
    }
    assert forall sub :: sub in rels <==> sub in Elems(rels);
    assert forall sub :: ManagerEntry(disk.tree, root, r, sub) ==> sub in rels;
    for i := 0 to |rels|
      invariant forall p :: p in packages <==>
                  p in seen || exists k ::
                      0 <= k < i && ManagerEntry(disk.tree, root, r, rels[k]) && p == ManagerPackage(r, rels[k])
    {
      if ManagerEntry(disk.tree, root, r, rels[i]) {
        packages := packages + {ManagerPackage(r, rels[i])};
      }
    }
  }

  /** `collectServiceManagerPackages`: in strict order, exactly the directories below the listed roots with
      a service-manager or client file that carries the marker. */
  method CollectServiceManagerPackages(disk: Disk, root: Path, roots: seq<string>) returns (packages: seq<string>)
    ensures Increasing(Less, packages)
    ensures forall p :: p in packages <==> ManagerReported(disk.tree, root, roots, p)
  {
    hide ManagerEntry, ManagerPackage, Less, WellFormed;
    var seen := {};
    for i := 0 to |roots|
      invariant forall p :: p in seen <==> ManagerReported(disk.tree, root, roots[..i], p)
    {
      assert roots[..i + 1] == roots[..i] + [roots[i]];
      seen := CollectUnderRoot(disk, root, roots[i], seen);
    }
    assert roots[..|roots|] == roots;
    LessIsStrictTotal();
    packages := SortedElements(Less, seen);
    ListingSpec(Less, seen);
    assert forall p :: p in packages <==> p in Elems(packages);
  }

  predicate Registered(t: Tree, root: Path, group: string) {
    Marked(t, root + RegistrationPath(group))
  }

  /** `collectRegistrationPackages`: with no groups nothing is reported; otherwise it succeeds exactly when
      every group has a marked registration file, and else names exactly the missing ones in order. */
  method CollectRegistrationPackages(disk: Disk, root: Path, groups: seq<string>)
    returns (packages: seq<string>, missing: seq<string>)
    ensures missing == [] <==> forall g :: g in groups ==> Registered(disk.tree, root, g)
    ensures packages == if groups == [] || missing != [] then [] else ["./internal/registrations"]
    ensures Ordered(Less, missing)
    ensures forall f :: f in missing <==>
            exists g :: g in groups && !Registered(disk.tree, root, g) && f == g + "_generated.go"
  {
    hide Marked, Less, WellFormed;
    LessIsStrictTotal();
    TotalIsWeak(Less);
    packages, missing := [], [];
    for i := 0 to |groups|
      invariant forall f :: f in missing <==>
                exists k :: 0 <= k < i && !Registered(disk.tree, root, groups[k]) && f == groups[k] + "_generated.go"
      invariant missing == [] ==> forall k :: 0 <= k < i ==> Registered(disk.tree, root, groups[k])
    {
      if !Registered(disk.tree, root, groups[i]) {
        missing := missing + [groups[i] + "_generated.go"];
      }
    }
    ghost var found := missing;
    if missing != [] {
      assert found[0] in found;
      missing := Sort(Less, missing);
    } else if groups != [] {
      packages := ["./internal/registrations"];
    }
    SortPermutes(Less, found);
    PermutationElems(found, Sort(Less, found));
    SortOrdered(Less, found);
    assert missing == [] || missing == Sort(Less, found);
  }

  // ----- freshness -----

  /** Following a link in the last component ends at its target when no link is on the way there. */
  lemma ResolveThroughLink(t: Tree, p: Path)
    requires p != [] && NoLinkAbove(t, p) && IsLink(t, p) && NoLinkAbove(t, t[p].target) && !IsLink(t, t[p].target)
    ensures Resolve(t, p, true) == None || Resolve(t, p, true) == Some(t[p].target)
  {
    hide Walk;
    var target := t[p].target;
    assert [] + p == p && [] + target == target && p + [] == p && target + [] == target;
    assert forall i :: 0 < i < |p| ==> [] + p[..i] == p[..i];
    assert forall i :: 0 < i < |target| ==> [] + target[..i] == target[..i];
    WalkEnters(t, [], p, [], true, MAX_LINKS);
    WalkInPlace(t, [], target, true, MAX_LINKS - 1);
  }

  /** Neither generated output directories nor anything above them is a link. */
  lemma NotLinked(
    t0: Tree, t: Tree, repo: Path, root: Path, sel: Selection, manual: set<string>, written: set<Output>, rel: Path)
    requires Inv(t0, t, repo, root, sel, manual, written) && rel != [] && !LinkPlace(sel, rel)
    requires |rel| < 3 || rel[0] == "internal"
    ensures !IsLink(t, root + rel)
  {
    hide Inv, LinkPlace;
    if IsLink(t, root + rel) {
      LinkWhere(t0, t, repo, root, sel, manual, written, rel);
    }
  }

  lemma OutputPathClear(
    t0: Tree, t: Tree, repo: Path, root: Path, sel: Selection, manual: set<string>, written: set<Output>, a: string,
    b: string, c: string)
    requires Inv(t0, t, repo, root, sel, manual, written)
             && [a, b] in {["internal", "registrations"], ["pkg", "servicemanager"]}
    ensures NoLinkAbove(t, root + [a, b, c])
  {
    hide Inv, NoLinkAbove, RootOk, IsLink;
    InvRoot(t0, t, repo, root, sel, manual, written);
    var rel := [a, b, c];
    NotLinked(t0, t, repo, root, sel, manual, written, [a]);
    NotLinked(t0, t, repo, root, sel, manual, written, [a, b]);
    forall i | 0 < i <= 2 ensures !IsLink(t, root + rel[..i]) {
      assert rel[..i] == [a] || rel[..i] == [a, b];
    }
    ClearPath(t, root, rel);
  }

  /** A file that is there with the content that the generator gave it in this run. */
  ghost predicate WrittenFile(t: Tree, q: Path, written: set<Output>) {
    q in t && t[q].File? && Output(q, t[q].content) in written
  }

  lemma GroupInPlace(
    t0: Tree, t: Tree, repo: Path, root: Path, sel: Selection, manual: set<string>, written: set<Output>, group: string)
    requires Inv(t0, t, repo, root, sel, manual, written) && group in sel.groups
    ensures Resolve(t, root + ["controllers", group], true) in {None, Some(root + ["controllers", group])}
  {
    hide Inv, NoLinkAbove, RootOk, Resolve, IsLink;
    InvRoot(t0, t, repo, root, sel, manual, written);
    var rel := ["controllers", group];
    NotLinked(t0, t, repo, root, sel, manual, written, ["controllers"]);
    NotLinked(t0, t, repo, root, sel, manual, written, rel);
    assert rel[..1] == ["controllers"] && rel[..2] == rel;
    ClearPath(t, root, rel);
    ResolveInPlace(t, root + rel, true);
  }

  /** There are controller files in a group, and every one of them is the generator's. */
  ghost predicate FreshGroup(t: Tree, root: Path, group: string, written: set<Output>) {
    var dir := root + ["controllers", group];
    && (exists n :: ControllerEntry(t, dir, n))
    && (forall n :: ControllerEntry(t, dir, n) ==> WrittenFile(t, dir + [n], written))
  }

  /** A group reported as a controller package: every file that makes it one was written by the generator. */
  lemma ControllerFresh(
    t0: Tree, t: Tree, repo: Path, root: Path, sel: Selection, manual: set<string>, written: set<Output>, group: string)
    requires Inv(t0, t, repo, root, sel, manual, written) && group in sel.groups && HoldsController(t, root, group)
    ensures FreshGroup(t, root, group, written)
  {
    hide Inv, Resolve, ChildNames, WrittenFile;
    GroupInPlace(t0, t, repo, root, sel, manual, written, group);
    var dir := root + ["controllers", group];
    forall n | ControllerEntry(t, dir, n) ensures WrittenFile(t, dir + [n], written) {
      assert dir + [n] == root + ["controllers", group, n];
      ControllerEntryFresh(t0, t, repo, root, sel, manual, written, group, n);
    }
  }

  lemma ControllerEntryFresh(
    t0: Tree, t: Tree, repo: Path, root: Path, sel: Selection, manual: set<string>, written: set<Output>, group: string,
    n: string)
    requires Inv(t0, t, repo, root, sel, manual, written) && group in sel.groups
    requires root + ["controllers", group, n] in t && !IsDir(t, root + ["controllers", group, n])
             && HasSuffix(n, "_controller.go")
    ensures WrittenFile(t, root + ["controllers", group, n], written)
  {
    hide Inv;
    var rel := ["controllers", group, n];
    if IsLink(t, root + rel) {
      LinkWhere(t0, t, repo, root, sel, manual, written, rel);
    } else {
      FileWhere(t0, t, repo, root, sel, manual, written, rel);
    }
  }

  /** No link in the selected service-manager roots of the checkout leads into the workspace. */
  ghost predicate RootLinksStayOut(t: Tree, repo: Path, root: Path, roots: set<string>) {
    forall r, q :: r in roots && repo + ["pkg", "servicemanager", r] <= q && IsLink(t, q) ==> LooksOutside(t, root, q)
  }

  lemma RegionPkg(sel: Selection, rel: Path)
    requires Region(sel, rel) && rel[0] == "pkg"
    ensures |rel| >= 3 && rel[1] == "servicemanager" && rel[2] in sel.roots
  {
  }

  /** A file of the checkout is found without looking below the workspace root. */
  lemma {:induction false} DirsWalkOutside(t: Tree, root: Path, at: Path, rest: Path, links: nat)
    requires !(root < at + rest) && !IsLink(t, at + rest) && (forall i :: 0 < i < |rest| ==> IsDir(t, at + rest[..i]))
    ensures WalksOutside(t, root, at, rest, links)
    decreases |rest|
  {
    if rest != [] {
      var q := at + [rest[0]];
      assert q == at + rest[..1] && q + rest[1..] == at + rest && q <= at + rest;
      if |rest| == 1 {
        assert q == at + rest;
      } else {
        forall i | 0 < i < |rest[1..]| ensures IsDir(t, q + rest[1..][..i]) {
          assert q + rest[1..][..i] == at + rest[..i + 1];
        }
        DirsWalkOutside(t, root, q, rest[1..], links);
      }
    }
  }

  /** Everything in a selected root is looked up outside the workspace. */
  lemma RootLooksOutside(t: Tree, repo: Path, root: Path, sel: Selection, rel: Path)
    requires Ready(t, repo, root) && RootLinksStayOut(t, repo, root, sel.roots)
    requires Region(sel, rel) && rel[0] == "pkg" && repo + rel in t
    ensures LooksOutside(t, root, repo + rel)
  {
    hide Region, WalksOutside, WellFormed, Direct;
    RegionPkg(sel, rel);
    var q := repo + rel;
    assert repo + ["pkg", "servicemanager", rel[2]] <= q by {
      assert q == repo + ["pkg", "servicemanager", rel[2]] + rel[3..];
    }
    if !IsLink(t, q) {
      WellFormedAbove(t, q);
      SourceApart(repo, root, rel[0], rel[1..]);
      assert repo + [rel[0]] + rel[1..] == q && [] + q == q;
      assert forall i :: 0 < i < |q| ==> [] + q[..i] == q[..i];
      DirsWalkOutside(t, root, [], q, MAX_LINKS);
    }
  }

  /** What a file reads as when its look-up keeps outside. */
  lemma MarkedOutside(t0: Tree, t: Tree, root: Path, p: Path)
    requires SameOutside(root, t0, t) && LooksOutside(t0, root, p) && root != []
    ensures Marked(t, p) <==> Marked(t0, p)
  {
    hide Walk, HasMarker, WalksOutside;
    WalkSame(t0, t, root, [], p, MAX_LINKS);
  }

  /** Reading through one more link finds nothing else. */
  lemma MarkedThroughLink(t: Tree, p: Path)
    requires p != [] && NoLinkAbove(t, p) && IsLink(t, p) && Marked(t, p)
    ensures Marked(t, t[p].target)
  {
    hide Walk, HasMarker;
    var target := t[p].target;
    assert [] + p == p && p + [] == p && target + [] == target;
    assert forall i :: 0 < i < |p| ==> [] + p[..i] == p[..i];
    WalkEnters(t, [], p, [], true, MAX_LINKS);
    WalkMore(t, [], target, true, MAX_LINKS - 1, MAX_LINKS);
  }

  /** One node of the checkout, as far as a look-up is concerned. */
  lemma SourceNode(t0: Tree, t: Tree, repo: Path, root: Path, rel: Path)
    requires Separate(t0, repo, root) && SameOutside(root, t0, t) && rel != [] && rel[0] in SOURCE_DIRS
    requires Direct(t0, repo, rel)
    ensures NoLinkAbove(t, repo + rel) && !IsLink(t, repo + rel) && (repo + rel in t ==> DirsAbove(t, repo + rel))
    ensures (repo + rel in t <==> repo + rel in t0) && (repo + rel in t0 ==> t[repo + rel] == t0[repo + rel])
  {
    hide NoLinkAbove, Separate, Rooted, ChildNames, SameOutside, Direct, DirsAbove;
    var src := repo + rel;
    assert repo + [rel[0]] + rel[1..] == src && [rel[0]] + rel[1..] == rel && src <= src;
    OutsideSource(t0, t, repo, root, rel[0], rel[1..]);
  }

  /** A selected root that is linked as a whole is not a file. */
  lemma ManualUnmarked(t0: Tree, t: Tree, repo: Path, root: Path, sel: Selection, rel: Path)
    requires Ready(t0, repo, root) && SelectionOk(t0, repo, sel) && SameOutside(root, t0, t)
    requires Region(sel, rel) && rel[0] == "pkg" && |rel| == 3
    ensures !Marked(t, repo + rel)
  {
    hide Ready, SelectionOk, SameOutside, Separate, Resolve, NoLinkAbove, DirsAbove, HasMarker;
    ReadyParts(t0, repo, root);
    if repo + rel in t0 {
      SelectedRootIsDir(t0, repo, sel, rel);
    }
    ManagerRootDirect(t0, repo, rel);
    RegionSource(sel, rel);
    SourceNode(t0, t, repo, root, rel);
    ResolveInPlace(t, repo + rel, true);
  }

  lemma ManagerRootDirect(t: Tree, repo: Path, rel: Path)
    requires Direct(t, repo, ["pkg", "servicemanager"]) && |rel| == 3 && rel[0] == "pkg" && rel[1] == "servicemanager"
    requires !IsLink(t, repo + rel)
    ensures Direct(t, repo, rel)
  {
    forall i | 0 < i <= |rel| ensures !IsLink(t, repo + rel[..i]) {
      if i <= 2 {
        assert ["pkg", "servicemanager"][..i] == rel[..i];
      } else {
        assert rel[..i] == rel;
      }
    }
  }

  /** No linked file of a service-manager root carries the marker. */
  lemma LinkedManagerUnmarked(
    t0: Tree, t: Tree, repo: Path, root: Path, sel: Selection, manual: set<string>, written: set<Output>, rel: Path)
    requires Ready(t0, repo, root) && SelectionOk(t0, repo, sel) && RootLinksStayOut(t0, repo, root, sel.roots)
    requires Inv(t0, t, repo, root, sel, manual, written)
    requires Region(sel, rel) && rel[0] == "pkg" && IsLink(t, root + rel) && NoLinkAbove(t, root + rel)
    ensures !Marked(t, root + rel)
  {
    hide Inv, NoLinkAbove, LinkPlace, Marked, Ready, SelectionOk, Region, SameOutside, RootLinksStayOut, LooksOutside;
    InvRoot(t0, t, repo, root, sel, manual, written);
    RegionSource(sel, rel);
    LinkWhere(t0, t, repo, root, sel, manual, written, rel);
    RegionAvoidsLinks(sel, rel, |rel|);
    assert rel[..|rel|] == rel;
    ReadyParts(t0, repo, root);
    if Marked(t, root + rel) {
      MarkedThroughLink(t, root + rel);
      if CompanionPlace(t0, repo, root, sel, rel) {
        RootLooksOutside(t0, repo, root, sel, rel);
        MarkedOutside(t0, t, root, repo + rel);
      } else {
        ManualUnmarked(t0, t, repo, root, sel, rel);
      }
    }
  }

  lemma SelectedRootIsDir(t0: Tree, repo: Path, sel: Selection, rel: Path)
    requires SelectionOk(t0, repo, sel) && Region(sel, rel) && |rel| == 3 && rel[0] == "pkg" && repo + rel in t0
    ensures IsDir(t0, repo + rel)
  {
    assert rel == ["pkg", "servicemanager", rel[2]];
  }

  /** A file that makes its directory a service-manager package was written by the generator. */
  lemma ManagerFresh(
    t0: Tree, t: Tree, repo: Path, root: Path, sel: Selection, manual: set<string>, written: set<Output>, r: string,
    sub: Path)
    requires Ready(t0, repo, root) && SelectionOk(t0, repo, sel) && RootLinksStayOut(t0, repo, root, sel.roots)
    requires WellFormed(t) && Inv(t0, t, repo, root, sel, manual, written)
    requires r in sel.roots && ManagerEntry(t, root, r, sub)
    ensures WrittenFile(t, root + ManagerPath(r, sub), written)
  {
    hide RootLinksStayOut, Inv, NoLinkAbove, Resolve, Marked, Ready, SelectionOk, WellFormed, ManagerFileName;
    var base, rel := ["pkg", "servicemanager", r], ManagerPath(r, sub);
    assert ManagerPath(r, []) == base;
    OutputPathClear(t0, t, repo, root, sel, manual, written, "pkg", "servicemanager", r);
    ResolveInPlace(t, root + base, false);
    assert root + base + sub == root + rel;
    WellFormedAbove(t, root + rel);
    DirsAboveHaveNoLinks(t, root + rel);
    if IsLink(t, root + rel) {
      LinkedManagerUnmarked(t0, t, repo, root, sel, manual, written, rel);
    } else {
      FileWhere(t0, t, repo, root, sel, manual, written, rel);
    }
  }

  /** A registration file that counts as generated was written by the generator. */
  lemma RegistrationFresh(
    t0: Tree, t: Tree, repo: Path, root: Path, sel: Selection, manual: set<string>, written: set<Output>, group: string)
    requires Inv(t0, t, repo, root, sel, manual, written) && Registered(t, root, group) && sel.tool.RuntimeTool?
    ensures WrittenFile(t, root + RegistrationPath(group), written)
  {
    hide Inv, NoLinkAbove, Resolve, HasMarker;
    var rel := RegistrationPath(group);
    TrimAppended(group, "_generated.go");
    OutputPathClear(t0, t, repo, root, sel, manual, written, "internal", "registrations", group + "_generated.go");
    NotLinked(t0, t, repo, root, sel, manual, written, rel);
    ResolveInPlace(t, root + rel, true);
    FileWhere(t0, t, repo, root, sel, manual, written, rel);
  }

  /** At the time of the plan, every controller package reported holds controller files, all of them the
      generator's; so is every selected registration. */
  ghost predicate Fresh(plan: Plan, t: Tree, root: Path, registrations: seq<string>, written: set<Output>) {
    && (forall p :: p in plan.controllers ==> FreshController(p, t, root, written))
    && (forall g :: g in registrations ==> WrittenFile(t, root + RegistrationPath(g), written))
  }

  ghost predicate FreshController(p: string, t: Tree, root: Path, written: set<Output>) {
    exists g :: p == PackageName(["controllers", g]) && FreshGroup(t, root, g, written)
  }

  /** The same for the service-manager packages. */
  ghost predicate FreshManagers(plan: Plan, t: Tree, root: Path, roots: set<string>, written: set<Output>) {
    forall p :: p in plan.managers ==> FreshManager(p, t, root, roots, written)
  }

  /** There are marked service-manager or client files in the package, and every one is the generator's. */
  ghost predicate FreshManager(p: string, t: Tree, root: Path, roots: set<string>, written: set<Output>) {
    && (exists r, sub :: r in roots && ManagerEntry(t, root, r, sub) && p == ManagerPackage(r, sub))
    && (forall r, sub :: r in roots && ManagerEntry(t, root, r, sub) && p == ManagerPackage(r, sub) ==>
          WrittenFile(t, root + ManagerPath(r, sub), written))
  }

  /** What a plan lists: in order, exactly the packages that the detection tests find on the disk `t`. */
  ghost predicate PlanListed(
    plan: Plan, t: Tree, root: Path, groups: seq<string>, registrations: seq<string>, roots: set<string>) {
    && Ordered(Less, plan.controllers) && Increasing(Less, plan.managers)
    && (forall p :: p in plan.controllers <==>
          exists g :: g in groups && HoldsController(t, root, g) && p == PackageName(["controllers", g]))
    && (forall p :: p in plan.managers <==>
          exists r, sub :: r in roots && ManagerEntry(t, root, r, sub) && p == ManagerPackage(r, sub))
    && plan.registrations == if registrations == [] then [] else ["./internal/registrations"]
  }

  /** The names that the plan prints, and the files that the tests look for, in plain text. */
  lemma PlainNames(t: Tree, dir: Path, g: string, r: string, x: string)
    ensures PackageName(["controllers", g]) == "./controllers/" + g
    ensures ManagerPackage(r, [x]) == "./pkg/servicemanager/" + r
    ensures ControllerEntry(t, dir, x) <==> dir + [x] in t && !t[dir + [x]].Dir? && HasSuffix(x, "_controller.go")
    ensures ManagerFileName(x) <==> HasSuffix(x, "_servicemanager.go") || HasSuffix(x, "_serviceclient.go")
    ensures HasMarker(x) <==> Contains(x, "// Code generated by generator. DO NOT EDIT.")
    ensures RegistrationPath(g) == ["internal", "registrations", g + "_generated.go"]
  {
    hide Contains, HasSuffix, Join;
    JoinTwo("controllers", g, '/');
    JoinTwo("servicemanager", r, '/');
    JoinHead("pkg", ["servicemanager", r], '/');
    assert "./" + ("controllers" + ['/'] + g) == "./controllers/" + g;
    assert ManagerPath(r, [x]) == ["pkg", "servicemanager", r, x];
    assert Above(["pkg", "servicemanager", r, x]) == ["pkg"] + ["servicemanager", r];
    assert "./" + ("pkg" + ['/'] + ("servicemanager" + ['/'] + r)) == "./pkg/servicemanager/" + r;
  }

  lemma JoinHead(a: string, rest: seq<string>, sep: char)
    requires rest != []
    ensures Join([a] + rest, sep) == a + [sep] + Join(rest, sep)
  {
    assert ([a] + rest)[1..] == rest;
  }

  lemma PlanControllersFresh(
    t0: Tree, t: Tree, repo: Path, root: Path, sel: Selection, manual: set<string>, written: set<Output>,
    groups: seq<string>, p: string)
    requires Inv(t0, t, repo, root, sel, manual, written) && Elems(groups) <= sel.groups
    requires p in Sort(Less, Reported(t, root, groups))
    ensures FreshController(p, t, root, written)
  {
    hide Inv, HoldsController, Less, Sort, Reported, PackageName, FreshGroup;
    SortPermutes(Less, Reported(t, root, groups));
    PermutationElems(Sort(Less, Reported(t, root, groups)), Reported(t, root, groups));
    ReportedSpec(t, root, groups, p);
    var g :| g in groups && HoldsController(t, root, g) && p == PackageName(["controllers", g]);
    assert g in Elems(groups);
    ControllerFresh(t0, t, repo, root, sel, manual, written, g);
  }

  lemma PlanManagersFresh(
    t0: Tree, t: Tree, repo: Path, root: Path, sel: Selection, manual: set<string>, written: set<Output>,
    roots: seq<string>, p: string)
    requires Ready(t0, repo, root) && SelectionOk(t0, repo, sel) && RootLinksStayOut(t0, repo, root, sel.roots)
    requires WellFormed(t) && Inv(t0, t, repo, root, sel, manual, written)
    requires Elems(roots) == sel.roots && ManagerReported(t, root, roots, p)
    ensures FreshManager(p, t, root, sel.roots, written)
  {
    hide Inv, ManagerPackage, Ready, SelectionOk, WellFormed, ManagerEntry, WrittenFile, RootLinksStayOut;
    assert forall r :: r in roots <==> r in Elems(roots);
    forall r, sub | r in sel.roots && ManagerEntry(t, root, r, sub)
        ensures WrittenFile(t, root + ManagerPath(r, sub), written) {
      ManagerFresh(t0, t, repo, root, sel, manual, written, r, sub);
    }
  }

  /** `collectBuildPlan`: succeeds only with at least one controller and one service-manager package and all
      registrations; then everything in the plan is fresh. */
  method CollectBuildPlan(
    disk: Disk, ghost t0: Tree, ghost repo: Path, root: Path, ghost sel: Selection, ghost manual: set<string>,
    ghost written: set<Output>,
    groups: seq<string>, registrations: seq<string>, roots: seq<string>)
    returns (plan: Plan, ok: bool)
    requires Ready(t0, repo, root) && SelectionOk(t0, repo, sel) && Inv(t0, disk.tree, repo, root, sel, manual, written)
    requires sel.tool.RuntimeTool? && Elems(groups) <= sel.groups && Elems(roots) == sel.roots
    ensures ok <==> && (forall g :: g in groups ==> Stat(disk.tree, root + ["controllers", g]) in {None, Some(Dir)})
                    && (exists g :: g in groups && HoldsController(disk.tree, root, g))
                    && (exists p :: ManagerReported(disk.tree, root, roots, p))
                    && (forall g :: g in registrations ==> Registered(disk.tree, root, g))
    ensures ok ==> PlanListed(plan, disk.tree, root, groups, registrations, sel.roots)
    ensures ok ==> Fresh(plan, disk.tree, root, registrations, written) && plan.controllers != [] && plan.managers != []
    ensures ok && RootLinksStayOut(t0, repo, root, sel.roots) ==>
            FreshManagers(plan, disk.tree, root, sel.roots, written)
  {
    hide Ready, SelectionOk, Inv, WellFormed, HoldsController, Stat, ManagerReported, Registered, Less, Reported,
         PackageName, Sort,
         FreshController, FreshManager, RegistrationPath, RootLinksStayOut, WrittenFile;
    plan, ok := Plan([], [], []), false;
    var controllers, listed := CollectControllerPackages(disk, root, groups);
    if !listed { return; }
    ReportedExactly(disk.tree, root, groups);
    var managers := CollectServiceManagerPackages(disk, root, roots);
    var packages, missing := CollectRegistrationPackages(disk, root, registrations);
    if missing != [] { return; }
    plan := Plan(controllers, managers, packages);
    assert controllers != [] ==> controllers[0] in controllers;
    assert forall g :: g in groups && HoldsController(disk.tree, root, g) ==>
           PackageName(["controllers", g]) in controllers;
    assert managers != [] ==> managers[0] in managers;
    if controllers == [] || managers == [] { return; }
    ok := true;
    SortedReported(disk.tree, root, groups);
    assert PlanListed(plan, disk.tree, root, groups, registrations, sel.roots) by {
      ManagersListed(disk.tree, root, roots, sel.roots);
    }
    forall p | p in controllers ensures FreshController(p, disk.tree, root, written) {
      PlanControllersFresh(t0, disk.tree, repo, root, sel, manual, written, groups, p);
    }
    forall g | g in registrations ensures WrittenFile(disk.tree, root + RegistrationPath(g), written) {
      RegistrationFresh(t0, disk.tree, repo, root, sel, manual, written, g);
    }
    if RootLinksStayOut(t0, repo, root, sel.roots) {
      forall p | p in managers ensures FreshManager(p, disk.tree, root, sel.roots, written) {
        PlanManagersFresh(t0, disk.tree, repo, root, sel, manual, written, roots, p);
      }
    }
  }

  lemma SortedReported(t: Tree, root: Path, groups: seq<string>)
    ensures Ordered(Less, Sort(Less, Reported(t, root, groups)))
  {
    hide Less, Sort, Reported;
    LessIsStrictTotal();
    TotalIsWeak(Less);
    SortOrdered(Less, Reported(t, root, groups));
  }

  lemma ManagersListed(t: Tree, root: Path, listed: seq<string>, roots: set<string>)
    requires Elems(listed) == roots
    ensures forall p :: ManagerReported(t, root, listed, p) <==>
              exists r, sub :: r in roots && ManagerEntry(t, root, r, sub) && p == ManagerPackage(r, sub)
  {
    hide ManagerEntry, ManagerPackage;
    assert forall r :: r in listed <==> r in Elems(listed);
  }

  lemma ReportedExactly(t: Tree, root: Path, groups: seq<string>)
    ensures forall p :: p in Sort(Less, Reported(t, root, groups)) <==>
              exists g :: g in groups && HoldsController(t, root, g) && p == PackageName(["controllers", g])
  {
    hide HoldsController, Less, Sort, Reported, PackageName;
    SortPermutes(Less, Reported(t, root, groups));
    PermutationElems(Sort(Less, Reported(t, root, groups)), Reported(t, root, groups));
    forall p ensures p in Reported(t, root, groups) <==>
      exists g :: g in groups && HoldsController(t, root, g) && p == PackageName(["controllers", g])
    {
      ReportedSpec(t, root, groups, p);
    }
  }
}
