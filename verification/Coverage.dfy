/**
 The coverage tool's workspace.  It differs from the runtime check in what is linked: `cmd` and the
 registrations of other groups are links, and the validator is copied because its registries are rewritten.
 */
module Coverage {
  import opened Orders
  import opened Text
  import opened FileSystem
  import opened Snapshot
  import opened Isolation
  import opened Workspace
  import opened Doorways

  // ----- populating -----

  predicate SkipsRegistration(name: string, groups: set<string>) {
    HasSuffix(name, ".go") && HasSuffix(name, "_generated.go") && TrimSuffix(name, "_generated.go") in groups
  }

  function KeptRegistrations(t: Tree, repo: Path, groups: set<string>): (names: set<string>)
  {
    set n | n in ChildNames(t, repo + ["internal", "registrations"]) && !SkipsRegistration(n, groups)
  }

  /** Five entries are linked whether or not they exist, two only when present. */
  function CoverageLinked(t: Tree, repo: Path): (names: set<string>)
  {
    {"go.mod", "go.sum", "cmd", "hack", "validator_allowlist.yaml"}
      + (set n | n in {"vendor", "formal"} && repo + [n] in t)
  }

  ghost function CoverageTop(t: Tree, repo: Path, root: Path): Pieces
  {
    TopPieces(repo, root, Elems(TopNames(CoverageTool)), CoverageLinked(t, repo))
  }

  ghost function CoverageInternal(t: Tree, repo: Path, root: Path, sel: Selection): map<Path, Node>
  {
    InternalDirectory(t, repo, root, CopiedNames(CoverageTool), KeptRegistrations(t, repo, sel.groups))
  }

  /** What the populated workspace holds, entry by entry. */
  ghost function CoverageLayout(t: Tree, repo: Path, root: Path, sel: Selection): Pieces
  {
    CoverageTop(t, repo, root)[
      "config" := WorkPiece(root, "config", "samples")][
      "packages" := map[root + ["packages"] := Dir]][
      "internal" := CoverageInternal(t, repo, root, sel)][
      "api" := ApiPiece(t, repo, root, sel.groups)][
      "controllers" := ControllersPiece(t, repo, root, sel.groups)][
      "pkg" := PkgPiece(t, repo, root, sel.roots)]
  }

  ghost predicate CoveragePopulated(t0: Tree, t: Tree, repo: Path, root: Path, sel: Selection) {
    Progress(t0, t, root, CoverageLayout(t0, repo, root, sel))
  }

  predicate CoverageSources(t: Tree, repo: Path) {
    && IsDir(t, repo + ["internal"]) && IsDir(t, repo + ["internal", "registrations"]) && IsDir(t, repo + ["api"])
    && IsDir(t, repo + ["controllers"]) && IsDir(t, repo + ["pkg"]) && IsDir(t, repo + ["pkg", "servicemanager"])
  }

  lemma CoverageTopKeys(t: Tree, repo: Path, root: Path)
    ensures CoverageTop(t, repo, root).Keys == Elems(TopNames(CoverageTool))
    ensures forall n :: n in SOURCE_DIRS || n in {"config", "packages"} ==> n !in CoverageTop(t, repo, root)
  {
  }

  /** The steps up to and including `internal`. */
  method PopulateCoverageInternal(
    disk: Disk, repo: Path, root: Path, sel: Selection, ghost before: Pieces) returns (ok: bool)
    requires Separate(disk.tree, repo, root) && Direct(disk.tree, repo, ["internal", "registrations"])
    requires before == CoverageTop(disk.tree, repo, root)["config" := WorkPiece(root, "config", "samples")][
                         "packages" := map[root + ["packages"] := Dir]]
    modifies disk
    ensures SameOutside(root, old(disk.tree), disk.tree)
    ensures ok <==>
            IsDir(old(disk.tree), repo + ["internal"]) && IsDir(old(disk.tree), repo + ["internal", "registrations"])
    ensures ok ==> Progress(old(disk.tree), disk.tree, root,
            before["internal" := CoverageInternal(old(disk.tree), repo, root, sel)])
  {
    hide Ready, Separate, Direct, Progress, TopPieces, InternalPiece, InternalDirectory, SameOutside, IsDir, WellFormed,
         ChildNames,
         CoverageLinked, SkipsRegistration, WorkPiece;
    ghost var t0 := disk.tree;
    assert ["internal"] + ["registrations"] == ["internal", "registrations"];
    DirectAbove(t0, repo, ["internal"], ["registrations"]);
    CoverageTopKeys(t0, repo, root);
    var linked := CoverageLinked(disk.tree, repo);
    ok := LinkTopEntries(disk, repo, root, TopNames(CoverageTool), linked);
    ok := MakeOutputDirs(disk, t0, repo, root, CoverageTop(t0, repo, root));
    var copied := CopiedNames(CoverageTool);
    ok := PopulateInternalDirectory(disk, t0, repo, root, before, copied);
    if !ok { return; }
    ghost var after := before["internal" := InternalPiece(t0, repo + ["internal"], root + ["internal"], copied)];
    var wanted := n => !SkipsRegistration(n, sel.groups);
    ok := PopulateRegistrations(disk, t0, repo, root, after, copied, wanted);
    assert RegistrationsLinked(t0, repo, wanted) == KeptRegistrations(t0, repo, sel.groups);
    ghost var internal := CoverageInternal(t0, repo, root, sel);
    assert after["internal" := internal] == before["internal" := internal];
  }

  /** `populateSnapshot`: fails only on a missing source directory; otherwise the workspace is exactly the layout. */
  method PopulateCoverage(disk: Disk, repo: Path, root: Path, sel: Selection) returns (ok: bool)
    requires Ready(disk.tree, repo, root)
    modifies disk
    ensures SameOutside(root, old(disk.tree), disk.tree)
    ensures ok <==> CoverageSources(old(disk.tree), repo)
    ensures ok ==> CoveragePopulated(old(disk.tree), disk.tree, repo, root, sel)
  {
    hide Ready, Separate, Direct, Progress, ApiPiece, ControllersPiece, PkgPiece, SameOutside, IsDir, WellFormed,
         CoverageTop,
         CoverageInternal, WorkPiece;
    ghost var t0 := disk.tree;
    ReadyParts(t0, repo, root);
    CoverageTopKeys(t0, repo, root);
    ghost var p0 := CoverageTop(t0, repo, root)["config" := WorkPiece(root, "config", "samples")][
                      "packages" := map[root + ["packages"] := Dir]];
    ok := PopulateCoverageInternal(disk, repo, root, sel, p0);
    if !ok { return; }
    ghost var p1 := p0["internal" := CoverageInternal(t0, repo, root, sel)];
    ok := PopulateApi(disk, t0, repo, root, p1, sel.groups);
    if !ok { return; }
    ghost var p2 := p1["api" := ApiPiece(t0, repo, root, sel.groups)];
    ok := PopulateControllers(disk, t0, repo, root, p2, sel.groups);
    if !ok { return; }
    ghost var p3 := p2["controllers" := ControllersPiece(t0, repo, root, sel.groups)];
    ok := PopulatePkg(disk, t0, repo, root, p3, sel.roots);
  }

  // ----- where the links are -----

  lemma CoverageExpectedAt(t0: Tree, t: Tree, repo: Path, root: Path, sel: Selection, rel: Path)
    requires Ready(t0, repo, root) && SelectionOk(t0, repo, sel) && CoveragePopulated(t0, t, repo, root, sel)
             && sel.tool.CoverageTool?
    requires rel != [] && root + rel in t
    ensures Expected(sel, rel, t[root + rel])
  {
    hide Ready, Progress, SelectionOk, TopPieces, InternalDirectory, ApiPiece, ControllersPiece, PkgPiece, Expected,
         CoverageLinked;
    PlacedNode(t0, t, repo, root, CoverageLayout(t0, repo, root, sel), rel);
    CoverageTopKeys(t0, repo, root);
    if rel[0] == "internal" {
      InternalExpected(t0, repo, root, sel, KeptRegistrations(t0, repo, sel.groups), rel);
    } else if rel[0] == "api" {
      ApiExpected(t0, repo, root, sel, rel);
    } else if rel[0] == "controllers" {
      ControllersExpected(t0, repo, root, sel, rel);
    } else if rel[0] == "pkg" {
      PkgExpected(t0, repo, root, sel, rel);
    } else if rel[0] == "config" || rel[0] == "packages" {
      WorkExpected(sel, rel, t[root + rel]);
    } else {
      TopExpected(repo, root, sel, CoverageLinked(t0, repo), rel);
    }
  }

  lemma CoverageExpected(t0: Tree, t: Tree, repo: Path, root: Path, sel: Selection)
    requires Ready(t0, repo, root) && SelectionOk(t0, repo, sel) && CoveragePopulated(t0, t, repo, root, sel)
             && sel.tool.CoverageTool?
    ensures Laid(t, root, sel)
  {
    hide Ready, CoveragePopulated, SelectionOk, Expected;
    forall q | q in t && root < q ensures Expected(sel, Rel(root, q), t[q]) {
      assert root + Rel(root, q) == q;
      CoverageExpectedAt(t0, t, repo, root, sel, Rel(root, q));
    }
  }

  // ----- what becomes of each entry of the checkout -----

  lemma CoverageDirectories(t0: Tree, t: Tree, repo: Path, root: Path, sel: Selection)
    requires CoveragePopulated(t0, t, repo, root, sel)
    ensures Exactly(t, root + ["api"], ApiPiece(t0, repo, root, sel.groups))
    ensures Exactly(t, root + ["controllers"], ControllersPiece(t0, repo, root, sel.groups))
    ensures Exactly(t, root + ["pkg"], PkgPiece(t0, repo, root, sel.roots))
    ensures Exactly(t, root + ["internal"], CoverageInternal(t0, repo, root, sel))
  {
    hide Exactly, CoverageTop, CoverageInternal, ApiPiece, ControllersPiece, PkgPiece, WorkPiece, Stage;
    var pieces := CoverageLayout(t0, repo, root, sel);
    assert pieces["api"] == ApiPiece(t0, repo, root, sel.groups);
    assert pieces["controllers"] == ControllersPiece(t0, repo, root, sel.groups);
    assert pieces["pkg"] == PkgPiece(t0, repo, root, sel.roots);
    assert pieces["internal"] == CoverageInternal(t0, repo, root, sel);
  }

  /** The entries of `api`, `controllers`, `pkg/servicemanager` and `pkg` fare as in the runtime check. */
  lemma CoverageSourceFate(t0: Tree, t: Tree, repo: Path, root: Path, sel: Selection, n: string)
    requires CoveragePopulated(t0, t, repo, root, sel)
    ensures repo + ["api", n] in t0 ==>
              var src, dst := repo + ["api", n], root + ["api", n];
              if IsDir(t0, src) && n !in sel.groups then dst in t && t[dst] == Link(src) else dst !in t
    ensures repo + ["controllers", n] in t0 ==>
              var src, dst := repo + ["controllers", n], root + ["controllers", n];
              if IsDir(t0, src) && n in sel.groups then dst !in t else dst in t && t[dst] == Link(src)
    ensures repo + ["pkg", "servicemanager", n] in t0 ==>
              var src, dst := repo + ["pkg", "servicemanager", n], root + ["pkg", "servicemanager", n];
              if IsDir(t0, src) && n in sel.roots then dst !in t else dst in t && t[dst] == Link(src)
    ensures repo + ["pkg", n] in t0 && n != "servicemanager" ==>
              root + ["pkg", n] in t && t[root + ["pkg", n]] == Link(repo + ["pkg", n])
  {
    hide CoveragePopulated, Exactly, ApiPiece, ControllersPiece, PkgPiece, IsDir;
    CoverageDirectories(t0, t, repo, root, sel);
    if repo + ["api", n] in t0 { ApiEntry(t0, t, repo, root, sel.groups, n); }
    if repo + ["controllers", n] in t0 { ControllersEntry(t0, t, repo, root, sel.groups, n); }
    if repo + ["pkg", "servicemanager", n] in t0 { RootEntry(t0, t, repo, root, sel.roots, n); }
    if repo + ["pkg", n] in t0 && n != "servicemanager" { PkgEntry(t0, t, repo, root, sel.roots, n); }
  }

  /** Five entries are linked whether or not the checkout has them, two only when it does. */
  lemma CoverageTopFate(t0: Tree, t: Tree, repo: Path, root: Path, sel: Selection, n: string)
    requires CoveragePopulated(t0, t, repo, root, sel)
    ensures n in {"go.mod", "go.sum", "cmd", "hack", "validator_allowlist.yaml"} ==>
              root + [n] in t && t[root + [n]] == Link(repo + [n])
    ensures n in {"vendor", "formal"} ==>
              if repo + [n] in t0 then root + [n] in t && t[root + [n]] == Link(repo + [n]) else root + [n] !in t
  {
    hide CoveragePopulated, Exactly;
    if n in {"go.mod", "go.sum", "cmd", "hack", "validator_allowlist.yaml", "vendor", "formal"} {
      var piece := if n in CoverageLinked(t0, repo) then map[root + [n] := Link(repo + [n])] else map[];
      CoverageTopPlaced(t0, t, repo, root, sel, n);
      ExactlyAt(t, root + [n], piece, root + [n]);
    }
  }

  lemma CoverageTopPlaced(t0: Tree, t: Tree, repo: Path, root: Path, sel: Selection, n: string)
    requires CoveragePopulated(t0, t, repo, root, sel)
    requires n in {"go.mod", "go.sum", "cmd", "hack", "validator_allowlist.yaml", "vendor", "formal"}
    ensures Exactly(t, root + [n], if n in CoverageLinked(t0, repo) then map[root + [n] := Link(repo + [n])] else map[])
  {
    hide Exactly, Stage, CoverageInternal, CoverageLinked, CoverageTop, ApiPiece, ControllersPiece, PkgPiece, WorkPiece;
    var pieces := CoverageLayout(t0, repo, root, sel);
    CoverageTopPiece(t0, repo, root, n);
    assert pieces[n] == CoverageTop(t0, repo, root)[n];
  }

  lemma CoverageTopPiece(t: Tree, repo: Path, root: Path, n: string)
    requires n in {"go.mod", "go.sum", "cmd", "hack", "validator_allowlist.yaml", "vendor", "formal"}
    ensures var top := CoverageTop(t, repo, root);
            n in top && top[n] == if n in CoverageLinked(t, repo) then map[root + [n] := Link(repo + [n])] else map[]
  {
    hide CoverageLinked;
  }

  /** Of `internal`, the generator and the validator are copied node for node, `registrations` is made anew, and the
      rest is linked; of `registrations`, everything is linked but the generated files of the selected groups. */
  lemma CoverageInternalFate(t0: Tree, t: Tree, repo: Path, root: Path, sel: Selection, n: string, rest: Path)
    requires CoveragePopulated(t0, t, repo, root, sel)
    ensures repo + ["internal", n] in t0 ==>
              var src, dst := repo + ["internal", n], root + ["internal", n];
              if n in {"generator", "validator"}
                then (dst + rest in t <==> src + rest in t0) && (src + rest in t0 ==> t[dst + rest] == t0[src + rest])
              else dst in t && t[dst] == if n == "registrations" then Dir else Link(src)
    ensures repo + ["internal", "registrations", n] in t0 ==>
              var src, dst := repo + ["internal", "registrations", n], root + ["internal", "registrations", n];
              if exists group :: group in sel.groups && n == group + "_generated.go" then dst !in t
              else dst in t && t[dst] == Link(src)
  {
    hide CoveragePopulated, Exactly, ApiPiece, ControllersPiece, PkgPiece, InternalDirectory, ChildNames,
         SkipsRegistration;
    CoverageDirectories(t0, t, repo, root, sel);
    var copied, names := CopiedNames(CoverageTool), KeptRegistrations(t0, repo, sel.groups);
    var base, piece := root + ["internal"], CoverageInternal(t0, repo, root, sel);
    var dst := root + ["internal", n];
    assert base <= dst && base <= dst + rest && base <= root + ["internal", "registrations", n];
    ExactlyAt(t, base, piece, dst);
    ExactlyAt(t, base, piece, dst + rest);
    ExactlyAt(t, base, piece, root + ["internal", "registrations", n]);
    RegistrationsEntry(t0, repo, root, copied, names);
    RegistrationEntry(t0, repo, root, copied, names, n);
    SkippedRegistration(n, sel.groups);
    assert repo + ["internal", "registrations"] + [n] == repo + ["internal", "registrations", n];
    if repo + ["internal", n] in t0 && n != "registrations" {
      InternalEntry(t0, repo, root, copied, names, n, rest);
    }
  }

  lemma SkippedRegistration(n: string, groups: set<string>)
    ensures SkipsRegistration(n, groups) <==> exists group :: group in groups && n == group + "_generated.go"
  {
    hide HasSuffix;
    forall group | n == group + "_generated.go"
      ensures HasSuffix(n, "_generated.go") && TrimSuffix(n, "_generated.go") == group
    {
      TrimAppended(group, "_generated.go");
    }
    if HasSuffix(n, "_generated.go") {
      SuffixOfSuffix(n, "_generated.go", ".go") by { GeneratedIsGo(); }
      TrimmedSuffix(n, "_generated.go");
    }
  }

  lemma GeneratedIsGo()
    ensures HasSuffix("_generated.go", ".go")
  {
  }

  lemma TrimmedSuffix(s: string, suffix: string)
    requires HasSuffix(s, suffix)
    ensures s == TrimSuffix(s, suffix) + suffix
  {
  }

  // ----- the outputs behind links -----

  /** The commands directory of the checkout: real, without links, and without the workspace. */
  ghost predicate CommandsPlain(t: Tree, repo: Path, root: Path) {
    && IsDir(t, repo + ["cmd"]) && !(repo + ["cmd"] <= root)
    && forall q :: repo + ["cmd"] <= q ==> !IsLink(t, q)
  }

  lemma CommandsOutside(t: Tree, repo: Path, root: Path, q: Path)
    requires Ready(t, repo, root) && CommandsPlain(t, repo, root) && repo + ["cmd"] <= q
    ensures !(root < q)
  {
    hide WellFormed;
    if root < q {
      Comparable(root, repo + ["cmd"], q);
      PrefixOfChild(root, repo, "cmd");
    }
  }

  lemma CommandsLinked(t0: Tree, t: Tree, repo: Path, root: Path, sel: Selection)
    requires CoveragePopulated(t0, t, repo, root, sel)
    ensures root + ["cmd"] in t && t[root + ["cmd"]] == Link(repo + ["cmd"])
  {
    hide CoveragePopulated;
    CoverageTopFate(t0, t, repo, root, sel, "cmd");
  }

  lemma CommandsDoorway(t0: Tree, t: Tree, repo: Path, root: Path, sel: Selection)
    requires Ready(t0, repo, root) && WellFormed(t) && CoveragePopulated(t0, t, repo, root, sel)
             && SameOutside(root, t0, t)
    requires CommandsPlain(t0, repo, root)
    ensures Doorway(t, root + ["cmd"], repo + ["cmd"])
  {
    hide WellFormed, CoveragePopulated, Ready;
    var door, target := root + ["cmd"], repo + ["cmd"];
    CommandsLinked(t0, t, repo, root, sel);
    CommandsOutside(t0, repo, root, target);
    WellFormedAbove(t, door);
    WellFormedAbove(t, target);
    forall q | target <= q ensures !IsLink(t, q) {
      assert !IsLink(t0, q);
      CommandsOutside(t0, repo, root, q);
    }
  }

  lemma RunTwo(t: Tree, root: Path, a: ToolOp, b: ToolOp)
    ensures Run(t, root, [a, b]) ==
            (if Apply(t, root, a).ok then Apply(Apply(t, root, a).tree, root, b) else Apply(t, root, a))
  {
    hide Apply;
    assert [a, b][1..] == [b] && [b][1..] == [];
    var t' := Apply(t, root, a).tree;
    assert Run(t', root, [b]) == Apply(t', root, b);
  }

  /** The generator's manager output goes to `cmd/manager/<name>/main.go`, which is behind the link: unless
      something is in the way it is written in the checkout, and the checkout is unchanged exactly when something
      is in the way or the checkout already held that content. */
  lemma ManagerOutputEscapes(t0: Tree, t: Tree, repo: Path, root: Path, sel: Selection, name: string, content: string)
    requires Ready(t0, repo, root) && WellFormed(t) && CoveragePopulated(t0, t, repo, root, sel)
             && SameOutside(root, t0, t)
    requires CommandsPlain(t0, repo, root)
    ensures var dir := ["cmd", "manager", name];
            var r := Run(t, root, [MakeDirsOp(dir), WriteOp(dir + ["main.go"], content)]);
            var m, d, q := repo + ["cmd", "manager"], repo + dir, repo + dir + ["main.go"];
            && (r.ok <==> !Blocked(t0, m, d, q))
            && (r.ok ==> q in r.tree && r.tree[q] == File(content))
            && (SameOutside(root, t, r.tree) <==> Blocked(t0, m, d, q) || (q in t0 && t0[q] == File(content)))
  {
    hide WellFormed, CoveragePopulated, Doorway, MkdirAll, WriteFile, Ready, CommandsPlain;
    CommandsDoorway(t0, t, repo, root, sel);
    var dir := ["cmd", "manager", name];
    var door, target := root + ["cmd"], repo + ["cmd"];
    var m, d, q := repo + ["cmd", "manager"], repo + dir, repo + dir + ["main.go"];
    assert target + ["manager"] == m && target + ["manager"] + [name] == d && d + ["main.go"] == q;
    assert door + ["manager", name] == root + dir && door + ["manager", name, "main.go"] == root + (dir + ["main.go"]);
    forall sub ensures !(root < target + sub) {
      CommandsOutside(t0, repo, root, target + sub);
    }
    assert target + ["manager"] + [] == m && target + ["manager", name] == d
           && target + ["manager", name, "main.go"] == q;
    OutputBelowDoorway(t, root, door, target, "manager", name, "main.go", content);
    RunTwo(t, root, MakeDirsOp(dir), WriteOp(dir + ["main.go"], content));
  }

  /** The generator's cleanup of a stale manager output removes the file from the checkout. */
  lemma ManagerCleanupEscapes(t0: Tree, t: Tree, repo: Path, root: Path, sel: Selection, name: string)
    requires Ready(t0, repo, root) && WellFormed(t) && CoveragePopulated(t0, t, repo, root, sel)
             && SameOutside(root, t0, t)
    requires CommandsPlain(t0, repo, root)
    ensures var rel := ["cmd", "manager", name, "main.go"];
            SameOutside(root, t, Remove(t, root + rel).tree) <==> repo + rel !in t || HasChildren(t, repo + rel)
  {
    hide WellFormed, CoveragePopulated, Doorway, Remove, Ready, HasChildren;
    CommandsDoorway(t0, t, repo, root, sel);
    var rel, tail := ["cmd", "manager", name, "main.go"], ["manager", name, "main.go"];
    assert repo + ["cmd"] + tail == repo + rel && root + ["cmd"] + tail == root + rel;
    CommandsOutside(t0, repo, root, repo + rel);
    RemoveBelowDoorway(t, root, root + ["cmd"], repo + ["cmd"], tail);
  }

  lemma RegistrationNode(t0: Tree, t: Tree, repo: Path, root: Path, sel: Selection, name: string)
    requires CoveragePopulated(t0, t, repo, root, sel)
    ensures var rel := ["internal", "registrations", name];
            if name in KeptRegistrations(t0, repo, sel.groups) then root + rel in t && t[root + rel] == Link(repo + rel)
            else root + rel !in t
    ensures IsDir(t, root + ["internal"]) && IsDir(t, root + ["internal", "registrations"])
  {
    hide Stage, DirPiece, InternalPiece, TopPieces, WorkPiece, ApiPiece, ControllersPiece, PkgPiece, KeptRegistrations,
         ChildNames;
    var rel := ["internal", "registrations", name];
    var regs := KeptRegistrations(t0, repo, sel.groups);
    var outer, inner := root + ["internal"], root + ["internal", "registrations"];
    assert Exactly(t, outer, CoverageInternal(t0, repo, root, sel));
    assert inner[..|outer|] == outer && (root + rel)[..|outer|] == outer;
    RegistrationPiece(t0, repo, root, CopiedNames(CoverageTool), regs, name);
  }

  lemma RegistrationPiece(t: Tree, repo: Path, root: Path, copied: set<string>, regs: set<string>, name: string)
    requires "registrations" !in copied
    ensures var rel := ["internal", "registrations", name];
            var piece := InternalDirectory(t, repo, root, copied, regs);
            && (root + rel in piece <==> name in regs) && (name in regs ==> piece[root + rel] == Link(repo + rel))
            && root + ["internal"] in piece && piece[root + ["internal"]] == Dir
            && root + ["internal", "registrations"] in piece && piece[root + ["internal", "registrations"]] == Dir
  {
    hide DirPiece, InternalPiece, ChildNames;
    var rel := ["internal", "registrations", name];
    var src, dst := repo + ["internal", "registrations"], root + ["internal", "registrations"];
    assert root + rel == dst + [name] && repo + rel == src + [name];
    assert dst == root + ["internal"] + ["registrations"];
    DirPieceAt(src, dst, regs, root + rel);
    DirPieceAt(src, dst, regs, dst);
    DirPieceAt(src, dst, regs, root + ["internal"]);
    InternalPieceAt(t, repo + ["internal"], root + ["internal"], copied, root + ["internal"]);
    InternalPieceAt(t, repo + ["internal"], root + ["internal"], copied, root + rel);
    assert (root + rel)[|root + ["internal"]|] == "registrations";
  }

  /** The checkout has a registration file of this name, not named after a selected group, with other content. */
  predicate OtherRegistration(t: Tree, repo: Path, sel: Selection, name: string, content: string) {
    var q := repo + ["internal", "registrations", name];
    q in t && t[q].File? && t[q].content != content && !SkipsRegistration(name, sel.groups)
  }

  /** A registration file, after populating: exactly when is the checkout unchanged by writing it? */
  lemma RegistrationWriteEscapes(
    t0: Tree, t: Tree, repo: Path, root: Path, sel: Selection, name: string, content: string)
    requires Ready(t0, repo, root) && WellFormed(t) && CoveragePopulated(t0, t, repo, root, sel)
             && SameOutside(root, t0, t)
    requires !IsLink(t0, repo + ["internal", "registrations", name])
    ensures var rel := ["internal", "registrations", name];
            SameOutside(root, t, WriteFile(t, root + rel, content).tree) <==>
                !OtherRegistration(t0, repo, sel, name, content)
  {
    hide WellFormed, CoveragePopulated, Ready, Separate, Direct, Resolve, KeptRegistrations, SkipsRegistration,
         NoLinkAbove, DirsAbove, Rooted,
         ChildNames, SameOutside;
    var rel := ["internal", "registrations", name];
    RegistrationNode(t0, t, repo, root, sel, name);
    KeptExists(t0, repo, sel, name);
    assert repo + ["internal"] + ["registrations", name] == repo + rel;
    ReadyParts(t0, repo, root);
    assert ["internal"] + ["registrations", name] == ["internal", "registrations"] + [name] == rel;
    DirectChild(t0, repo, ["internal", "registrations"], name);
    OutsideSource(t0, t, repo, root, "internal", ["registrations", name]);
    if name in KeptRegistrations(t0, repo, sel.groups) {
      assert repo + rel <= repo + rel;
      WellFormedAbove(t, root + rel);
      DirsAboveHaveNoLinks(t, root + rel);
      LinkedFileResolves(t, root + rel, repo + rel);
      PutOutside(t, root, repo + rel, content);
      SameOutsideRefl(root, t);
    } else {
      WellFormedAbove(t, root + ["internal", "registrations"]);
      ChildDirs(t, root + ["internal", "registrations"], name);
      assert root + ["internal", "registrations"] + [name] == root + rel;
      DirsAboveHaveNoLinks(t, root + rel);
      WriteInPlace(t, root + rel, content);
      PutInside(t, root, root + rel, content);
    }
  }

  lemma DirectChild(t: Tree, repo: Path, rel: Path, n: string)
    requires Direct(t, repo, rel) && !IsLink(t, repo + (rel + [n]))
    ensures Direct(t, repo, rel + [n])
  {
    forall i | 0 < i <= |rel + [n]| ensures !IsLink(t, repo + (rel + [n])[..i]) {
      if i <= |rel| {
        assert (rel + [n])[..i] == rel[..i];
      } else {
        assert (rel + [n])[..i] == rel + [n];
      }
    }
  }

  lemma KeptExists(t: Tree, repo: Path, sel: Selection, name: string)
    ensures name in KeptRegistrations(t, repo, sel.groups) <==>
            repo + ["internal", "registrations", name] in t && !SkipsRegistration(name, sel.groups)
  {
    hide ChildNames, SkipsRegistration;
    assert repo + ["internal", "registrations"] + [name] == repo + ["internal", "registrations", name];
  }

  lemma LinkedFileResolves(t: Tree, door: Path, target: Path)
    requires door != [] && door in t && t[door] == Link(target) && DirsAbove(t, door)
    requires target in t && DirsAbove(t, target) && !IsLink(t, target)
    ensures Resolve(t, door, true) == Some(target)
  {
    hide Walk;
    assert [] + door == door && door + [] == door && target + [] == target && [] + target == target;
    forall i | 0 < i < |door| ensures IsDir(t, [] + door[..i]) {
      assert [] + door[..i] == door[..i];
    }
    forall i | 0 < i < |target| ensures IsDir(t, [] + target[..i]) {
      assert [] + target[..i] == target[..i];
    }
    WalkEnters(t, [], door, [], true, MAX_LINKS);
    WalkInPlace(t, [], target, true, MAX_LINKS - 1);
  }

  lemma PutOutside(t: Tree, root: Path, q: Path, content: string)
    requires q in t && !(root < q)
    ensures SameOutside(root, t, t[q := File(content)]) <==> t[q] == File(content)
  {
    if t[q] == File(content) {
      assert t[q := File(content)] == t;
    }
  }

  lemma PutInside(t: Tree, root: Path, p: Path, content: string)
    requires root < p
    ensures SameOutside(root, t, t[p := File(content)]) && SameOutside(root, t, t)
  {
  }
}
