/**
 The runtime check: populate a workspace, let the generator write into it, link checked-in companion
 files, let controller-gen write deepcopy files.
 */
module RuntimeCheck {
  import opened Orders
  import opened Text
  import opened FileSystem
  import opened Snapshot

  // ----- registration files -----

  datatype RegistrationFile = RegistrationFile(group: string, generated: bool)

  function RegistrationGroup(name: string): Option<RegistrationFile>
  {
    if HasSuffix(name, "_generated.go") then Some(RegistrationFile(TrimSuffix(name, "_generated.go"), true))
    else if HasSuffix(name, "_manual.go") then Some(RegistrationFile(TrimSuffix(name, "_manual.go"), false))
    else None
  }

  predicate MatchesSelectedGroup(group: string, selected: set<string>) {
    exists g :: g in selected && (group == g || HasPrefix(group, g + "-"))
  }

  predicate PreservesRegistration(name: string, selected: set<string>) {
    if !HasSuffix(name, ".go") || HasSuffix(name, "_test.go") then true
    else
      match RegistrationGroup(name)
      case None => true
      case Some(file) => MatchesSelectedGroup(file.group, selected) && !file.generated
  }

  /** No generated registration file is ever linked, selected or not. */
  lemma GeneratedRegistrationsNotPreserved(name: string, selected: set<string>)
    requires HasSuffix(name, "_generated.go")
    ensures !PreservesRegistration(name, selected)
  {
    SuffixOfSuffix(name, "_generated.go", ".go");
    SuffixOfSuffix(name, "_generated.go", "d.go");
    assert HasSuffix(name, "_test.go") ==> HasSuffix(name, "t.go") by {
      if HasSuffix(name, "_test.go") {
        SuffixOfSuffix(name, "_test.go", "t.go");
      }
    }
    assert "d.go"[0] == 'd' && "t.go"[0] == 't';
  }

  /** A hand-written registration file of the group, or of a part split off from it. */
  ghost predicate ManualFor(name: string, group: string) {
    name == group + "_manual.go" || exists part :: name == group + "-" + part + "_manual.go"
  }

  lemma ManualEndings(name: string)
    requires HasSuffix(name, "_manual.go")
    ensures HasSuffix(name, ".go") && !HasSuffix(name, "_test.go") && !HasSuffix(name, "_generated.go")
  {
    SuffixOfSuffix(name, "_manual.go", ".go");
    SuffixOfSuffix(name, "_manual.go", "l.go");
    assert "l.go"[0] == 'l' && "t.go"[0] == 't' && "d.go"[0] == 'd';
    if HasSuffix(name, "_test.go") {
      SuffixOfSuffix(name, "_test.go", "t.go");
    }
    if HasSuffix(name, "_generated.go") {
      SuffixOfSuffix(name, "_generated.go", "d.go");
    }
  }

  /** What `_manual.go` follows is the group, alone or with a part. */
  lemma ManualForGroup(name: string, group: string)
    requires HasSuffix(name, "_manual.go")
    ensures ManualFor(name, group)
            <==> var own := TrimSuffix(name, "_manual.go"); own == group || HasPrefix(own, group + "-")
  {
    var own := TrimSuffix(name, "_manual.go");
    assert name == own + "_manual.go";
    if HasPrefix(own, group + "-") {
      var part := own[|group + "-"|..];
      assert own == group + "-" + part;
    }
    forall part | name == group + "-" + part + "_manual.go" ensures HasPrefix(own, group + "-") {
      TrimAppended(group + "-" + part, "_manual.go");
    }
    if name == group + "_manual.go" {
      TrimAppended(group, "_manual.go");
    }
  }

  /** Of the hand-written registration files, exactly those of a selected group or of a part of it are linked. */
  lemma ManualRegistrationsPreserved(name: string, selected: set<string>)
    requires HasSuffix(name, "_manual.go")
    ensures PreservesRegistration(name, selected) <==> exists group :: group in selected && ManualFor(name, group)
  {
    hide HasSuffix, ManualFor;
    ManualEndings(name);
    forall group ensures ManualFor(name, group)
        <==> var own := TrimSuffix(name, "_manual.go"); own == group || HasPrefix(own, group + "-")
    {
      ManualForGroup(name, group);
    }
  }

  /** Whatever is no registration file by its name is linked: the shared code, the tests, and files other than Go. */
  lemma OtherRegistrationsPreserved(name: string, selected: set<string>)
    requires !HasSuffix(name, "_generated.go") && !HasSuffix(name, "_manual.go")
    ensures PreservesRegistration(name, selected)
  {
  }

  // ----- populating -----

  const TOP_ENTRIES := TopNames(RuntimeTool)
  const COPIED := CopiedNames(RuntimeTool)

  function TopLinked(t: Tree, repo: Path): (names: set<string>)
  {
    set n | n in TOP_ENTRIES && repo + [n] in t
  }

  function PreservedRegistrations(t: Tree, repo: Path, selected: set<string>): (names: set<string>)
  {
    set n | n in ChildNames(t, repo + ["internal", "registrations"]) && PreservesRegistration(n, selected)
  }

  /** What the populated workspace holds, entry by entry. */
  ghost function Layout(t: Tree, repo: Path, root: Path, sel: Selection): Pieces
  {
    TopPieces(repo, root, Elems(TOP_ENTRIES), TopLinked(t, repo))[
      "internal" := InternalDirectory(t, repo, root, COPIED,
                                      PreservedRegistrations(t, repo, sel.registrations))][
      "api" := ApiPiece(t, repo, root, sel.groups)][
      "controllers" := ControllersPiece(t, repo, root, sel.groups)][
      "pkg" := PkgPiece(t, repo, root, sel.roots)][
      "config" := WorkPiece(root, "config", "samples")][
      "packages" := map[root + ["packages"] := Dir]]
  }

  ghost predicate Populated(t0: Tree, t: Tree, repo: Path, root: Path, sel: Selection) {
    Progress(t0, t, root, Layout(t0, repo, root, sel))
  }

  predicate SourceComplete(t: Tree, repo: Path) {
    && IsDir(t, repo + ["internal"]) && IsDir(t, repo + ["api"]) && IsDir(t, repo + ["controllers"])
    && IsDir(t, repo + ["pkg"]) && IsDir(t, repo + ["pkg", "servicemanager"])
    && IsDir(t, repo + ["internal", "registrations"])
  }

  ghost function SourcePieces(t: Tree, repo: Path, root: Path, sel: Selection): Pieces
  {
    TopPieces(repo, root, Elems(TOP_ENTRIES), TopLinked(t, repo))[
      "internal" := InternalPiece(t, repo + ["internal"], root + ["internal"], COPIED)][
      "api" := ApiPiece(t, repo, root, sel.groups)][
      "controllers" := ControllersPiece(t, repo, root, sel.groups)][
      "pkg" := PkgPiece(t, repo, root, sel.roots)]
  }

  /** The steps up to and including `pkg`. */
  method PopulateSources(disk: Disk, repo: Path, root: Path, sel: Selection) returns (ok: bool)
    requires Ready(disk.tree, repo, root)
    modifies disk
    ensures SameOutside(root, old(disk.tree), disk.tree)
    ensures ok <==> && IsDir(old(disk.tree), repo + ["internal"]) && IsDir(old(disk.tree), repo + ["api"])
                    && IsDir(old(disk.tree), repo + ["controllers"]) && IsDir(old(disk.tree), repo + ["pkg"])
                    && IsDir(old(disk.tree), repo + ["pkg", "servicemanager"])
    ensures ok ==> Progress(old(disk.tree), disk.tree, root, SourcePieces(old(disk.tree), repo, root, sel))
  {
    hide Ready, Separate, Direct, Progress, TopPieces, InternalPiece, ApiPiece, ControllersPiece, PkgPiece, SameOutside,
         TopLinked, IsDir,
         WellFormed;
    ghost var t0 := disk.tree;
    ReadyParts(t0, repo, root);
    LookUpTop(t0, repo, root);
    ok := LinkTopEntries(disk, repo, root, TOP_ENTRIES, TopLinked(disk.tree, repo));
    ghost var p0 := TopPieces(repo, root, Elems(TOP_ENTRIES), TopLinked(t0, repo));
    TopKeys(repo, root, TopLinked(t0, repo));
    ok := PopulateInternalDirectory(disk, t0, repo, root, p0, COPIED);
    if !ok { return; }
    ghost var p1 := p0["internal" := InternalPiece(t0, repo + ["internal"], root + ["internal"], COPIED)];
    ok := PopulateApi(disk, t0, repo, root, p1, sel.groups);
    if !ok { return; }
    ghost var p2 := p1["api" := ApiPiece(t0, repo, root, sel.groups)];
    ok := PopulateControllers(disk, t0, repo, root, p2, sel.groups);
    if !ok { return; }
    ghost var p3 := p2["controllers" := ControllersPiece(t0, repo, root, sel.groups)];
    ok := PopulatePkg(disk, t0, repo, root, p3, sel.roots);
  }

  /** `populateSnapshot`: fails only on a missing source directory; otherwise the workspace is exactly the layout. */
  method PopulateSnapshot(disk: Disk, repo: Path, root: Path, sel: Selection) returns (ok: bool)
    requires Ready(disk.tree, repo, root)
    modifies disk
    ensures SameOutside(root, old(disk.tree), disk.tree)
    ensures ok <==> SourceComplete(old(disk.tree), repo)
    ensures ok ==> Populated(old(disk.tree), disk.tree, repo, root, sel)
  {
    hide Ready, Separate, Direct, Progress, SourcePieces, InternalDirectory, InternalPiece, WorkPiece, SameOutside,
         PreservesRegistration,
         IsDir, ChildNames, Layout, WellFormed;
    ghost var t0 := disk.tree;
    ReadyParts(t0, repo, root);
    ok := PopulateSources(disk, repo, root, sel);
    if !ok { return; }
    ghost var p4 := SourcePieces(t0, repo, root, sel);
    SourceKeys(t0, repo, root, sel);
    var wanted := n => PreservesRegistration(n, sel.registrations);
    ok := PopulateRegistrations(disk, t0, repo, root, p4, COPIED, wanted);
    if !ok { return; }
    assert RegistrationsLinked(t0, repo, wanted) == PreservedRegistrations(t0, repo, sel.registrations);
    ghost var p5 := p4["internal" :=
        InternalDirectory(t0, repo, root, COPIED, PreservedRegistrations(t0, repo, sel.registrations))];
    ok := MakeOutputDirs(disk, t0, repo, root, p5);
    LayoutAssembled(t0, repo, root, sel);
  }

  lemma SourceKeys(t: Tree, repo: Path, root: Path, sel: Selection)
    ensures var p := SourcePieces(t, repo, root, sel);
            && "internal" in p && p["internal"] == InternalPiece(t, repo + ["internal"], root + ["internal"], COPIED)
            && "config" !in p && "packages" !in p
  {
    hide TopPieces, InternalPiece, ApiPiece, ControllersPiece, PkgPiece, TopLinked;
    TopKeys(repo, root, TopLinked(t, repo));
  }

  lemma TopKeys(repo: Path, root: Path, linked: set<string>)
    ensures TopPieces(repo, root, Elems(TOP_ENTRIES), linked).Keys == {"go.mod", "go.sum", "hack", "vendor", "formal"}
  {
  }

  /** The order in which the steps ran does not show. */
  lemma LayoutAssembled(t: Tree, repo: Path, root: Path, sel: Selection)
    ensures SourcePieces(t, repo, root, sel)[
              "internal" := InternalDirectory(t, repo, root, COPIED,
                  PreservedRegistrations(t, repo, sel.registrations))][
              "config" := WorkPiece(root, "config", "samples")][
              "packages" := map[root + ["packages"] := Dir]]
            == Layout(t, repo, root, sel)
  {
    hide TopPieces, InternalDirectory, InternalPiece, ApiPiece, ControllersPiece, PkgPiece, WorkPiece,
         PreservedRegistrations,
         TopLinked;
  }

  lemma LookUpTop(t: Tree, repo: Path, root: Path)
    requires Ready(t, repo, root)
    ensures forall n :: Lstat(t, repo + [n]).Some? <==> repo + [n] in t
    ensures Distinct(TOP_ENTRIES)
  {
    hide WellFormed;
    forall n ensures Lstat(t, repo + [n]).Some? <==> repo + [n] in t {
      WellFormedAbove(t, repo);
      ChildDirs(t, repo, n);
      DirsAboveHaveNoLinks(t, repo + [n]);
      ResolveInPlace(t, repo + [n], false);
    }
  }

  // ----- what becomes of each entry of the checkout -----

  lemma LayoutDirectories(t0: Tree, t: Tree, repo: Path, root: Path, sel: Selection)
    requires Populated(t0, t, repo, root, sel)
    ensures Exactly(t, root + ["api"], ApiPiece(t0, repo, root, sel.groups))
    ensures Exactly(t, root + ["controllers"], ControllersPiece(t0, repo, root, sel.groups))
    ensures Exactly(t, root + ["pkg"], PkgPiece(t0, repo, root, sel.roots))
  {
    hide Exactly, TopPieces, InternalDirectory, ApiPiece, ControllersPiece, PkgPiece, WorkPiece, PreservedRegistrations,
         TopLinked, Stage;
    var pieces := Layout(t0, repo, root, sel);
    assert pieces["api"] == ApiPiece(t0, repo, root, sel.groups);
    assert pieces["controllers"] == ControllersPiece(t0, repo, root, sel.groups);
    assert pieces["pkg"] == PkgPiece(t0, repo, root, sel.roots);
  }

  /** An entry of `api` is linked, left for the generator when selected, or skipped when not a directory. */
  lemma ApiEntryFate(t0: Tree, t: Tree, repo: Path, root: Path, sel: Selection, n: string)
    requires Populated(t0, t, repo, root, sel) && repo + ["api", n] in t0
    ensures var src, dst := repo + ["api", n], root + ["api", n];
            if IsDir(t0, src) && n !in sel.groups then dst in t && t[dst] == Link(src) else dst !in t
  {
    hide Populated, Exactly, ApiPiece, ControllersPiece, PkgPiece;
    LayoutDirectories(t0, t, repo, root, sel);
    ApiEntry(t0, t, repo, root, sel.groups, n);
  }

  /** An entry of `controllers` is linked unless it is the directory of a selected group. */
  lemma ControllerEntryFate(t0: Tree, t: Tree, repo: Path, root: Path, sel: Selection, n: string)
    requires Populated(t0, t, repo, root, sel) && repo + ["controllers", n] in t0
    ensures var src, dst := repo + ["controllers", n], root + ["controllers", n];
            if IsDir(t0, src) && n in sel.groups then dst !in t else dst in t && t[dst] == Link(src)
  {
    hide Populated, Exactly, ApiPiece, ControllersPiece, PkgPiece;
    LayoutDirectories(t0, t, repo, root, sel);
    ControllersEntry(t0, t, repo, root, sel.groups, n);
  }

  /** An entry of `pkg/servicemanager` is linked unless it is the directory of a selected root. */
  lemma RootEntryFate(t0: Tree, t: Tree, repo: Path, root: Path, sel: Selection, n: string)
    requires Populated(t0, t, repo, root, sel) && repo + ["pkg", "servicemanager", n] in t0
    ensures var src, dst := repo + ["pkg", "servicemanager", n], root + ["pkg", "servicemanager", n];
            if IsDir(t0, src) && n in sel.roots then dst !in t else dst in t && t[dst] == Link(src)
  {
    hide Populated, Exactly, ApiPiece, ControllersPiece, PkgPiece;
    LayoutDirectories(t0, t, repo, root, sel);
    RootEntry(t0, t, repo, root, sel.roots, n);
  }

  /** Every other entry of `pkg` is linked. */
  lemma PkgEntryFate(t0: Tree, t: Tree, repo: Path, root: Path, sel: Selection, n: string)
    requires Populated(t0, t, repo, root, sel) && repo + ["pkg", n] in t0 && n != "servicemanager"
    ensures root + ["pkg", n] in t && t[root + ["pkg", n]] == Link(repo + ["pkg", n])
  {
    hide Populated, Exactly, ApiPiece, ControllersPiece, PkgPiece;
    LayoutDirectories(t0, t, repo, root, sel);
    PkgEntry(t0, t, repo, root, sel.roots, n);
  }

  /** The module files, the scripts, the vendored code and the formal material are linked when there. */
  lemma TopEntryFate(t0: Tree, t: Tree, repo: Path, root: Path, sel: Selection, n: string)
    requires Populated(t0, t, repo, root, sel) && n in {"go.mod", "go.sum", "hack", "vendor", "formal"}
    ensures if repo + [n] in t0 then root + [n] in t && t[root + [n]] == Link(repo + [n]) else root + [n] !in t
  {
    hide Exactly, Stage, InternalDirectory, ApiPiece, ControllersPiece, PkgPiece, WorkPiece, PreservedRegistrations;
    var pieces := Layout(t0, repo, root, sel);
    TopKeys(repo, root, TopLinked(t0, repo));
    assert pieces[n] == if n in TopLinked(t0, repo) then map[root + [n] := Link(repo + [n])] else map[];
    assert Exactly(t, root + [n], pieces[n]);
    ExactlyAt(t, root + [n], pieces[n], root + [n]);
  }

  /** Nothing is made beside these eleven entries; above all not `cmd`, into which the generator writes. */
  lemma OtherTopEntries(t0: Tree, t: Tree, repo: Path, root: Path, sel: Selection, n: string, q: Path)
    requires Populated(t0, t, repo, root, sel) && root + [n] <= q && q !in t0
    requires n !in {"go.mod", "go.sum", "hack", "vendor", "formal", "internal", "api", "controllers", "pkg", "config",
                 "packages"}
    ensures q !in t
  {
    hide TopPieces, InternalDirectory, ApiPiece, ControllersPiece, PkgPiece, WorkPiece, PreservedRegistrations, Placed;
    TopKeys(repo, root, TopLinked(t0, repo));
    assert n !in Layout(t0, repo, root, sel);
    assert q[|root|] == (root + [n])[|root|] == n;
  }

  /** A registration file is linked exactly when it is not generated and, if hand-written for a group, of a selected
      group. */
  lemma RegistrationFate(t0: Tree, t: Tree, repo: Path, root: Path, sel: Selection, n: string)
    requires Populated(t0, t, repo, root, sel) && repo + ["internal", "registrations", n] in t0
    ensures var src, dst := repo + ["internal", "registrations", n], root + ["internal", "registrations", n];
            if HasSuffix(n, "_generated.go") then dst !in t
            else if HasSuffix(n, "_manual.go") && !exists group :: group in sel.registrations && ManualFor(n, group)
              then dst !in t
            else dst in t && t[dst] == Link(src)
  {
    hide HasSuffix, ManualFor, PreservesRegistration, InternalPiece, DirPiece, ChildNames, Layout, Stage, Exactly;
    RegistrationPlaced(t0, t, repo, root, sel, n);
    if HasSuffix(n, "_generated.go") {
      GeneratedRegistrationsNotPreserved(n, sel.registrations);
    } else if HasSuffix(n, "_manual.go") {
      ManualRegistrationsPreserved(n, sel.registrations);
    } else {
      OtherRegistrationsPreserved(n, sel.registrations);
    }
  }

  lemma RegistrationPlaced(t0: Tree, t: Tree, repo: Path, root: Path, sel: Selection, n: string)
    requires Populated(t0, t, repo, root, sel) && repo + ["internal", "registrations", n] in t0
    ensures var src, dst := repo + ["internal", "registrations", n], root + ["internal", "registrations", n];
            if PreservesRegistration(n, sel.registrations) then dst in t && t[dst] == Link(src) else dst !in t
  {
    hide PreservesRegistration, InternalDirectory, Layout, Populated, ChildNames, Exactly;
    var names := PreservedRegistrations(t0, repo, sel.registrations);
    var src, dst := repo + ["internal", "registrations"], root + ["internal", "registrations", n];
    assert src + [n] == repo + ["internal", "registrations", n];
    InternalPlaced(t0, t, repo, root, sel);
    assert root + ["internal"] <= dst;
    ExactlyAt(t, root + ["internal"], InternalDirectory(t0, repo, root, COPIED, names), dst);
    RegistrationEntry(t0, repo, root, COPIED, names, n);
  }

  lemma InternalPlaced(t0: Tree, t: Tree, repo: Path, root: Path, sel: Selection)
    requires Populated(t0, t, repo, root, sel)
    ensures Exactly(t, root + ["internal"],
                    InternalDirectory(t0, repo, root, COPIED, PreservedRegistrations(t0, repo, sel.registrations)))
  {
    hide Exactly, TopPieces, InternalDirectory, ApiPiece, ControllersPiece, PkgPiece, WorkPiece, PreservedRegistrations,
         TopLinked, Stage;
    assert Layout(t0, repo, root, sel)["internal"]
           == InternalDirectory(t0, repo, root, COPIED, PreservedRegistrations(t0, repo, sel.registrations));
  }

  /** Of `internal`, the generator is copied node for node, `registrations` is made anew, and the rest is linked. */
  lemma InternalEntryFate(t0: Tree, t: Tree, repo: Path, root: Path, sel: Selection, n: string, rest: Path)
    requires Populated(t0, t, repo, root, sel) && repo + ["internal", n] in t0
    ensures var src, dst := repo + ["internal", n], root + ["internal", n];
            if n == "generator"
              then (dst + rest in t <==> src + rest in t0) && (src + rest in t0 ==> t[dst + rest] == t0[src + rest])
            else dst in t && t[dst] == if n == "registrations" then Dir else Link(src)
  {
    hide InternalDirectory, Layout, Populated, PreservedRegistrations, Exactly;
    var names := PreservedRegistrations(t0, repo, sel.registrations);
    var dst := root + ["internal", n];
    InternalPlaced(t0, t, repo, root, sel);
    assert root + ["internal"] <= dst && root + ["internal"] <= dst + rest;
    ExactlyAt(t, root + ["internal"], InternalDirectory(t0, repo, root, COPIED, names), dst);
    ExactlyAt(t, root + ["internal"], InternalDirectory(t0, repo, root, COPIED, names), dst + rest);
    RegistrationsEntry(t0, repo, root, COPIED, names);
    if n != "registrations" {
      InternalEntry(t0, repo, root, COPIED, names, n, rest);
    }
  }
}
