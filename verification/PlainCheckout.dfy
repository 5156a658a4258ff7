/**
 A small checkout on which the assumptions of both tools hold, and on which the coverage tool's escape happens.
 */
module PlainCheckout {
  import opened Orders
  import opened Text
  import opened FileSystem
  import opened Snapshot
  import opened Isolation
  import opened RuntimeCheck
  import opened Workspace
  import opened BuildPlan
  import opened RuntimeRun
  import opened Doorways
  import opened Coverage
  import opened CoverageRun

  function PlainDirs(): set<Path>
  {
    {[], ["tmp"], ["src"], ["src", "cmd"], ["src", "internal"], ["src", "internal", "registrations"], ["src", "api"],
     ["src", "controllers"], ["src", "pkg"], ["src", "pkg", "servicemanager"]}
  }

  /** An empty checkout at `/src`, and a place for workspaces. */
  function Plain(): Tree
  {
    (map p | p in PlainDirs() :: Dir)[["src", "go.mod"] := File("")]
  }

  lemma PlainNodes(p: Path)
    ensures p in Plain() <==> p in PlainDirs() || p == ["src", "go.mod"]
    ensures p in PlainDirs() ==> IsDir(Plain(), p)
    ensures !IsLink(Plain(), p)
  {
    assert ["src", "go.mod"] !in PlainDirs() by { GoModIsNoDir(); }
    hide PlainDirs;
  }

  lemma GoModIsNoDir()
    ensures ["src", "go.mod"] !in PlainDirs()
  {
    assert forall p :: p in PlainDirs() && |p| == 2 ==> p[1] in {"cmd", "internal", "api", "controllers", "pkg"};
    assert ["src", "go.mod"][1] == "go.mod";
  }

  lemma PlainParents(p: Path)
    requires p in PlainDirs() || p == ["src", "go.mod"]
    requires p != []
    ensures p[..|p| - 1] in PlainDirs()
  {
    if |p| == 1 {
      assert p[..0] == [];
    } else if |p| == 2 {
      assert p[..1] == ["src"];
    } else {
      assert p[..2] == ["src", "internal"] || p[..2] == ["src", "pkg"];
    }
  }

  lemma PlainListed(name: string)
    ensures ["src"] + ["cmd"] in PlainDirs() && ["src"] + ["internal"] in PlainDirs()
            && ["src"] + ["api"] in PlainDirs()
    ensures ["src"] + ["controllers"] in PlainDirs() && ["src"] + ["pkg"] in PlainDirs()
    ensures ["src"] + ["internal", "registrations"] in PlainDirs() && ["src"] + ["pkg", "servicemanager"] in PlainDirs()
    ensures [] in PlainDirs() && ["src"] in PlainDirs() && ["tmp"] in PlainDirs() && ["tmp", name] !in PlainDirs()
  {
    assert ["src"] + ["cmd"] == ["src", "cmd"] && ["src"] + ["internal"] == ["src", "internal"]
           && ["src"] + ["api"] == ["src", "api"];
    assert ["src"] + ["controllers"] == ["src", "controllers"] && ["src"] + ["pkg"] == ["src", "pkg"];
    assert ["src"] + ["internal", "registrations"] == ["src", "internal", "registrations"];
    assert ["src"] + ["pkg", "servicemanager"] == ["src", "pkg", "servicemanager"];
    assert ["tmp", name][0] == "tmp";
    assert forall p :: p in PlainDirs() && |p| == 2 ==> p[0] == "src";
  }

  lemma PlainEntries(n: string)
    ensures ["src"] + ["controllers", n] !in PlainDirs() && ["src"] + ["controllers", n] != ["src", "go.mod"]
    ensures ["src"] + ["pkg", "servicemanager", n] !in PlainDirs()
            && ["src"] + ["pkg", "servicemanager", n] != ["src", "go.mod"]
  {
    assert forall p :: p in PlainDirs() && |p| == 3 ==> p[1] != "controllers";
    assert (["src"] + ["controllers", n])[1] == "controllers";
  }

  lemma PlainWellFormed()
    ensures WellFormed(Plain())
  {
    hide Plain, PlainDirs;
    PlainListed("");
    PlainNodes([]);
    forall p | p in Plain() && p != [] ensures IsDir(Plain(), p[..|p| - 1]) {
      PlainNodes(p);
      PlainParents(p);
      PlainNodes(p[..|p| - 1]);
    }
  }

  lemma PlainSources()
    ensures Checkout(Plain(), ["src"]) && CoverageSources(Plain(), ["src"])
  {
    hide Plain, PlainDirs, IsDir;
    forall p ensures p in PlainDirs() ==> IsDir(Plain(), p)
             ensures !IsLink(Plain(), p)
    {
      PlainNodes(p);
    }
    PlainListed("");
    PlainNodes(["src", "go.mod"]);
    assert ["src"] + ["go.mod"] == ["src", "go.mod"];
  }

  lemma PlainPlace(name: string)
    ensures var repo, root := ["src"], ["tmp", name];
            Placeable(Plain(), repo, root) && Unused(Plain(), root) && CommandsPlain(Plain(), repo, root)
  {
    hide Plain, PlainDirs;
    var repo, root := ["src"], ["tmp", name];
    PlainListed(name);
    PlainNodes([]);
    PlainNodes(["tmp"]);
    PlainNodes(repo + ["cmd"]);
    PlainNodes(root);
    assert root[0] == "tmp" && ["src", "go.mod"][0] == "src";
    forall i | 0 <= i < |root| ensures IsDir(Plain(), root[..i]) {
      assert root[..i] == [] || root[..i] == ["tmp"];
    }
    forall d: string ensures !(repo + [d] <= root) {
      assert (repo + [d])[0] == "src";
    }
    forall q ensures !IsLink(Plain(), q) {
      PlainNodes(q);
    }
  }

  lemma PlainSelection(sel: Selection)
    ensures SelectionOk(Plain(), ["src"], sel)
  {
    hide Plain, PlainDirs;
    forall n ensures ["src"] + ["controllers", n] !in Plain() && ["src"] + ["pkg", "servicemanager", n] !in Plain() {
      PlainEntries(n);
      PlainNodes(["src"] + ["controllers", n]);
      PlainNodes(["src"] + ["pkg", "servicemanager", n]);
    }
    forall q ensures !IsLink(Plain(), q) {
      PlainNodes(q);
    }
  }

  lemma PlainHasNoLinks(sel: Selection, name: string)
    ensures ZonePlain(Plain(), ["src"], ["tmp", name]) && RootLinksStayOut(Plain(), ["src"], ["tmp", name], sel.roots)
  {
    hide Plain, PlainDirs, Zone;
    forall q ensures !IsLink(Plain(), q) {
      PlainNodes(q);
    }
    PlainListed(name);
    PlainNodes(["src"] + ["cmd"]);
    assert (["src"] + ["cmd"])[0] != ["tmp", name][0];
  }

  /** Both tools may run on it, for any selection, and find all the source directories they need. */
  lemma PlainCheckoutQualifies(sel: Selection, name: string)
    ensures var repo, root := ["src"], ["tmp", name];
            && WellFormed(Plain()) && Checkout(Plain(), repo) && Placeable(Plain(), repo, root) && Unused(Plain(), root)
            && SelectionOk(Plain(), repo, sel) && CoverageSources(Plain(), repo) && CommandsPlain(Plain(), repo, root)
            && ZonePlain(Plain(), repo, root) && RootLinksStayOut(Plain(), repo, root, sel.roots)
  {
    hide Plain, WellFormed, Checkout, Placeable, Unused, SelectionOk, CoverageSources, CommandsPlain, ZonePlain,
         RootLinksStayOut;
    PlainHasNoLinks(sel, name);
    PlainWellFormed();
    PlainSources();
    PlainPlace(name);
    PlainSelection(sel);
  }

  lemma PlainHasNoManagers(name: string)
    ensures ["src", "cmd", "manager"] !in Plain() && ["src", "cmd", "manager", name] !in Plain()
    ensures ["src", "cmd", "manager", name, "main.go"] !in Plain()
  {
    hide Plain;
    assert forall p :: p in PlainDirs() ==> |p| <= 3 && (|p| == 3 ==> p[1] != "cmd");
    assert ["src", "cmd", "manager"][1] == "cmd";
    hide PlainDirs;
    PlainNodes(["src", "cmd", "manager"]);
    PlainNodes(["src", "cmd", "manager", name]);
    PlainNodes(["src", "cmd", "manager", name, "main.go"]);
    assert |["src", "cmd", "manager"]| != |["src", "go.mod"]|;
  }

  /** Adding the empty workspace to the plain checkout keeps what the tools ask for. */
  lemma PlainWithWorkspace(sel: Selection, work: string)
    ensures var repo, root := ["src"], ["tmp", work];
            var t0 := Plain()[root := Dir];
            Ready(t0, repo, root) && CoverageSources(t0, repo) && CommandsPlain(t0, repo, root)
  {
    hide Plain, WellFormed, Checkout, Placeable, Unused, SelectionOk, Ready, NoLinkAbove, ChildNames;
    var repo, root := ["src"], ["tmp", work];
    var t0 := Plain()[root := Dir];
    PlainCheckoutQualifies(sel, work);
    PlainAddsRoot(work);
    assert OnlyNewDirs(Plain(), t0, root) by { UnusedMissing(Plain(), root); }
    NewDirsKeepSource(Plain(), t0, repo, root, sel);
    RootIsEmpty(Plain(), t0, repo, root, false, [], false);
    EmptyDirReady(t0, repo, root);
    forall q | repo + ["cmd"] <= q ensures !IsLink(t0, q) {
      assert !IsLink(Plain(), q);
    }
  }

  lemma UnusedMissing(t: Tree, root: Path)
    requires Unused(t, root)
    ensures root !in t
  {
  }

  lemma PlainAddsRoot(work: string)
    ensures WellFormed(Plain()[["tmp", work] := Dir])
  {
    hide Plain, PlainDirs, WellFormed;
    PlainWellFormed();
    PlainListed(work);
    PlainNodes(["tmp"]);
    PlainNodes(["tmp", work]);
    assert ["tmp", work][0] == "tmp" && ["src", "go.mod"][0] == "src";
    assert ["tmp", work][..1] == ["tmp"];
    PutWellFormed(Plain(), ["tmp", work], Dir);
  }

  /** The escape happens: from a plain checkout, populating succeeds, the generator's manager output succeeds,
      and the checkout holds a file that it did not hold before. */
  method PlainCheckoutChanges(sel: Selection, work: string, name: string, content: string) returns (disk: Disk)
    ensures var q := ["src", "cmd", "manager", name, "main.go"];
            q !in Plain() && q in disk.tree && disk.tree[q] == File(content)
  {
    hide Plain, WellFormed, Ready, CoverageSources, CommandsPlain, CoveragePopulated, SameOutside, Run, Mkdir;
    var repo, root := ["src"], ["tmp", work];
    PlainAddsRoot(work);
    PlainWithWorkspace(sel, work);
    PlainHasNoManagers(name);
    ghost var t0 := Plain()[root := Dir];
    disk := new Disk(Plain()[root := Dir]);
    var ok := PopulateCoverage(disk, repo, root, sel);
    ghost var t := disk.tree;
    ManagerOutputEscapes(t0, t, repo, root, sel, name, content);
    var dir := ["cmd", "manager", name];
    assert repo + ["cmd", "manager"] == ["src", "cmd", "manager"] && repo + dir == ["src", "cmd", "manager", name];
    assert repo + dir + ["main.go"] == ["src", "cmd", "manager", name, "main.go"];
    assert root[0] != "src";
    ok := RunTool(disk, root, [MakeDirsOp(dir), WriteOp(dir + ["main.go"], content)]);
  }

  // ----- a runtime check that succeeds -----

  const CONTROLLER_DIR: Path := ["controllers", "g"]
  const CONTROLLER: Path := ["controllers", "g", "x_controller.go"]
  const MANAGER_DIR: Path := ["pkg", "servicemanager", "r"]
  const MANAGER: Path := ["pkg", "servicemanager", "r", "x_servicemanager.go"]
  const REGISTRATION: Path := ["internal", "registrations", "g_generated.go"]

  /** One package with one service manager. */
  const PLAIN_JOB := Job(["g"], ["g"],
      [PackageModel("g", "v1beta1", [Manager("r", "x_serviceclient.go", "x_servicemanager.go")])], [])

  const PLAIN_OPS: seq<ToolOp> := [
    MakeDirsOp(CONTROLLER_DIR), WriteOp(CONTROLLER, MARKER), MakeDirsOp(MANAGER_DIR), WriteOp(MANAGER, MARKER),
    WriteOp(REGISTRATION, MARKER)]

  lemma PlainJobParts()
    ensures Roots(PLAIN_JOB.packages) == {"r"} && SelectionOf(PLAIN_JOB) == Selection(RuntimeTool, {"g"}, {"g"}, {"r"})
  {
    hide TrimSpace;
    var m := Manager("r", "x_serviceclient.go", "x_servicemanager.go");
    var p := PackageModel("g", "v1beta1", [m]);
    assert PLAIN_JOB.packages == [p];
    SplitFree("r", '/');
    assert ManagerRoot(m) == "r";
    assert TrimSpace("r") == "r" by { VisibleR(); }
    assert p in PLAIN_JOB.packages && m in p.managers;
  }

  lemma VisibleR()
    ensures !IsSpace('r')
  {
  }

  /** A write into an existing directory, over nothing or a file. */
  lemma WriteUnder(t: Tree, dir: Path, n: string, content: string)
    requires WellFormed(t) && IsDir(t, dir) && !IsDir(t, dir + [n]) && !IsLink(t, dir + [n])
    ensures WriteFile(t, dir + [n], content) == Outcome(t[dir + [n] := File(content)], true)
    ensures WellFormed(t[dir + [n] := File(content)])
  {
    hide WellFormed, WriteFile, DirsAbove, NoLinkAbove;
    WellFormedAbove(t, dir);
    ChildDirs(t, dir, n);
    DirsAboveHaveNoLinks(t, dir + [n]);
    WriteInPlace(t, dir + [n], content);
    assert (dir + [n])[..|dir + [n]| - 1] == dir;
    PutWellFormed(t, dir + [n], File(content));
  }

  lemma MakeUnder(t: Tree, dir: Path, n: string)
    requires WellFormed(t) && IsDir(t, dir) && dir + [n] !in t
    ensures MkdirAll(t, dir + [n]) == Outcome(t[dir + [n] := Dir], true)
    ensures WellFormed(t[dir + [n] := Dir])
  {
    hide WellFormed, MkdirAll, DirsAbove;
    WellFormedAbove(t, dir);
    MkdirUnder(t, dir, n);
    assert (dir + [n])[..|dir + [n]| - 1] == dir;
    PutWellFormed(t, dir + [n], Dir);
  }

  /** Where the five operations act. */
  ghost predicate Vacancies(t: Tree, root: Path) {
    && WellFormed(t)
    && IsDir(t, root + ["controllers"]) && root + CONTROLLER_DIR !in t && root + CONTROLLER !in t
    && IsDir(t, root + ["pkg", "servicemanager"]) && root + MANAGER_DIR !in t && root + MANAGER !in t
    && IsDir(t, root + ["internal", "registrations"]) && root + REGISTRATION !in t
  }

  function Generated(t: Tree, root: Path): Tree
  {
    t[root + CONTROLLER_DIR := Dir][root + CONTROLLER := File(MARKER)][
      root + MANAGER_DIR := Dir][root + MANAGER := File(MARKER)][root + REGISTRATION := File(MARKER)]
  }

  lemma Differ(root: Path, a: Path, b: Path)
    requires |a| != |b| || (|a| > 0 && a[0] != b[0])
    ensures root + a != root + b
  {
    if |a| == |b| {
      assert (root + a)[|root|] == a[0] && (root + b)[|root|] == b[0];
    }
  }

  /** The places of the five operations and their directories are all different. */
  lemma PathsDiffer(root: Path)
    ensures root + CONTROLLER_DIR !in {root + CONTROLLER, root + MANAGER_DIR, root + MANAGER, root + REGISTRATION}
    ensures root + CONTROLLER !in {root + MANAGER_DIR, root + MANAGER, root + REGISTRATION}
    ensures root + MANAGER_DIR !in {root + MANAGER, root + REGISTRATION} && root + MANAGER != root + REGISTRATION
    ensures root + ["pkg", "servicemanager"] !in {root + CONTROLLER_DIR, root + CONTROLLER}
    ensures root + ["internal", "registrations"] !in {root + CONTROLLER_DIR, root + CONTROLLER, root + MANAGER_DIR,
            root + MANAGER}
  {
    Differ(root, CONTROLLER_DIR, CONTROLLER);
    Differ(root, CONTROLLER_DIR, MANAGER_DIR);
    Differ(root, CONTROLLER_DIR, MANAGER);
    Differ(root, CONTROLLER_DIR, REGISTRATION);
    Differ(root, CONTROLLER, MANAGER_DIR);
    Differ(root, CONTROLLER, MANAGER);
    Differ(root, CONTROLLER, REGISTRATION);
    Differ(root, MANAGER_DIR, MANAGER);
    Differ(root, MANAGER_DIR, REGISTRATION);
    Differ(root, MANAGER, REGISTRATION);
    Differ(root, ["pkg", "servicemanager"], CONTROLLER_DIR);
    Differ(root, ["pkg", "servicemanager"], CONTROLLER);
    Differ(root, ["internal", "registrations"], CONTROLLER_DIR);
    Differ(root, ["internal", "registrations"], CONTROLLER);
    Differ(root, ["internal", "registrations"], MANAGER_DIR);
    Differ(root, ["internal", "registrations"], MANAGER);
  }

  lemma PathsUnfold(root: Path)
    ensures root + CONTROLLER == root + CONTROLLER_DIR + ["x_controller.go"]
    ensures root + MANAGER == root + MANAGER_DIR + ["x_servicemanager.go"]
    ensures root + REGISTRATION == root + ["internal", "registrations"] + ["g_generated.go"]
    ensures root + CONTROLLER_DIR == root + ["controllers"] + ["g"]
    ensures root + MANAGER_DIR == root + ["pkg", "servicemanager"] + ["r"]
  {
  }

  /** The generator's five operations succeed. */
  lemma PlainOpsSucceed(t: Tree, root: Path)
    requires Vacancies(t, root)
    ensures Run(t, root, PLAIN_OPS) == Outcome(Generated(t, root), true) && WellFormed(Generated(t, root))
  {
    hide WellFormed, MkdirAll, WriteFile, Run;
    PathsDiffer(root);
    PathsUnfold(root);
    var t1 := t[root + CONTROLLER_DIR := Dir];
    var t2 := t1[root + CONTROLLER := File(MARKER)];
    var t3 := t2[root + MANAGER_DIR := Dir];
    var t4 := t3[root + MANAGER := File(MARKER)];
    MakeUnder(t, root + ["controllers"], "g");
    WriteUnder(t1, root + CONTROLLER_DIR, "x_controller.go", MARKER);
    MakeUnder(t2, root + ["pkg", "servicemanager"], "r");
    WriteUnder(t3, root + MANAGER_DIR, "x_servicemanager.go", MARKER);
    WriteUnder(t4, root + ["internal", "registrations"], "g_generated.go", MARKER);
    RunStep(t, root, PLAIN_OPS);
    RunStep(t1, root, PLAIN_OPS[1..]);
    RunStep(t2, root, PLAIN_OPS[2..]);
    RunStep(t3, root, PLAIN_OPS[3..]);
    RunStep(t4, root, PLAIN_OPS[4..]);
    RunNothing(Generated(t, root), root);
    assert PLAIN_OPS[1..][1..] == PLAIN_OPS[2..] && PLAIN_OPS[2..][1..] == PLAIN_OPS[3..];
    assert PLAIN_OPS[3..][1..] == PLAIN_OPS[4..] && PLAIN_OPS[4..][1..] == [];
  }

  lemma RunStep(t: Tree, root: Path, ops: seq<ToolOp>)
    requires ops != []
    ensures var r := Apply(t, root, ops[0]); r.ok ==> Run(t, root, ops) == Run(r.tree, root, ops[1..])
  {
    hide Apply;
  }

  lemma RunNothing(t: Tree, root: Path)
    ensures Run(t, root, []) == Outcome(t, true)
  {
  }

  lemma MarkerMarks()
    ensures HasMarker(MARKER)
  {
    OccursStart(MARKER, MARKER);
  }

  lemma GeneratedNodes(t: Tree, root: Path)
    ensures var g := Generated(t, root);
            && IsDir(g, root + CONTROLLER_DIR) && IsDir(g, root + MANAGER_DIR)
            && root + CONTROLLER in g && g[root + CONTROLLER] == File(MARKER)
            && root + MANAGER in g && g[root + MANAGER] == File(MARKER)
            && root + REGISTRATION in g && g[root + REGISTRATION] == File(MARKER)
  {
    PathsDiffer(root);
  }

  lemma ControllerReady(g: Tree, root: Path)
    requires WellFormed(g) && IsDir(g, root + CONTROLLER_DIR) && root + CONTROLLER in g
             && g[root + CONTROLLER] == File(MARKER)
    ensures HoldsController(g, root, "g") && Stat(g, root + CONTROLLER_DIR) == Some(Dir)
  {
    hide WellFormed, Resolve, ChildNames;
    DirFound(g, root + CONTROLLER_DIR);
    PathsUnfold(root);
    assert ControllerEntry(g, root + CONTROLLER_DIR, "x_controller.go");
    assert "x_controller.go" in ChildNames(g, root + CONTROLLER_DIR);
  }

  lemma ManagerReady(g: Tree, root: Path)
    requires WellFormed(g) && IsDir(g, root + MANAGER_DIR) && root + MANAGER in g && g[root + MANAGER] == File(MARKER)
    ensures ManagerEntry(g, root, "r", ["x_servicemanager.go"])
  {
    hide WellFormed, Resolve, Marked, HasMarker, Stat;
    DirFound(g, root + MANAGER_DIR);
    MarkerMarks();
    FileFound(g, root + MANAGER);
    PathsUnfold(root);
    assert ManagerPath("r", []) == MANAGER_DIR && ManagerPath("r", ["x_servicemanager.go"]) == MANAGER;
    assert ManagerFileName("x_servicemanager.go");
  }

  lemma RegistrationReady(g: Tree, root: Path)
    requires WellFormed(g) && root + REGISTRATION in g && g[root + REGISTRATION] == File(MARKER)
    ensures Registered(g, root, "g")
  {
    hide WellFormed, Marked, HasMarker;
    MarkerMarks();
    FileFound(g, root + REGISTRATION);
    assert "g" + "_generated.go" == "g_generated.go" && RegistrationPath("g") == REGISTRATION;
  }

  /** What was written is what the build plan asks for. */
  lemma GeneratedIsReady(t: Tree, root: Path)
    requires WellFormed(Generated(t, root))
    ensures PlanReady(Generated(t, root), root, PLAIN_JOB)
  {
    hide WellFormed, Generated, Stat, HoldsController, ManagerEntry, Registered, Roots;
    var g := Generated(t, root);
    GeneratedNodes(t, root);
    PlainJobParts();
    ControllerReady(g, root);
    ManagerReady(g, root);
    RegistrationReady(g, root);
    assert PLAIN_JOB.groups == ["g"] && "g" in PLAIN_JOB.groups && PLAIN_JOB.registrations == ["g"];
  }

  lemma DirFound(t: Tree, p: Path)
    requires WellFormed(t) && IsDir(t, p)
    ensures Resolve(t, p, true) == Some(p) && Resolve(t, p, false) == Some(p) && Stat(t, p) == Some(Dir)
  {
    hide WellFormed, Resolve, DirsAbove, NoLinkAbove;
    WellFormedAbove(t, p);
    DirsAboveHaveNoLinks(t, p);
    ResolveInPlace(t, p, true);
    ResolveInPlace(t, p, false);
  }

  lemma FileFound(t: Tree, p: Path)
    requires WellFormed(t) && p in t && t[p].File? && HasMarker(t[p].content)
    ensures Marked(t, p)
  {
    hide WellFormed, DirsAbove, HasMarker, Marked;
    WellFormedAbove(t, p);
    MarkedInPlace(t, p);
  }

  /** A workspace populated from the plain checkout has room for the five operations. */
  lemma PlainVacancies(t0: Tree, t: Tree, repo: Path, root: Path, sel: Selection)
    requires WellFormed(t) && Populated(t0, t, repo, root, sel)
    requires sel == Selection(RuntimeTool, {"g"}, {"g"}, {"r"})
    requires repo + CONTROLLER_DIR !in t0 && repo + MANAGER_DIR !in t0 && repo + REGISTRATION !in t0
    ensures Vacancies(t, root)
  {
    hide Populated, WellFormed;
    LayoutDirectories(t0, t, repo, root, sel);
    ControllersVacant(t0, t, repo, root, sel);
    ManagersVacant(t0, t, repo, root, sel);
    RegistrationsVacant(t0, t, repo, root, sel);
  }

  lemma ControllersVacant(t0: Tree, t: Tree, repo: Path, root: Path, sel: Selection)
    requires Exactly(t, root + ["controllers"], ControllersPiece(t0, repo, root, sel.groups))
             && repo + CONTROLLER_DIR !in t0
    ensures IsDir(t, root + ["controllers"]) && root + CONTROLLER_DIR !in t && root + CONTROLLER !in t
  {
    hide DirPiece, ChildNames;
    var src, dst := repo + ["controllers"], root + ["controllers"];
    var linked := ControllersLinked(t0, repo, sel.groups);
    PathsUnfold(root);
    assert src + ["g"] == repo + CONTROLLER_DIR;
    assert "g" !in linked;
    DirPieceAt(src, dst, linked, dst);
    DirPieceAt(src, dst, linked, root + CONTROLLER_DIR);
    DirPieceAt(src, dst, linked, root + CONTROLLER);
    assert dst <= root + CONTROLLER_DIR && dst <= root + CONTROLLER && dst <= dst;
    assert (root + CONTROLLER_DIR)[|dst|] == "g";
  }

  lemma ManagersVacant(t0: Tree, t: Tree, repo: Path, root: Path, sel: Selection)
    requires Exactly(t, root + ["pkg"], PkgPiece(t0, repo, root, sel.roots)) && repo + MANAGER_DIR !in t0
    ensures IsDir(t, root + ["pkg", "servicemanager"]) && root + MANAGER_DIR !in t && root + MANAGER !in t
  {
    hide DirPiece, ChildNames;
    var src, dst := repo + ["pkg", "servicemanager"], root + ["pkg", "servicemanager"];
    var linked := RootsLinked(t0, repo, sel.roots);
    PathsUnfold(root);
    assert src + ["r"] == repo + MANAGER_DIR;
    assert "r" !in linked;
    forall q | q in {dst, root + MANAGER_DIR, root + MANAGER}
      ensures root + ["pkg"] <= q && q != root + ["pkg"] && |q| >= |root| + 2
    {
      assert q[..|root| + 1] == root + ["pkg"];
    }
    DirPieceAt(src, dst, linked, dst);
    DirPieceAt(src, dst, linked, root + MANAGER_DIR);
    DirPieceAt(src, dst, linked, root + MANAGER);
    DirPieceAt(repo + ["pkg"], root + ["pkg"], PkgLinked(t0, repo), root + MANAGER_DIR);
    DirPieceAt(repo + ["pkg"], root + ["pkg"], PkgLinked(t0, repo), root + MANAGER);
    assert (root + MANAGER_DIR)[|dst|] == "r";
  }

  lemma InternalLaid(t0: Tree, t: Tree, repo: Path, root: Path, sel: Selection)
    requires Populated(t0, t, repo, root, sel)
    ensures Exactly(t, root + ["internal"],
                    InternalDirectory(t0, repo, root, COPIED, PreservedRegistrations(t0, repo, sel.registrations)))
  {
    hide Exactly, TopPieces, InternalDirectory, ApiPiece, ControllersPiece, PkgPiece, WorkPiece, PreservedRegistrations,
         TopLinked, Stage;
    assert Layout(t0, repo, root, sel)["internal"]
        == InternalDirectory(t0, repo, root, COPIED, PreservedRegistrations(t0, repo, sel.registrations));
  }

  lemma RegistrationsVacant(t0: Tree, t: Tree, repo: Path, root: Path, sel: Selection)
    requires Populated(t0, t, repo, root, sel) && repo + REGISTRATION !in t0
    ensures IsDir(t, root + ["internal", "registrations"]) && root + REGISTRATION !in t
  {
    hide Populated, InternalDirectory, PreservesRegistration, ChildNames;
    var dst, regs := root + ["internal", "registrations"], PreservedRegistrations(t0, repo, sel.registrations);
    InternalLaid(t0, t, repo, root, sel);
    assert repo + ["internal", "registrations"] + ["g_generated.go"] == repo + REGISTRATION;
    assert "g_generated.go" !in regs;
    assert dst[..|root| + 1] == root + ["internal"] && (root + REGISTRATION)[..|root| + 1] == root + ["internal"];
    RegistrationPiece(t0, repo, root, COPIED, regs, "g_generated.go");
  }

  /** What the plain checkout does not hold. */
  lemma PlainLacks(root: Path)
    requires |root| == 2 && root[0] == "tmp"
    ensures var t0 := Plain()[root := Dir];
            && ["src"] + CONTROLLER_DIR !in t0 && ["src"] + MANAGER_DIR !in t0 && ["src"] + REGISTRATION !in t0
            && ["src"] + ["api", "g", "v1beta1"] !in t0
  {
    hide Plain;
    assert forall p :: p in PlainDirs() && |p| == 3 ==> p[1] == "internal" || p[1] == "pkg";
    assert forall p :: p in PlainDirs() ==> |p| <= 3;
    hide PlainDirs;
    PlainNodes(["src"] + CONTROLLER_DIR);
    PlainNodes(["src"] + MANAGER_DIR);
    PlainNodes(["src"] + REGISTRATION);
    PlainNodes(["src"] + ["api", "g", "v1beta1"]);
    assert (["src"] + CONTROLLER_DIR)[1] == "controllers";
  }

  lemma PlainOpsInScope(op: ToolOp)
    requires op in PLAIN_OPS
    ensures GeneratorOp(Selection(RuntimeTool, {"g"}, {"g"}, {"r"}), op)
  {
    var sel := Selection(RuntimeTool, {"g"}, {"g"}, {"r"});
    assert Region(sel, CONTROLLER_DIR) && Region(sel, CONTROLLER) && Region(sel, MANAGER_DIR) && Region(sel, MANAGER);
    assert HasSuffix("g_generated.go", "_generated.go");
    var i :| 0 <= i < |PLAIN_OPS| && PLAIN_OPS[i] == op;
    assert i == 0 || i == 1 || i == 2 || i == 3 || i == 4;
  }

  /** The run is smooth from every workspace that populating leaves. */
  lemma PlainSmooth(t: Tree, root: Path)
    requires |root| == 2 && root[0] == "tmp" && WellFormed(t)
    requires Populated(Plain()[root := Dir], t, ["src"], root, SelectionOf(PLAIN_JOB))
    ensures Smooth(Plain()[root := Dir], t, ["src"], root, PLAIN_JOB, PLAIN_OPS, [])
  {
    hide Plain, WellFormed, Populated, Run, PlanReady, Vacancies, Generated, Roots;
    var t0, repo := Plain()[root := Dir], ["src"];
    PlainJobParts();
    PlainLacks(root);
    PlainVacancies(t0, t, repo, root, SelectionOf(PLAIN_JOB));
    PlainOpsSucceed(t, root);
    GeneratedIsReady(t, root);
    assert ManagerPath("r", []) == MANAGER_DIR;
  }

  /** A whole runtime check succeeds: from the plain checkout, with one controller, one marked service-manager file
      and one registration generated, a plan is made, and afterwards the disk is as it was. */
  method PlainRunSucceeds(work: string) returns (disk: Disk, plan: Plan, ok: bool)
    ensures ok && disk.tree == Plain() && plan.controllers != [] && plan.managers != []
  {
    hide Plain, WellFormed, Checkout, Placeable, Unused, SelectionOk, CoverageSources, CommandsPlain, ZonePlain,
         RootLinksStayOut,
         Smooth, Populated, GeneratorOp, SelectionOf, Fresh, FreshManagers, OnlyAround, Roots, AllWritten;
    var repo, root := ["src"], ["tmp", work];
    ghost var sel := SelectionOf(PLAIN_JOB);
    PlainJobParts();
    PlainCheckoutQualifies(sel, work);
    forall op | op in PLAIN_OPS ensures GeneratorOp(sel, op) {
      PlainOpsInScope(op);
    }
    forall t | WellFormed(t) && Populated(Plain()[root := Dir], t, repo, root, sel)
      ensures Smooth(Plain()[root := Dir], t, repo, root, PLAIN_JOB, PLAIN_OPS, [])
    {
      PlainSmooth(t, root);
    }
    SourcesComplete(Plain(), repo);
    disk := new Disk(Plain());
    ghost var seen;
    plan, ok, seen := RunRuntimeCheck(disk, repo, root, false, false, PLAIN_JOB, PLAIN_OPS, [], true, true);
  }

  lemma SourcesComplete(t: Tree, repo: Path)
    requires CoverageSources(t, repo)
    ensures SourceComplete(t, repo)
  {
  }
}
