/**
 The invariant of a runtime-check workspace, from the populated layout to the last step: where links may
 be, and which files exist that the generator did not write.
 */
module Workspace {
  import opened Orders
  import opened Text
  import opened FileSystem
  import opened Snapshot
  import opened Isolation
  import opened RuntimeCheck

  const MARKER := "// Code generated by generator. DO NOT EDIT."

  predicate HasMarker(content: string) {
    Contains(content, MARKER)
  }

  /** `hasGeneratedMarker`: what the file reads as, through any links. */
  predicate Marked(t: Tree, p: Path) {
    var content := ReadFile(t, p);
    content.Some? && HasMarker(content.value)
  }

  function Last(rel: Path): string
    requires rel != []
  {
    rel[|rel| - 1]
  }

  predicate GeneratedApiFile(name: string) {
    name == "groupversion_info.go" || name == "zz_generated.deepcopy.go" || HasSuffix(name, "_types.go")
  }

  predicate GeneratedControllerFile(name: string) {
    HasSuffix(name, "_controller.go")
  }

  // ----- places -----

  /** Registration files that are linked: the runtime check never links a generated one, the coverage tool
      only leaves out those named exactly after a selected group. */
  predicate LinksRegistration(sel: Selection, name: string) {
    match sel.tool
    case RuntimeTool => !HasSuffix(name, "_generated.go")
    case CoverageTool => !(HasSuffix(name, "_generated.go") && TrimSuffix(name, "_generated.go") in sel.groups)
  }

  /** Where the populated layout has links. */
  predicate LinkPlace(sel: Selection, rel: Path) {
    || (|rel| == 1 && rel[0] in TopNames(sel.tool))
    || (|rel| == 2 && rel[0] == "internal" && rel[1] !in CopiedNames(sel.tool) && rel[1] != "registrations")
    || (|rel| == 3 && rel[0] == "internal" && rel[1] == "registrations" && LinksRegistration(sel, rel[2]))
    || (|rel| == 2 && rel[0] in {"api", "controllers"} && rel[1] !in sel.groups)
    || (|rel| == 2 && rel[0] == "pkg" && rel[1] != "servicemanager")
    || (|rel| == 3 && rel[0] == "pkg" && rel[1] == "servicemanager" && rel[2] !in sel.roots)
  }

  /** Below these the workspace starts out empty and companion files are linked later. */
  predicate Region(sel: Selection, rel: Path) {
    || (|rel| >= 2 && rel[0] in {"api", "controllers"} && rel[1] in sel.groups)
    || (|rel| >= 3 && rel[0] == "pkg" && rel[1] == "servicemanager" && rel[2] in sel.roots)
  }

  /** Where the generator writes: API packages, controllers, service managers, registrations, samples,
      package scaffolding, manager outputs and its own generated artifacts. */
  predicate OutputScope(sel: Selection, rel: Path) {
    || Region(sel, rel)
    || rel == ["internal", "registrations"]
    || (|rel| == 3 && rel[0] == "internal" && rel[1] == "registrations" && HasSuffix(rel[2], "_generated.go"))
    || (|rel| >= 3 && rel[0] == "internal" && rel[1] == "generator" && rel[2] == "generated")
    || (|rel| >= 1 && rel[0] in {"cmd", "config", "packages"})
  }

  /** The part of it that is not behind a link.  For the runtime check that is all of it. */
  predicate WriteScope(sel: Selection, rel: Path) {
    && OutputScope(sel, rel)
    && !(sel.tool.CoverageTool? && rel[0] == "cmd")
    && !(|rel| == 3 && rel[0] == "internal" && rel[1] == "registrations" && LinksRegistration(sel, rel[2]))
  }

  lemma RuntimeWritesEverywhere(sel: Selection, rel: Path)
    requires sel.tool.RuntimeTool?
    ensures WriteScope(sel, rel) <==> OutputScope(sel, rel)
  {
  }

  /** Its cleanup also removes entries of the directories that hold groups, links included. */
  predicate RemoveScope(sel: Selection, rel: Path) {
    || WriteScope(sel, rel)
    || (|rel| == 2 && rel[0] in {"api", "controllers"})
    || (|rel| == 3 && rel[0] == "pkg" && rel[1] == "servicemanager")
    || (|rel| == 3 && rel[0] == "internal" && rel[1] == "registrations")
  }

  predicate GeneratorOp(sel: Selection, op: ToolOp) {
    match op
    case MakeDirsOp(rel) => WriteScope(sel, rel)
    case WriteOp(rel, _) => WriteScope(sel, rel)
    case RemoveOp(rel) => RemoveScope(sel, rel)
    case RemoveAllOp(rel) => WriteScope(sel, rel)
  }

  lemma RegionAvoidsLinks(sel: Selection, rel: Path, i: nat)
    requires Region(sel, rel) && 0 < i <= |rel|
    ensures !LinkPlace(sel, rel[..i])
  {
    var p := rel[..i];
    assert forall k :: 0 <= k < i ==> p[k] == rel[k];
  }

  lemma WriteScopeAvoidsLinks(sel: Selection, rel: Path, i: nat)
    requires WriteScope(sel, rel) && 0 < i <= |rel|
    ensures !LinkPlace(sel, rel[..i])
  {
    if Region(sel, rel) {
      RegionAvoidsLinks(sel, rel, i);
    } else {
      var p := rel[..i];
      assert forall k :: 0 <= k < i ==> p[k] == rel[k];
    }
  }

  lemma RemoveScopeAvoidsLinks(sel: Selection, rel: Path, i: nat)
    requires RemoveScope(sel, rel) && 0 < i < |rel|
    ensures !LinkPlace(sel, rel[..i])
  {
    if WriteScope(sel, rel) {
      WriteScopeAvoidsLinks(sel, rel, i);
    } else {
      var p := rel[..i];
      assert forall k :: 0 <= k < i ==> p[k] == rel[k];
    }
  }

  // ----- the populated layout -----

  /** The groups and roots selected for generation are directories of the checkout, or new, and the trees
      that are copied hold no links. */
  ghost predicate SelectionOk(t: Tree, repo: Path, sel: Selection) {
    && (forall g :: g in sel.groups && repo + ["controllers", g] in t ==> IsDir(t, repo + ["controllers", g]))
    && (forall r :: r in sel.roots && repo + ["pkg", "servicemanager", r] in t ==>
        IsDir(t, repo + ["pkg", "servicemanager", r]))
    && (forall g :: g in sel.groups ==> !IsLink(t, repo + ["api", g]))
    && (forall c, q :: c in CopiedNames(sel.tool) && repo + ["internal", c] <= q ==> !IsLink(t, q))
  }

  /** What is placed under one entry of the workspace. */
  lemma PlacedNode(t0: Tree, t: Tree, repo: Path, root: Path, pieces: Pieces, rel: Path)
    requires Ready(t0, repo, root) && Progress(t0, t, root, pieces) && rel != [] && root + rel in t
    ensures rel[0] in pieces && root + rel in pieces[rel[0]] && pieces[rel[0]][root + rel] == t[root + rel]
  {
    hide WellFormed;
    var q := root + rel;
    assert root < q && q[|root|] == rel[0] && q !in t0;
    assert root + [rel[0]] <= q by { ChildPrefix(root, rel[0], q); }
  }

  ghost predicate Expected(sel: Selection, rel: Path, node: Node) {
    && (node.Link? ==> LinkPlace(sel, rel))
    && (node.File? ==> |rel| >= 2 && rel[0] == "internal" && rel[1] in CopiedNames(sel.tool))
  }

  /** Links are only in link places and files only in the copied trees. */
  ghost predicate Laid(t: Tree, root: Path, sel: Selection) {
    forall q :: q in t && root < q ==> Expected(sel, Rel(root, q), t[q])
  }

  lemma LaidAt(t: Tree, root: Path, sel: Selection, rel: Path)
    requires Laid(t, root, sel) && rel != [] && root + rel in t
    ensures Expected(sel, rel, t[root + rel])
  {
    hide Expected;
    assert root < root + rel && Rel(root, root + rel) == rel;
  }

  lemma TopExpected(repo: Path, root: Path, sel: Selection, linked: set<string>, rel: Path)
    requires rel != [] && rel[0] in TopNames(sel.tool)
    ensures var piece := TopPieces(repo, root, Elems(TopNames(sel.tool)), linked)[rel[0]];
            root + rel in piece ==> Expected(sel, rel, piece[root + rel])
  {
    hide TopNames;
    if root + rel == root + [rel[0]] {
      assert rel == (root + rel)[|root|..] == [rel[0]];
    }
  }

  lemma ApiExpected(t0: Tree, repo: Path, root: Path, sel: Selection, rel: Path)
    requires rel != [] && rel[0] == "api"
    ensures root + rel in ApiPiece(t0, repo, root, sel.groups) ==>
            Expected(sel, rel, ApiPiece(t0, repo, root, sel.groups)[root + rel])
  {
    hide DirPiece, ChildNames;
    DirPieceAt(repo + ["api"], root + ["api"], ApiLinked(t0, repo, sel.groups), root + rel);
    assert |rel| >= 2 ==> (root + rel)[|root| + 1] == rel[1];
  }

  lemma ControllersExpected(t0: Tree, repo: Path, root: Path, sel: Selection, rel: Path)
    requires SelectionOk(t0, repo, sel) && rel != [] && rel[0] == "controllers"
    ensures root + rel in ControllersPiece(t0, repo, root, sel.groups) ==>
              Expected(sel, rel, ControllersPiece(t0, repo, root, sel.groups)[root + rel])
  {
    hide DirPiece, ChildNames;
    DirPieceAt(repo + ["controllers"], root + ["controllers"], ControllersLinked(t0, repo, sel.groups), root + rel);
    if |rel| >= 2 {
      assert (root + rel)[|root| + 1] == rel[1];
      assert repo + ["controllers"] + [rel[1]] == repo + ["controllers", rel[1]];
      assert rel[1] in ChildNames(t0, repo + ["controllers"]) ==> repo + ["controllers", rel[1]] in t0;
    }
  }

  lemma PkgExpected(t0: Tree, repo: Path, root: Path, sel: Selection, rel: Path)
    requires SelectionOk(t0, repo, sel) && rel != [] && rel[0] == "pkg"
    ensures root + rel in PkgPiece(t0, repo, root, sel.roots) ==>
            Expected(sel, rel, PkgPiece(t0, repo, root, sel.roots)[root + rel])
  {
    hide DirPiece, ChildNames;
    var q := root + rel;
    DirPieceAt(repo + ["pkg"], root + ["pkg"], PkgLinked(t0, repo), q);
    DirPieceAt(repo + ["pkg", "servicemanager"], root + ["pkg", "servicemanager"], RootsLinked(t0, repo, sel.roots), q);
    if |rel| >= 2 {
      assert q[|root| + 1] == rel[1];
    }
    if |rel| >= 3 {
      assert q[|root| + 2] == rel[2];
      assert root + ["pkg", "servicemanager"] <= q ==> rel[1] == "servicemanager" by {
        if root + ["pkg", "servicemanager"] <= q {
          assert q[|root| + 1] == (root + ["pkg", "servicemanager"])[|root| + 1];
        }
      }
      assert repo + ["pkg", "servicemanager"] + [rel[2]] == repo + ["pkg", "servicemanager", rel[2]];
      assert rel[2] in ChildNames(t0, repo + ["pkg", "servicemanager"]) ==>
             repo + ["pkg", "servicemanager", rel[2]] in t0;
    }
  }

  lemma InternalExpected(t0: Tree, repo: Path, root: Path, sel: Selection, regs: set<string>, rel: Path)
    requires SelectionOk(t0, repo, sel) && rel != [] && rel[0] == "internal" && forall n :: n in regs ==>
             LinksRegistration(sel, n)
    ensures var piece := InternalDirectory(t0, repo, root, CopiedNames(sel.tool), regs);
            root + rel in piece ==> Expected(sel, rel, piece[root + rel])
  {
    hide DirPiece, InternalPiece, ChildNames, LinksRegistration, CopiedNames;
    var q := root + rel;
    var src, dst := repo + ["internal"], root + ["internal"];
    DirPieceAt(repo + ["internal", "registrations"], root + ["internal", "registrations"], regs, q);
    InternalPieceAt(t0, src, dst, CopiedNames(sel.tool), q);
    if |rel| >= 2 {
      assert q[|root| + 1] == rel[1];
      assert q[|dst|..] == rel[1..];
      assert src + rel[1..] == repo + ["internal", rel[1]] + rel[2..];
      assert rel[1] in CopiedNames(sel.tool) ==> !IsLink(t0, src + rel[1..]);
    }
    if |rel| >= 3 {
      assert q[|root| + 2] == rel[2];
      assert root + ["internal", "registrations"] <= q ==> rel[1] == "registrations" by {
        if root + ["internal", "registrations"] <= q {
          assert q[|root| + 1] == (root + ["internal", "registrations"])[|root| + 1];
        }
      }
    }
  }

  lemma PreservedLinks(t: Tree, repo: Path, sel: Selection, n: string)
    requires sel.tool.RuntimeTool? && n in PreservedRegistrations(t, repo, sel.registrations)
    ensures LinksRegistration(sel, n)
  {
    hide PreservesRegistration, ChildNames;
    if HasSuffix(n, "_generated.go") {
      GeneratedRegistrationsNotPreserved(n, sel.registrations);
    }
  }

  /** After the runtime check has populated its workspace, links are only in link places. */
  lemma PopulatedExpected(t0: Tree, t: Tree, repo: Path, root: Path, sel: Selection)
    requires Ready(t0, repo, root) && SelectionOk(t0, repo, sel) && Populated(t0, t, repo, root, sel)
             && sel.tool.RuntimeTool?
    ensures Laid(t, root, sel)
  {
    hide Ready, Populated, SelectionOk, Expected;
    forall q | q in t && root < q ensures Expected(sel, Rel(root, q), t[q]) {
      assert root + Rel(root, q) == q;
      PopulatedExpectedAt(t0, t, repo, root, sel, Rel(root, q));
    }
  }

  lemma PopulatedExpectedAt(t0: Tree, t: Tree, repo: Path, root: Path, sel: Selection, rel: Path)
    requires Ready(t0, repo, root) && SelectionOk(t0, repo, sel) && Populated(t0, t, repo, root, sel)
             && sel.tool.RuntimeTool?
    requires rel != [] && root + rel in t
    ensures Expected(sel, rel, t[root + rel])
  {
    hide Ready, Progress, SelectionOk, TopPieces, InternalDirectory, ApiPiece, ControllersPiece, PkgPiece, Expected,
         PreservedRegistrations, TopLinked, LinksRegistration;
    PlacedNode(t0, t, repo, root, Layout(t0, repo, root, sel), rel);
    TopKeys(repo, root, TopLinked(t0, repo));
    if rel[0] == "internal" {
      forall n | n in PreservedRegistrations(t0, repo, sel.registrations) ensures LinksRegistration(sel, n) {
        PreservedLinks(t0, repo, sel, n);
      }
      InternalExpected(t0, repo, root, sel, PreservedRegistrations(t0, repo, sel.registrations), rel);
    } else if rel[0] == "api" {
      ApiExpected(t0, repo, root, sel, rel);
    } else if rel[0] == "controllers" {
      ControllersExpected(t0, repo, root, sel, rel);
    } else if rel[0] == "pkg" {
      PkgExpected(t0, repo, root, sel, rel);
    } else if rel[0] == "config" || rel[0] == "packages" {
      WorkExpected(sel, rel, t[root + rel]);
    } else {
      TopExpected(repo, root, sel, TopLinked(t0, repo), rel);
    }
  }

  lemma WorkExpected(sel: Selection, rel: Path, node: Node)
    requires node == Dir
    ensures Expected(sel, rel, node)
  {
  }

  // ----- the invariant -----

  /** A checked-in file, or link, that may be linked beside generated ones; its name or content sets it apart. */
  ghost predicate CompanionPlace(t0: Tree, repo: Path, root: Path, sel: Selection, rel: Path) {
    && Region(sel, rel) && |rel| >= 3
    && repo + rel in t0 && !IsDir(t0, repo + rel)
    && HasSuffix(Last(rel), ".go")
    && (rel[0] == "api" ==> !GeneratedApiFile(Last(rel)))
    && (rel[0] == "controllers" ==> !GeneratedControllerFile(Last(rel)))
    && (rel[0] == "pkg" && LooksOutside(t0, root, repo + rel) ==> !Marked(t0, repo + rel))
  }

  predicate ManualPlace(rel: Path, manual: set<string>) {
    |rel| == 3 && rel[0] == "pkg" && rel[1] == "servicemanager" && rel[2] in manual
  }

  function Rel(root: Path, q: Path): Path
    requires root <= q
  {
    q[|root|..]
  }

  /** The parts of the workspace that the build plan looks at. */
  predicate PlanPart(rel: Path) {
    || (|rel| >= 1 && rel[0] in {"controllers", "pkg"})
    || (|rel| >= 2 && rel[0] == "internal" && rel[1] == "registrations")
  }

  ghost predicate LinkOk(
    t0: Tree, repo: Path, root: Path, sel: Selection, manual: set<string>, rel: Path, target: Path) {
    || LinkPlace(sel, rel)
    || (target == repo + rel && (CompanionPlace(t0, repo, root, sel, rel) || ManualPlace(rel, manual)))
  }

  /** Nothing outside has changed; every link is in a known place; every file that the build plan could
      see was written by the generator. */
  ghost predicate Inv(
    t0: Tree, t: Tree, repo: Path, root: Path, sel: Selection, manual: set<string>, written: set<Output>) {
    && RootOk(t, root)
    && SameOutside(root, t0, t)
    && (forall q :: root < q && IsLink(t, q) ==> LinkOk(t0, repo, root, sel, manual, Rel(root, q), t[q].target))
    && (forall q :: root < q && q in t && t[q].File? && PlanPart(Rel(root, q)) ==> Output(q, t[q].content) in written)
  }

  lemma LinkWhere(
    t0: Tree, t: Tree, repo: Path, root: Path, sel: Selection, manual: set<string>, written: set<Output>, rel: Path)
    requires Inv(t0, t, repo, root, sel, manual, written) && rel != [] && IsLink(t, root + rel)
    ensures LinkOk(t0, repo, root, sel, manual, rel, t[root + rel].target)
  {
    hide LinkOk;
    assert root < root + rel && Rel(root, root + rel) == rel;
  }

  lemma FileWhere(
    t0: Tree, t: Tree, repo: Path, root: Path, sel: Selection, manual: set<string>, written: set<Output>, rel: Path)
    requires Inv(t0, t, repo, root, sel, manual, written) && PlanPart(rel) && root + rel in t && t[root + rel].File?
    ensures Output(root + rel, t[root + rel].content) in written
  {
    hide PlanPart;
    assert PlanPart(rel) ==> rel != [] by { PlanPartNonEmpty(rel); }
    assert root < root + rel && Rel(root, root + rel) == rel;
  }

  lemma PlanPartNonEmpty(rel: Path)
    requires PlanPart(rel)
    ensures rel != []
  {
  }

  lemma ContainedKeepsInv(
    t0: Tree, t: Tree, t': Tree, repo: Path, root: Path, sel: Selection, manual: set<string>, written: set<Output>,
    more: set<Output>)
    requires Inv(t0, t, repo, root, sel, manual, written) && Contained(root, t, t', more)
    ensures Inv(t0, t', repo, root, sel, manual, written + more)
  {
    hide LinkOk, PlanPart;
    ContainedKeepsRoot(root, t, t');
  }

  // ----- the generator -----

  /** A freshly populated workspace is clear for every operation of the generator. */
  lemma GeneratorOpClear(t: Tree, root: Path, sel: Selection, op: ToolOp)
    requires Laid(t, root, sel) && GeneratorOp(sel, op)
    ensures OpClear(t, root, op)
  {
    hide Laid, WriteScope, RemoveScope, LinkPlace;
    ScopeNonEmpty(sel, op);
    var n := if op.RemoveOp? then |op.rel| - 1 else |op.rel|;
    forall i | 0 < i <= n ensures !IsLink(t, root + op.rel[..i]) {
      if op.RemoveOp? {
        RemoveScopeAvoidsLinks(sel, op.rel, i);
      } else {
        WriteScopeAvoidsLinks(sel, op.rel, i);
      }
      if root + op.rel[..i] in t {
        LaidAt(t, root, sel, op.rel[..i]);
      }
    }
  }

  lemma ScopeNonEmpty(sel: Selection, op: ToolOp)
    requires GeneratorOp(sel, op)
    ensures op.rel != []
  {
  }

  /** After any run of the generator, finished or not, the invariant holds. */
  lemma GeneratorKeepsInv(t0: Tree, t: Tree, repo: Path, root: Path, sel: Selection, ops: seq<ToolOp>)
    requires Ready(t0, repo, root) && Laid(t, root, sel)
    requires SameOutside(root, t0, t) && forall op :: op in ops ==> GeneratorOp(sel, op)
    ensures Inv(t0, Run(t, root, ops).tree, repo, root, sel, {}, AllWritten(root, ops))
  {
    hide Ready, RootOk, SameOutside, Run, Laid, GeneratorOp, OpClear, AllWritten, Contained, Inv;
    PopulatedInv(t0, t, repo, root, sel);
    InvRoot(t0, t, repo, root, sel, {}, {});
    forall op | op in ops ensures OpClear(t, root, op) {
      GeneratorOpClear(t, root, sel, op);
    }
    RunContained(t, root, ops);
    ContainedKeepsInv(t0, t, Run(t, root, ops).tree, repo, root, sel, {}, {}, AllWritten(root, ops));
    assert {} + AllWritten(root, ops) == AllWritten(root, ops);
  }

  lemma InvRoot(t0: Tree, t: Tree, repo: Path, root: Path, sel: Selection, manual: set<string>, written: set<Output>)
    requires Inv(t0, t, repo, root, sel, manual, written)
    ensures RootOk(t, root) && SameOutside(root, t0, t)
  {
  }

  lemma PopulatedInv(t0: Tree, t: Tree, repo: Path, root: Path, sel: Selection)
    requires Ready(t0, repo, root) && Laid(t, root, sel)
    requires SameOutside(root, t0, t)
    ensures Inv(t0, t, repo, root, sel, {}, {})
  {
    hide Laid, LinkPlace, WellFormed;
    WellFormedAbove(t0, root);
    ContainedKeepsRoot(root, t0, t);
    forall q | root < q && q in t
      ensures t[q].Link? ==> LinkOk(t0, repo, root, sel, {}, Rel(root, q), t[q].target)
      ensures t[q].File? ==> !PlanPart(Rel(root, q))
    {
      var rel := Rel(root, q);
      assert root + rel == q && rel != [];
      LaidAt(t, root, sel, rel);
    }
  }

  // ----- companion files -----

  /** The way to a checked-in directory or file of a region is clear of links in the workspace. */
  lemma MirrorClear(t0: Tree, t: Tree, repo: Path, root: Path, sel: Selection, written: set<Output>, rel: Path, i: nat)
    requires WellFormed(t0) && Inv(t0, t, repo, root, sel, {}, written)
    requires Region(sel, rel) && repo + rel in t0 && 0 < i <= |rel|
    requires i == |rel| ==> IsDir(t0, repo + rel)
    ensures !IsLink(t, root + rel[..i])
  {
    hide Inv, Region, LinkPlace, WellFormed;
    WellFormedAbove(t0, repo + rel);
    assert (repo + rel)[..|repo| + i] == repo + rel[..i];
    assert i < |rel| ==> IsDir(t0, (repo + rel)[..|repo| + i]);
    assert i == |rel| ==> rel[..i] == rel;
    RegionAvoidsLinks(sel, rel, i);
    if IsLink(t, root + rel[..i]) {
      LinkWhere(t0, t, repo, root, sel, {}, written, rel[..i]);
    }
  }

  /** Nothing that was there is altered. */
  ghost predicate Extends(t: Tree, t': Tree) {
    forall q :: q in t ==> q in t' && t'[q] == t[q]
  }

  lemma MirrorDirectory(t0: Tree, t: Tree, repo: Path, root: Path, sel: Selection, written: set<Output>, rel: Path)
    requires WellFormed(t0) && Inv(t0, t, repo, root, sel, {}, written)
    requires Region(sel, rel) && IsDir(t0, repo + rel)
    ensures var r := MkdirAll(t, root + rel);
            && Inv(t0, r.tree, repo, root, sel, {}, written) && Extends(t, r.tree)
            && (r.ok ==> IsDir(r.tree, root + rel)) && (forall q :: q in r.tree && q !in t ==> r.tree[q] == Dir)
  {
    hide Inv, WellFormed, MkdirAll, Contained, NoLinkAbove;
    forall i | 0 < i <= |rel| ensures !IsLink(t, root + rel[..i]) {
      MirrorClear(t0, t, repo, root, sel, written, rel, i);
    }
    RegionSource(sel, rel);
    InvRoot(t0, t, repo, root, sel, {}, written);
    ClearPath(t, root, rel);
    MkdirAllInPlace(t, root + rel);
    OpContained(t, root, MakeDirsOp(rel));
    ContainedKeepsInv(t0, t, MkdirAll(t, root + rel).tree, repo, root, sel, {}, written, {});
    assert written + {} == written;
  }

  /** Adding one allowed link. */
  lemma LinkKeepsInv(
    t0: Tree, t: Tree, repo: Path, root: Path, sel: Selection, manual: set<string>, written: set<Output>, rel: Path)
    requires Inv(t0, t, repo, root, sel, manual, written) && rel != [] && ClearTo(t, root, rel, |rel| - 1)
    requires LinkOk(t0, repo, root, sel, manual, rel, repo + rel)
    ensures Inv(t0, Symlink(t, repo + rel, root + rel).tree, repo, root, sel, manual, written)
  {
    hide LinkOk, PlanPart, Symlink, DirsAbove, NoLinkAbove;
    ClearPath(t, root, rel);
    SymlinkInPlace(t, repo + rel, root + rel);
    var t' := Symlink(t, repo + rel, root + rel).tree;
    assert Rel(root, root + rel) == rel && root < root + rel;
    assert SameOutside(root, t, t');
    ContainedKeepsRoot(root, t, t');
  }

  lemma MirrorLink(t0: Tree, t: Tree, repo: Path, root: Path, sel: Selection, written: set<Output>, rel: Path)
    requires WellFormed(t0) && Inv(t0, t, repo, root, sel, {}, written) && CompanionPlace(t0, repo, root, sel, rel)
    ensures var r := Symlink(t, repo + rel, root + rel);
            && Inv(t0, r.tree, repo, root, sel, {}, written) && Extends(t, r.tree)
            && (r.ok ==> root + rel in r.tree) && (Lstat(t, root + rel) != None ==> root + rel in t)
            && (forall q :: q in r.tree && q !in t ==> q == root + rel && r.tree[q] == Link(repo + rel))
  {
    hide Inv, WellFormed, Symlink, Region, NoLinkAbove, Resolve;
    forall i | 0 < i <= |rel| - 1 ensures !IsLink(t, root + rel[..i]) {
      MirrorClear(t0, t, repo, root, sel, written, rel, i);
    }
    InvRoot(t0, t, repo, root, sel, {}, written);
    ClearPath(t, root, rel);
    SymlinkInPlace(t, repo + rel, root + rel);
    ResolveInPlace(t, root + rel, false);
    LinkKeepsInv(t0, t, repo, root, sel, {}, written, rel);
  }

  /** What mirroring owes one entry below `base`. */
  ghost predicate Mirrored(t0: Tree, t: Tree, src: Path, dst: Path, shouldLink: Path -> bool, sub: Path) {
    && (IsDir(t0, src + sub) ==> IsDir(t, dst + sub))
    && (src + sub in t0 && !IsDir(t0, src + sub) && shouldLink(sub) ==> dst + sub in t)
  }

  /** What mirroring adds: directories, and links to the same place for entries that should be linked. */
  ghost predicate NewMirrors(t: Tree, t': Tree, src: Path, dst: Path, shouldLink: Path -> bool) {
    forall q :: q in t' && q !in t ==>
      t'[q] == Dir || exists sub :: shouldLink(sub) && q == dst + sub && t'[q] == Link(src + sub)
  }

  lemma NewMirrorsThen(t: Tree, t': Tree, t'': Tree, src: Path, dst: Path, shouldLink: Path -> bool)
    requires Extends(t', t'') && NewMirrors(t, t', src, dst, shouldLink) && NewMirrors(t', t'', src, dst, shouldLink)
    ensures NewMirrors(t, t'', src, dst, shouldLink)
  {
  }

  /** What the walk below `base` finds: what was there at the start. */
  lemma CompanionWalk(t0: Tree, t: Tree, repo: Path, root: Path, sel: Selection, base: Path)
    requires Ready(t0, repo, root) && SameOutside(root, t0, t) && Region(sel, base)
             && Direct(t0, repo, base[..|base| - 1])
    ensures var src := repo + base;
            && (src in t <==> src in t0) && (Stat(t, src) == None ==> src !in t || IsLink(t0, src))
            && (src !in t ==> Stat(t, src) == None && Below(t0, src) == {})
            && (src in t ==> Resolve(t, src, false) == Some(src))
            && Below(t, src) == Below(t0, src)
            && (forall sub :: IsDir(t, src + sub) <==> IsDir(t0, src + sub))
  {
    hide WellFormed, Resolve, Separate, DirsAbove, Below, Direct, Rooted, ChildNames;
    var src := repo + base;
    RegionSource(sel, base);
    ReadyParts(t0, repo, root);
    assert repo + [base[0]] + base[1..] == src && [base[0]] + base[1..] == base && src <= src;
    SourceSame(t0, t, repo, root, base[0], base[1..]);
    SourceAbove(t0, t, repo, root, base[0], base[1..], |base| - 1);
    assert NoLinkAbove(t, src);
    ResolveInPlace(t, src, false);
    if !IsLink(t, src) {
      ResolveInPlace(t, src, true);
    }
    forall sub ensures sub in Below(t, src) <==> sub in Below(t0, src)
               ensures IsDir(t, src + sub) <==> IsDir(t0, src + sub)
    {
      assert src <= src + sub;
      assert sub in Below(t, src) <==> src + sub in t;
      assert sub in Below(t0, src) <==> src + sub in t0;
    }
    if src !in t0 {
      NothingBelow(t0, src);
    }
  }

  lemma NothingBelow(t: Tree, src: Path)
    requires WellFormed(t) && src !in t
    ensures Below(t, src) == {}
  {
    hide WellFormed;
    if sub :| sub in Below(t, src) {
      TopExists(t, src, sub);
    }
  }

  lemma TopExists(t: Tree, src: Path, sub: Path)
    requires WellFormed(t) && src + sub in t
    ensures src in t
  {
    hide WellFormed;
    WellFormedAbove(t, src + sub);
    assert (src + sub)[..|src|] == src;
    assert sub == [] ==> src + sub == src;
  }

  /** `preserveRuntimeCheckCompanionGoFiles`: mirror the directories below `base`, and link the files that
      should be linked and are not there yet.  No existing path is altered, and on success every entry
      has been dealt with, unless `base` itself is a link. */
  method PreserveCompanions(
    disk: Disk, ghost t0: Tree, repo: Path, root: Path, sel: Selection, base: Path, shouldLink: Path -> bool,
    ghost written: set<Output>)
    returns (ok: bool)
    requires Ready(t0, repo, root) && Inv(t0, disk.tree, repo, root, sel, {}, written)
    requires Region(sel, base) && Direct(t0, repo, base[..|base| - 1])
    requires forall sub :: repo + base + sub in t0 && !IsDir(t0, repo + base + sub) && shouldLink(sub) ==>
               CompanionPlace(t0, repo, root, sel, base + sub)
    modifies disk
    ensures Inv(t0, disk.tree, repo, root, sel, {}, written) && Extends(old(disk.tree), disk.tree)
    ensures ok && !IsLink(t0, repo + base) ==>
              forall sub :: sub in Below(t0, repo + base) ==>
                  Mirrored(t0, disk.tree, repo + base, root + base, shouldLink, sub)
    ensures NewMirrors(old(disk.tree), disk.tree, repo + base, root + base, shouldLink)
    ensures repo + base !in t0 ==> ok && disk.tree == old(disk.tree)
  {
    hide Ready, Inv, Region, Direct, CompanionPlace, MkdirAll, Symlink, Lstat, Listing, PathLess, Walk, SameOutside,
         Below, IsDir, IsLink, NewMirrors,
         WellFormed;
    var src, dst := repo + base, root + base;
    InvRoot(t0, disk.tree, repo, root, sel, {}, written);
    NothingNew(disk.tree, src, dst, shouldLink);
    CompanionWalk(t0, disk.tree, repo, root, sel, base);
    if Stat(disk.tree, src) == None {
      return true;
    }
    var rels := disk.WalkDir(src);
    WalkCovers(t0, disk.tree, src, rels);
    for i := 0 to |rels|
      invariant Inv(t0, disk.tree, repo, root, sel, {}, written) && Extends(old(disk.tree), disk.tree)
      invariant NewMirrors(old(disk.tree), disk.tree, src, dst, shouldLink)
      invariant forall k :: 0 <= k < i ==> Mirrored(t0, disk.tree, src, dst, shouldLink, rels[k])
    {
      var sub := rels[i];
      ghost var t := disk.tree;
      assert dst + sub == root + (base + sub) && src + sub == repo + (base + sub);
      InvRoot(t0, t, repo, root, sel, {}, written);
      CompanionWalk(t0, t, repo, root, sel, base);
      EntryStep(t0, t, repo, root, sel, base, shouldLink, written, sub);
      NothingNew(t, src, dst, shouldLink);
      if IsDir(disk.tree, src + sub) {
        ok := disk.MakeDirs(dst + sub);
        NewMirrorsThen(old(disk.tree), t, disk.tree, src, dst, shouldLink);
        if !ok { return; }
      } else if shouldLink(sub) {
        if Lstat(disk.tree, dst + sub) == None {
          ok := disk.Link(src + sub, dst + sub);
          NewMirrorsThen(old(disk.tree), t, disk.tree, src, dst, shouldLink);
          if !ok { return; }
        }
      }
      MirroredKept(t0, t, disk.tree, src, dst, shouldLink, rels, i);
    }
    ok := true;
  }

  lemma NothingNew(t: Tree, src: Path, dst: Path, shouldLink: Path -> bool)
    ensures NewMirrors(t, t, src, dst, shouldLink)
  {
  }

  lemma WalkCovers(t0: Tree, t: Tree, src: Path, rels: seq<Path>)
    requires Below(t, src) == Below(t0, src) && Resolve(t, src, false) == Some(src)
    requires Resolve(t, src, false).Some? ==> rels == Listing(PathLess, Below(t, Resolve(t, src, false).value))
    requires src in t
    ensures forall sub :: sub in Below(t0, src) <==> sub in rels
  {
    hide Below, Listing, PathLess, Walk;
    PathLessIsStrictTotal();
    ListingSpec(PathLess, Below(t, src));
    assert forall sub :: sub in rels <==> sub in Elems(rels);
  }

  lemma MirroredKept(
    t0: Tree, t: Tree, t': Tree, src: Path, dst: Path, shouldLink: Path -> bool, rels: seq<Path>, i: nat)
    requires Extends(t, t') && i < |rels|
    requires forall k :: 0 <= k < i ==> Mirrored(t0, t, src, dst, shouldLink, rels[k])
    requires Mirrored(t0, t', src, dst, shouldLink, rels[i])
    ensures forall k :: 0 <= k < i + 1 ==> Mirrored(t0, t', src, dst, shouldLink, rels[k])
  {
  }

  /** One entry of the walk. */
  lemma EntryStep(
    t0: Tree, t: Tree, repo: Path, root: Path, sel: Selection, base: Path, shouldLink: Path -> bool,
    written: set<Output>, sub: Path)
    requires Ready(t0, repo, root) && Inv(t0, t, repo, root, sel, {}, written) && Region(sel, base)
    requires forall sub :: repo + base + sub in t0 && !IsDir(t0, repo + base + sub) && shouldLink(sub) ==>
               CompanionPlace(t0, repo, root, sel, base + sub)
    requires sub in Below(t0, repo + base)
    ensures var src, dst := repo + base, root + base;
            var r := if IsDir(t0, src + sub) then MkdirAll(t, dst + sub)
                     else if shouldLink(sub) && Lstat(t, dst + sub) == None then Symlink(t, src + sub, dst + sub)
                     else Outcome(t, true);
            && Inv(t0, r.tree, repo, root, sel, {}, written) && Extends(t, r.tree)
            && (r.ok ==> Mirrored(t0, r.tree, src, dst, shouldLink, sub))
            && NewMirrors(t, r.tree, src, dst, shouldLink)
  {
    hide Inv, Region, CompanionPlace, MkdirAll, Symlink, Lstat, Ready, Below, IsDir, NoLinkAbove, Resolve;
    var rel := base + sub;
    assert repo + base + sub == repo + rel && root + base + sub == root + rel;
    assert WellFormed(t0) by { ReadyParts(t0, repo, root); }
    RegionDown(sel, base, sub);
    if IsDir(t0, repo + rel) {
      MirrorDirectory(t0, t, repo, root, sel, written, rel);
    } else if shouldLink(sub) {
      MirrorLink(t0, t, repo, root, sel, written, rel);
    }
  }

  lemma RegionSource(sel: Selection, base: Path)
    requires Region(sel, base)
    ensures base != [] && base[0] in SOURCE_DIRS
  {
  }

  /** The way to the packages that have companions. */
  lemma BaseDirect(t: Tree, repo: Path, root: Path, sel: Selection, base: Path)
    requires Ready(t, repo, root) && SelectionOk(t, repo, sel) && Region(sel, base)
    requires |base| == if base[0] == "controllers" then 2 else 3
    ensures Direct(t, repo, base[..|base| - 1])
  {
    hide Separate;
    var above := base[..|base| - 1];
    if base[0] == "controllers" {
      assert above == ["controllers"];
    } else if base[0] == "pkg" {
      assert above == ["pkg", "servicemanager"];
    } else {
      var g := base[1];
      assert above == ["api", g] && !IsLink(t, repo + ["api", g]);
      forall i | 0 < i <= 2 ensures !IsLink(t, repo + above[..i]) {
        assert above[..i] == ["api"] || above[..i] == ["api", g];
        assert ["api"][..1] == ["api"];
      }
    }
  }

  lemma RegionDown(sel: Selection, base: Path, sub: Path)
    requires Region(sel, base)
    ensures Region(sel, base + sub)
  {
  }

  // ----- manual service-manager roots -----

  lemma ManualKeepsInv(
    t0: Tree, t: Tree, repo: Path, root: Path, sel: Selection, manual: set<string>, written: set<Output>, r: string)
    requires Inv(t0, t, repo, root, sel, manual, written) && r in manual
    ensures var t' := Symlink(t, repo + ["pkg", "servicemanager", r], root + ["pkg", "servicemanager", r]).tree;
            && Inv(t0, t', repo, root, sel, manual, written) && Extends(t, t')
            && (forall q :: q in t' && q !in t ==> ManualLink(repo, root, q, t'[q], r))
  {
    hide Inv, Symlink, NoLinkAbove, RootOk;
    InvRoot(t0, t, repo, root, sel, manual, written);
    var rel := ["pkg", "servicemanager", r];
    forall i | 0 < i <= |rel| - 1 ensures !IsLink(t, root + rel[..i]) {
      if IsLink(t, root + rel[..i]) {
        LinkWhere(t0, t, repo, root, sel, manual, written, rel[..i]);
      }
    }
    LinkKeepsInv(t0, t, repo, root, sel, manual, written, rel);
    ClearPath(t, root, rel);
    SymlinkInPlace(t, repo + rel, root + rel);
  }

  lemma ManualMore(
    t0: Tree, t: Tree, repo: Path, root: Path, sel: Selection, manual: set<string>, more: set<string>,
    written: set<Output>)
    requires Inv(t0, t, repo, root, sel, manual, written) && manual <= more
    ensures Inv(t0, t, repo, root, sel, more, written)
  {
    hide CompanionPlace, LinkPlace;
  }

  /** What the two `os.Lstat` calls of `preserveManualServiceManagerRoots` see. */
  lemma ManualSeen(
    t0: Tree, t: Tree, repo: Path, root: Path, sel: Selection, manual: set<string>, written: set<Output>, r: string)
    requires Ready(t0, repo, root) && Inv(t0, t, repo, root, sel, manual, written) && r in manual
    ensures var src, dest := repo + ["pkg", "servicemanager", r], root + ["pkg", "servicemanager", r];
            && (Lstat(t, src) != None <==> src in t0) && (Lstat(t, dest) != None ==> dest in t)
            && (Symlink(t, src, dest).ok ==> dest in Symlink(t, src, dest).tree)
  {
    hide Inv, Ready, Resolve, NoLinkAbove, SameOutside;
    InvRoot(t0, t, repo, root, sel, manual, written);
    ManualSource(t0, t, repo, root, r);
    ManualClear(t0, t, repo, root, sel, manual, written, r);
    ResolveInPlace(t, root + ["pkg", "servicemanager", r], false);
  }

  lemma ManualSource(t0: Tree, t: Tree, repo: Path, root: Path, r: string)
    requires Ready(t0, repo, root) && SameOutside(root, t0, t)
    ensures Lstat(t, repo + ["pkg", "servicemanager", r]) != None <==> repo + ["pkg", "servicemanager", r] in t0
  {
    hide Ready, Resolve, NoLinkAbove, DirsAbove, SameOutside;
    var src := repo + ["pkg", "servicemanager", r];
    ManualSourceNode(t0, t, repo, root, r);
    ResolveInPlace(t, src, false);
  }

  lemma ManualSourceNode(t0: Tree, t: Tree, repo: Path, root: Path, r: string)
    requires Ready(t0, repo, root) && SameOutside(root, t0, t)
    ensures var src := repo + ["pkg", "servicemanager", r];
            NoLinkAbove(t, src) && (src in t <==> src in t0) && (src in t ==> DirsAbove(t, src))
  {
    hide Ready, Separate, Direct, NoLinkAbove, DirsAbove, Rooted, ChildNames, SameOutside, IsLink;
    var sub := ["servicemanager", r];
    var src := repo + ["pkg"] + sub;
    ReadyParts(t0, repo, root);
    assert src == repo + ["pkg", "servicemanager", r] && src <= src;
    assert (["pkg"] + sub)[..2] == ["pkg", "servicemanager"];
    SourceSame(t0, t, repo, root, "pkg", sub);
    SourceAbove(t0, t, repo, root, "pkg", sub, 2);
    AboveUnlinked(t, src, |repo| + 2);
  }

  lemma AboveUnlinked(t: Tree, p: Path, n: nat)
    requires n + 1 == |p| && forall i :: 0 <= i <= n ==> !IsLink(t, p[..i])
    ensures NoLinkAbove(t, p)
  {
  }

  lemma ManualClear(
    t0: Tree, t: Tree, repo: Path, root: Path, sel: Selection, manual: set<string>, written: set<Output>, r: string)
    requires Inv(t0, t, repo, root, sel, manual, written)
    ensures NoLinkAbove(t, root + ["pkg", "servicemanager", r])
  {
    hide Inv, NoLinkAbove, RootOk;
    InvRoot(t0, t, repo, root, sel, manual, written);
    var rel := ["pkg", "servicemanager", r];
    forall i | 0 < i <= |rel| - 1 ensures !IsLink(t, root + rel[..i]) {
      if IsLink(t, root + rel[..i]) {
        LinkWhere(t0, t, repo, root, sel, manual, written, rel[..i]);
      }
    }
    ClearPath(t, root, rel);
  }

  /** A manual root that the checkout has is in the workspace. */
  ghost predicate ManualThere(t0: Tree, t: Tree, repo: Path, root: Path, r: string) {
    r != "" && repo + ["pkg", "servicemanager", r] in t0 ==> root + ["pkg", "servicemanager", r] in t
  }

  predicate ManualLink(repo: Path, root: Path, q: Path, node: Node, r: string) {
    q == root + ["pkg", "servicemanager", r] && node == Link(repo + ["pkg", "servicemanager", r])
  }

  /** What linking manual roots adds: links to the roots that are named. */
  ghost predicate NewManual(t: Tree, t': Tree, repo: Path, root: Path, manual: seq<string>) {
    forall q :: q in t' && q !in t ==>
      exists r :: r in manual && TrimSpace(r) != "" && ManualLink(repo, root, q, t'[q], TrimSpace(r))
  }

  /** `preserveManualServiceManagerRoots`: on success every named root that the checkout has is in the workspace;
      no existing path is altered. */
  method PreserveManualRoots(
    disk: Disk, ghost t0: Tree, repo: Path, root: Path, sel: Selection, manual: seq<string>, ghost written: set<Output>)
    returns (ok: bool)
    requires Ready(t0, repo, root) && Inv(t0, disk.tree, repo, root, sel, {}, written)
    modifies disk
    ensures Inv(t0, disk.tree, repo, root, sel, set r | r in manual :: TrimSpace(r), written)
    ensures Extends(old(disk.tree), disk.tree)
    ensures ok ==> forall r :: r in manual ==> ManualThere(t0, disk.tree, repo, root, TrimSpace(r))
    ensures NewManual(old(disk.tree), disk.tree, repo, root, manual)
    ensures manual == [] ==> ok && disk.tree == old(disk.tree)
  {
    hide Inv, Symlink, Lstat, TrimSpace, WellFormed, Ready;
    ghost var names := set r | r in manual :: TrimSpace(r);
    ManualMore(t0, disk.tree, repo, root, sel, {}, names, written);
    for i := 0 to |manual|
      invariant Inv(t0, disk.tree, repo, root, sel, names, written) && Extends(old(disk.tree), disk.tree)
      invariant NewManual(old(disk.tree), disk.tree, repo, root, manual)
      invariant forall k :: 0 <= k < i ==> ManualThere(t0, disk.tree, repo, root, TrimSpace(manual[k]))
      invariant i == 0 ==> disk.tree == old(disk.tree)
    {
      var r := TrimSpace(manual[i]);
      var src, dest := repo + ["pkg", "servicemanager", r], root + ["pkg", "servicemanager", r];
      assert manual[i] in manual && r in names;
      ManualSeen(t0, disk.tree, repo, root, sel, names, written, r);
      if r != "" && Lstat(disk.tree, dest) == None && Lstat(disk.tree, src) != None {
        ManualKeepsInv(t0, disk.tree, repo, root, sel, names, written, r);
        ok := disk.Link(src, dest);
        if !ok { return; }
      }
    }
    ok := true;
  }

  // ----- controller-gen -----

  datatype Deepcopy = Deepcopy(rel: Path, content: string)

  const DEEPCOPY := "zz_generated.deepcopy.go"

  /** controller-gen writes one file name, into packages of the selected API groups. */
  predicate DeepcopyScope(sel: Selection, rel: Path) {
    |rel| >= 3 && rel[0] == "api" && rel[1] in sel.groups && Last(rel) == DEEPCOPY
  }

  /** The package pattern `./api/<group>/...` only reaches real directories. */
  predicate Reached(t: Tree, p: Path) {
    forall i :: 0 <= i < |p| ==> IsDir(t, p[..i])
  }

  lemma DeepcopyKeepsInv(
    t0: Tree, t: Tree, repo: Path, root: Path, sel: Selection, manual: set<string>, written: set<Output>, rel: Path,
    content: string)
    requires Inv(t0, t, repo, root, sel, manual, written) && DeepcopyScope(sel, rel) && Reached(t, root + rel)
    ensures Inv(t0, WriteFile(t, root + rel, content).tree, repo, root, sel, manual, written)
  {
    hide LinkOk, WriteFile, RootOk;
    var p := root + rel;
    assert root < p && Rel(root, p) == rel;
    if IsLink(t, p) {
      DeepcopyNotLinked(t0, repo, root, sel, manual, rel, t[p].target);
    }
    WriteInPlace(t, p, content);
    var t' := WriteFile(t, p, content).tree;
    assert SameOutside(root, t, t');
    ContainedKeepsRoot(root, t, t');
  }

  lemma DeepcopyNotLinked(
    t0: Tree, repo: Path, root: Path, sel: Selection, manual: set<string>, rel: Path, target: Path)
    requires DeepcopyScope(sel, rel)
    ensures !LinkOk(t0, repo, root, sel, manual, rel, target)
  {
  }

  /** Nothing disappears or changes its kind, and only files of the API directory change their content. */
  ghost predicate Keeps(root: Path, t: Tree, t': Tree) {
    forall q :: q in t ==> q in t' && (t'[q] == t[q] || (root + ["api"] <= q && t[q].File? && t'[q].File?))
  }

  ghost predicate SameBeside(p: Path, t: Tree, t': Tree) {
    forall q :: !(p <= q) ==> (q in t <==> q in t') && (q in t ==> t'[q] == t[q])
  }

  lemma DeepcopyWrites(
    t0: Tree, t: Tree, repo: Path, root: Path, sel: Selection, manual: set<string>, written: set<Output>, rel: Path,
    content: string)
    requires Inv(t0, t, repo, root, sel, manual, written) && DeepcopyScope(sel, rel) && Reached(t, root + rel)
    ensures var r := WriteFile(t, root + rel, content);
            && Keeps(root, t, r.tree) && SameBeside(root + ["api"], t, r.tree)
            && (r.ok ==> r.tree == t[root + rel := File(content)] && !IsDir(t, root + rel))
            && (!r.ok ==> r.tree == t)
            && (forall p :: Reached(t, p) <==> Reached(r.tree, p))
  {
    hide LinkOk, WriteFile, RootOk, Inv;
    var p := root + rel;
    assert root + ["api"] <= p by { assert p[..|root| + 1] == root + ["api"]; }
    if IsLink(t, p) {
      LinkWhere(t0, t, repo, root, sel, manual, written, rel);
      DeepcopyNotLinked(t0, repo, root, sel, manual, rel, t[p].target);
    }
    WriteInPlace(t, p, content);
    var t' := WriteFile(t, p, content).tree;
    forall x ensures IsDir(t, x) <==> IsDir(t', x) {
    }
  }

  /** Every deepcopy file that a package pattern reaches is there, with content that was given for it. */
  ghost predicate Deepcopied(t: Tree, root: Path, outputs: seq<Deepcopy>, rel: Path) {
    root + rel in t && exists o :: o in outputs && o.rel == rel && t[root + rel] == File(o.content)
  }

  /** Whatever is new or changed is one of the files to write. */
  ghost predicate NewDeepcopies(t: Tree, t': Tree, root: Path, outputs: seq<Deepcopy>) {
    forall q :: q in t' && !(q in t && t'[q] == t[q]) ==>
      exists o :: o in outputs && q == root + o.rel && t'[q] == File(o.content)
  }

  method RunControllerGen(
    disk: Disk, ghost t0: Tree, repo: Path, root: Path, sel: Selection, ghost manual: set<string>,
    ghost written: set<Output>, outputs: seq<Deepcopy>)
    returns (ok: bool)
    requires Inv(t0, disk.tree, repo, root, sel, manual, written)
    requires forall o :: o in outputs ==> DeepcopyScope(sel, o.rel)
    modifies disk
    ensures Inv(t0, disk.tree, repo, root, sel, manual, written)
    ensures Keeps(root, old(disk.tree), disk.tree) && SameBeside(root + ["api"], old(disk.tree), disk.tree)
    ensures ok ==> forall o :: o in outputs && Reached(disk.tree, root + o.rel) ==>
            Deepcopied(disk.tree, root, outputs, o.rel)
    ensures NewDeepcopies(old(disk.tree), disk.tree, root, outputs)
    ensures outputs == [] ==> ok && disk.tree == old(disk.tree)
  {
    hide Inv, WriteFile, DeepcopyScope, WellFormed, Reached;
    for i := 0 to |outputs|
      invariant Inv(t0, disk.tree, repo, root, sel, manual, written)
      invariant Keeps(root, old(disk.tree), disk.tree) && SameBeside(root + ["api"], old(disk.tree), disk.tree)
      invariant NewDeepcopies(old(disk.tree), disk.tree, root, outputs)
      invariant forall k :: 0 <= k < i && Reached(disk.tree, root + outputs[k].rel) ==>
                  Deepcopied(disk.tree, root, outputs, outputs[k].rel)
      invariant i == 0 ==> disk.tree == old(disk.tree)
    {
      var o := outputs[i];
      if Reached(disk.tree, root + o.rel) {
        ghost var t := disk.tree;
        DeepcopyKeepsInv(t0, t, repo, root, sel, manual, written, o.rel, o.content);
        DeepcopyWrites(t0, t, repo, root, sel, manual, written, o.rel, o.content);
        ok := disk.Write(root + o.rel, o.content);
        NewDeepcopiesThen(old(disk.tree), t, disk.tree, root, outputs, i);
        if !ok { return; }
        DeepcopiesStay(t, root, outputs, i);
      }
    }
    ok := true;
  }

  lemma NewDeepcopiesThen(t: Tree, t': Tree, t'': Tree, root: Path, outputs: seq<Deepcopy>, i: nat)
    requires i < |outputs| && NewDeepcopies(t, t', root, outputs)
    requires t'' == t' || t'' == t'[root + outputs[i].rel := File(outputs[i].content)]
    ensures NewDeepcopies(t, t'', root, outputs)
  {
    assert outputs[i] in outputs;
  }

  lemma DeepcopiesStay(t: Tree, root: Path, outputs: seq<Deepcopy>, i: nat)
    requires i < |outputs|
    ensures var t' := t[root + outputs[i].rel := File(outputs[i].content)];
            && Deepcopied(t', root, outputs, outputs[i].rel)
            && forall k :: 0 <= k < i && Deepcopied(t, root, outputs, outputs[k].rel) ==>
                 Deepcopied(t', root, outputs, outputs[k].rel)
  {
    var o := outputs[i];
    var t' := t[root + o.rel := File(o.content)];
    assert o in outputs;
    forall k | 0 <= k < i && Deepcopied(t, root, outputs, outputs[k].rel)
      ensures Deepcopied(t', root, outputs, outputs[k].rel)
    {
      if root + outputs[k].rel == root + o.rel {
        assert outputs[k].rel == (root + o.rel)[|root|..] == o.rel;
      }
    }
  }
}
