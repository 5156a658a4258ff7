/**
 Whole runs of the coverage tool.
 */
module CoverageRun {
  import opened Orders
  import opened Text
  import opened FileSystem
  import opened Snapshot
  import opened Isolation
  import opened Workspace
  import opened BuildPlan
  import opened RuntimeRun
  import opened Doorways
  import opened Coverage

  // ----- how far the generator reaches -----

  /** The parts of the checkout that generator output is linked to: the commands, and generated registrations. */
  ghost predicate Zone(repo: Path, q: Path) {
    || repo + ["cmd"] <= q
    || (|q| == |repo| + 3 && q[..|repo| + 2] == repo + ["internal", "registrations"]
        && HasSuffix(q[|repo| + 2], "_generated.go"))
  }

  /** There are no further links there, and the workspace is not there. */
  ghost predicate ZonePlain(t: Tree, repo: Path, root: Path) {
    && IsDir(t, repo + ["cmd"]) && !(repo + ["cmd"] <= root)
    && forall q :: Zone(repo, q) ==> !IsLink(t, q)
  }

  /** Any operation in the generator's output scope, behind a link or not. */
  predicate OutputOp(sel: Selection, op: ToolOp) {
    OutputScope(sel, op.rel) || (op.RemoveOp? && RemoveScope(sel, op.rel))
  }

  /** What holds between two operations. */
  ghost predicate Guard(t: Tree, repo: Path, root: Path, sel: Selection) {
    && WellFormed(t) && RootOk(t, root) && IsDir(t, repo) && ZonePlain(t, repo, root)
    && !(root <= repo) && !(repo + ["internal"] <= root)
    && Direct(t, repo, ["internal", "registrations"])
    && (forall q :: root < q && IsLink(t, q) ==> LinkPlace(sel, Rel(root, q)))
    && (IsLink(t, root + ["cmd"]) ==> t[root + ["cmd"]].target == repo + ["cmd"])
    && (forall n :: IsLink(t, root + ["internal", "registrations", n]) ==>
          t[root + ["internal", "registrations", n]].target == repo + ["internal", "registrations", n])
  }

  /** What an operation may change: inside the workspace, where only written files are new, and in the zone. */
  ghost predicate Bounded(repo: Path, root: Path, t: Tree, t': Tree, written: set<Output>) {
    && (forall q :: !(root < q) && !Zone(repo, q) ==> (q in t <==> q in t') && (q in t ==> t[q] == t'[q]))
    && NoNewLinks(t, t')
    && (IsDir(t, repo + ["cmd"]) ==> IsDir(t', repo + ["cmd"]))
    && (forall q :: root < q && q in t' && t'[q].File? ==>
        (q in t && t[q] == t'[q]) || Output(q, t'[q].content) in written)
  }

  lemma ZoneOutside(t: Tree, repo: Path, root: Path, sel: Selection, q: Path)
    requires Guard(t, repo, root, sel) && Zone(repo, q)
    ensures !(root <= q)
  {
    hide WellFormed, Zone;
    ZoneUnder(repo, q);
    var d := if repo + ["cmd"] <= q then "cmd" else "internal";
    if root <= q {
      Comparable(root, repo + [d], q);
      PrefixOfChild(root, repo, d);
    }
  }

  lemma ZoneUnder(repo: Path, q: Path)
    requires Zone(repo, q)
    ensures repo + ["cmd"] <= q || repo + ["internal"] <= q
  {
    if !(repo + ["cmd"] <= q) {
      assert q[..|repo| + 1] == q[..|repo| + 2][..|repo| + 1] == repo + ["internal"];
    }
  }

  lemma ContainedIsBounded(t: Tree, t': Tree, repo: Path, root: Path, sel: Selection, written: set<Output>)
    requires Guard(t, repo, root, sel) && Contained(root, t, t', written)
    ensures Bounded(repo, root, t, t', written)
  {
    hide Guard;
    assert Zone(repo, repo + ["cmd"]);
    ZoneOutside(t, repo, root, sel, repo + ["cmd"]);
  }

  /** A change in the zone only. */
  ghost predicate ZoneOnly(repo: Path, t: Tree, t': Tree) {
    && (forall q :: !Zone(repo, q) ==> (q in t <==> q in t') && (q in t ==> t[q] == t'[q]))
    && NoNewLinks(t, t') && IsDir(t', repo + ["cmd"])
  }

  lemma ZoneChangeBounded(t: Tree, t': Tree, repo: Path, root: Path, sel: Selection, written: set<Output>)
    requires Guard(t, repo, root, sel) && ZoneOnly(repo, t, t')
    ensures Bounded(repo, root, t, t', written)
  {
    hide Guard;
    forall q | root < q && q in t' && t'[q].File? ensures q in t && t[q] == t'[q] {
      if Zone(repo, q) {
        ZoneOutside(t, repo, root, sel, q);
      }
    }
  }

  lemma GuardDoorway(t: Tree, repo: Path, root: Path, sel: Selection)
    requires Guard(t, repo, root, sel) && IsLink(t, root + ["cmd"])
    ensures Doorway(t, root + ["cmd"], repo + ["cmd"])
  {
    hide WellFormed, LinkPlace;
    var door, target := root + ["cmd"], repo + ["cmd"];
    WellFormedAbove(t, door);
    WellFormedAbove(t, target);
    forall q | target <= q ensures !IsLink(t, q) {
      assert Zone(repo, q);
    }
  }

  /** An operation on a path behind the `cmd` link acts on the commands of the checkout. */
  lemma CommandsBounded(t: Tree, repo: Path, root: Path, sel: Selection, op: ToolOp)
    requires Guard(t, repo, root, sel) && op.rel != [] && op.rel[0] == "cmd" && IsLink(t, root + ["cmd"])
    requires op.rel == ["cmd"] ==> !op.RemoveOp? && !op.RemoveAllOp?
    ensures Bounded(repo, root, t, Apply(t, root, op).tree, Written(root, op))
  {
    hide Guard, Doorway, MkdirAll, Resolve, NoLinkAbove, DirsAbove, ZoneOnly, Bounded;
    var door, target, tail := root + ["cmd"], repo + ["cmd"], op.rel[1..];
    GuardDoorway(t, repo, root, sel);
    BelowDoorway(t, door, target, tail);
    assert root + op.rel == door + tail;
    var p := target + tail;
    var t' := Apply(t, root, op).tree;
    DoorwayParts(t, door, target);
    match op {
      case MakeDirsOp(_) =>
        MkdirAllEnters(t, door, target, tail);
        MkdirAllInPlace(t, p);
        NewDirsInZone(t, t', repo, p);
      case WriteOp(_, content) =>
        ResolveEnters(t, door, target, tail, true);
        ResolveInPlace(t, p, true);
        assert p != target ==> tail != [];
        assert tail == [] ==> p == target;
        PutInZone(t, repo, p, content);
      case RemoveOp(_) =>
        assert tail != [] by { TailNonEmpty(op.rel); }
        ResolveEnters(t, door, target, tail, false);
        ResolveInPlace(t, p, false);
        RemovedInZone(t, t', repo, p);
      case RemoveAllOp(_) =>
        assert tail != [] by { TailNonEmpty(op.rel); }
        ResolveEnters(t, door, target, tail, false);
        ResolveInPlace(t, p, false);
        RemovedInZone(t, t', repo, p);
    }
    ZoneChangeBounded(t, t', repo, root, sel, Written(root, op));
  }

  lemma TailNonEmpty(rel: Path)
    requires rel != [] && rel[0] == "cmd" && rel != ["cmd"]
    ensures rel[1..] != []
  {
    if |rel| == 1 {
      Single(rel);
    }
  }

  lemma Single(rel: Path)
    requires |rel| == 1
    ensures rel == [rel[0]]
  {
  }

  lemma NewDirsInZone(t: Tree, t': Tree, repo: Path, p: Path)
    requires OnlyNewDirs(t, t', p) && repo + ["cmd"] <= p && IsDir(t, repo + ["cmd"]) && DirsAbove(t, repo + ["cmd"])
    ensures ZoneOnly(repo, t, t')
  {
    var target := repo + ["cmd"];
    forall q | q in t' && q !in t ensures Zone(repo, q) {
      Comparable(q, target, p);
      if q <= target {
        AboveRoot(t, target, q);
      }
    }
  }

  lemma PutInZone(t: Tree, repo: Path, p: Path, content: string)
    requires repo + ["cmd"] <= p && IsDir(t, repo + ["cmd"])
    ensures !IsDir(t, p) ==> ZoneOnly(repo, t, t[p := File(content)])
    ensures ZoneOnly(repo, t, t)
  {
    assert Zone(repo, p);
  }

  lemma RemovedInZone(t: Tree, t': Tree, repo: Path, p: Path)
    requires repo + ["cmd"] < p && IsDir(t, repo + ["cmd"])
    requires forall q :: q in t' ==> q in t && t'[q] == t[q]
    requires forall q :: q in t && !(p <= q) ==> q in t'
    ensures ZoneOnly(repo, t, t')
  {
    forall q | q in t && q !in t' ensures Zone(repo, q) {
      assert repo + ["cmd"] <= p <= q;
    }
  }

  /** Making directories or writing at a registration file that is linked. */
  lemma RegistrationBounded(t: Tree, repo: Path, root: Path, sel: Selection, op: ToolOp, n: string)
    requires Guard(t, repo, root, sel) && op.rel == ["internal", "registrations", n] && HasSuffix(n, "_generated.go")
    requires IsLink(t, root + op.rel) && (op.MakeDirsOp? || op.WriteOp?)
    ensures Bounded(repo, root, t, Apply(t, root, op).tree, Written(root, op))
  {
    hide Guard, Resolve, NoLinkAbove, DirsAbove, Zone, Bounded, MkdirAll, ZoneOnly;
    var p, target := root + op.rel, repo + op.rel;
    RegistrationTarget(t, repo, root, sel, n);
    ResolveThroughLink(t, p);
    if op.MakeDirsOp? {
      assert root + ["internal", "registrations"] + [n] == p;
      LinkInTheWay(t, root + ["internal", "registrations"], n);
      ZoneUnchanged(t, repo);
    } else {
      PutRegistration(t, repo, target, op.content);
      ZoneUnchanged(t, repo);
    }
    ZoneChangeBounded(t, Apply(t, root, op).tree, repo, root, sel, Written(root, op));
  }

  lemma ZoneUnchanged(t: Tree, repo: Path)
    ensures IsDir(t, repo + ["cmd"]) ==> ZoneOnly(repo, t, t)
  {
  }

  lemma PutRegistration(t: Tree, repo: Path, q: Path, content: string)
    requires Zone(repo, q) && q != repo + ["cmd"] && IsDir(t, repo + ["cmd"])
    ensures ZoneOnly(repo, t, t[q := File(content)])
  {
  }

  /** The link of a registration, and the way to its target. */
  lemma RegistrationTarget(t: Tree, repo: Path, root: Path, sel: Selection, n: string)
    requires Guard(t, repo, root, sel) && HasSuffix(n, "_generated.go")
             && IsLink(t, root + ["internal", "registrations", n])
    ensures var p, target := root + ["internal", "registrations", n], repo + ["internal", "registrations", n];
            && t[p].target == target && NoLinkAbove(t, p) && DirsAbove(t, p) && NoLinkAbove(t, target)
            && !IsLink(t, target)
            && Zone(repo, target) && target != repo + ["cmd"] && IsDir(t, repo + ["cmd"])
  {
    hide WellFormed, LinkPlace, HasSuffix;
    var rel := ["internal", "registrations", n];
    var p, target := root + rel, repo + rel;
    WellFormedAbove(t, p);
    DirsAboveHaveNoLinks(t, p);
    WellFormedAbove(t, repo);
    assert target[..|repo| + 2] == repo + ["internal", "registrations"] && target[|repo| + 2] == n;
    assert |target| != |repo + ["cmd"]|;
    forall i | 0 <= i < |target| ensures !IsLink(t, target[..i]) {
      if i < |repo| {
        assert target[..i] == repo[..i];
        assert IsDir(t, repo[..i]);
      } else if i == |repo| {
        assert target[..i] == repo;
      } else {
        assert target[..i] == repo + ["internal", "registrations"][..i - |repo|];
      }
    }
  }

  /** Making a directory where a link is changes nothing. */
  lemma LinkInTheWay(t: Tree, dir: Path, n: string)
    requires IsLink(t, dir + [n]) && DirsAbove(t, dir + [n])
    ensures MkdirAll(t, dir + [n]).tree == t
  {
    hide Resolve, NoLinkAbove, DirsAbove;
    var p := dir + [n];
    assert p[..|p| - 1] == dir;
    ParentThere(t, dir, n);
    DirsAboveHaveNoLinks(t, p);
    ResolveInPlace(t, p, false);
  }

  /** On the way to an output path only `cmd` and a registration file itself can be link places. */
  lemma OutputLinkPlaces(sel: Selection, rel: Path, i: nat)
    requires OutputScope(sel, rel) && sel.tool.CoverageTool? && 0 < i <= |rel| && LinkPlace(sel, rel[..i])
    ensures (rel[0] == "cmd" && i == 1)
            || (i == |rel| == 3 && rel[0] == "internal" && rel[1] == "registrations"
                && HasSuffix(rel[2], "_generated.go"))
  {
    if Region(sel, rel) {
      RegionAvoidsLinks(sel, rel, i);
    } else {
      var p := rel[..i];
      assert forall k :: 0 <= k < i ==> p[k] == rel[k];
    }
  }

  lemma GuardLink(t: Tree, repo: Path, root: Path, sel: Selection, rel: Path)
    requires Guard(t, repo, root, sel) && rel != [] && IsLink(t, root + rel)
    ensures LinkPlace(sel, rel)
  {
    hide LinkPlace, WellFormed;
    assert root < root + rel && Rel(root, root + rel) == rel;
  }

  lemma OutputOpNonEmpty(sel: Selection, op: ToolOp)
    requires OutputOp(sel, op)
    ensures op.rel != []
  {
  }

  predicate BehindCommands(t: Tree, root: Path, op: ToolOp)
    requires op.rel != []
  {
    op.rel[0] == "cmd" && IsLink(t, root + ["cmd"]) && !(op.rel == ["cmd"] && (op.RemoveOp? || op.RemoveAllOp?))
  }

  predicate BehindRegistration(t: Tree, root: Path, op: ToolOp) {
    && |op.rel| == 3 && op.rel[0] == "internal" && op.rel[1] == "registrations" && HasSuffix(op.rel[2], "_generated.go")
    && IsLink(t, root + op.rel) && (op.MakeDirsOp? || op.WriteOp?)
  }

  /** An output operation that is not behind a link is clear. */
  lemma OtherwiseClear(t: Tree, repo: Path, root: Path, sel: Selection, op: ToolOp)
    requires Guard(t, repo, root, sel) && OutputOp(sel, op) && sel.tool.CoverageTool? && op.rel != []
    requires !BehindCommands(t, root, op) && !BehindRegistration(t, root, op)
    ensures OpClear(t, root, op)
  {
    hide Guard, OutputScope, RemoveScope, LinkPlace, HasSuffix;
    var rel := op.rel;
    var n := if op.RemoveOp? || op.RemoveAllOp? then |rel| - 1 else |rel|;
    forall i | 0 < i <= n ensures !IsLink(t, root + rel[..i]) {
      assert rel[..1] == [rel[0]];
      assert i == |rel| ==> rel[..i] == rel;
      assert |rel| == 1 ==> rel == [rel[0]];
      if IsLink(t, root + rel[..i]) {
        GuardLink(t, repo, root, sel, rel[..i]);
        if OutputScope(sel, rel) {
          OutputLinkPlaces(sel, rel, i);
        } else {
          RemoveScopeAvoidsLinks(sel, rel, i);
        }
      }
    }
  }

  lemma OpBounded(t: Tree, repo: Path, root: Path, sel: Selection, op: ToolOp)
    requires Guard(t, repo, root, sel) && OutputOp(sel, op) && sel.tool.CoverageTool?
    ensures Bounded(repo, root, t, Apply(t, root, op).tree, Written(root, op))
  {
    hide Guard, OutputOp, Apply, Bounded, OpClear, Contained, RootOk, HasSuffix;
    OutputOpNonEmpty(sel, op);
    if BehindCommands(t, root, op) {
      CommandsBounded(t, repo, root, sel, op);
    } else if BehindRegistration(t, root, op) {
      assert op.rel == ["internal", "registrations", op.rel[2]];
      RegistrationBounded(t, repo, root, sel, op, op.rel[2]);
    } else {
      OtherwiseClear(t, repo, root, sel, op);
      GuardRoot(t, repo, root, sel);
      OpContained(t, root, op);
      ContainedIsBounded(t, Apply(t, root, op).tree, repo, root, sel, Written(root, op));
    }
  }

  lemma GuardRoot(t: Tree, repo: Path, root: Path, sel: Selection)
    requires Guard(t, repo, root, sel)
    ensures RootOk(t, root) && WellFormed(t)
  {
    hide WellFormed, LinkPlace;
  }

  lemma ApplyWellFormed(t: Tree, root: Path, op: ToolOp)
    requires WellFormed(t) && op.rel != []
    ensures WellFormed(Apply(t, root, op).tree)
  {
    hide WellFormed, MkdirAll, WriteFile, Remove, RemoveAll;
    var p := root + op.rel;
    match op {
      case MakeDirsOp(_) => MkdirAllWellFormed(t, p);
      case WriteOp(_, content) => WriteWellFormed(t, p, content);
      case RemoveOp(_) => RemoveWellFormed(t, p);
      case RemoveAllOp(_) => RemoveAllWellFormed(t, p);
    }
  }

  lemma RepoNotInZone(repo: Path)
    ensures !Zone(repo, repo)
  {
  }

  lemma RootNotInZone(t: Tree, repo: Path, root: Path, sel: Selection, q: Path)
    requires Guard(t, repo, root, sel) && q <= root
    ensures !Zone(repo, q)
  {
    hide WellFormed, LinkPlace, Zone;
    if Zone(repo, q) {
      ZoneUnder(repo, q);
    }
  }

  lemma GuardKept(t: Tree, t': Tree, repo: Path, root: Path, sel: Selection, written: set<Output>)
    requires Guard(t, repo, root, sel) && Bounded(repo, root, t, t', written) && WellFormed(t')
    ensures Guard(t', repo, root, sel)
  {
    hide WellFormed, LinkPlace, Zone;
    forall q | q <= root ensures !Zone(repo, q) {
      RootNotInZone(t, repo, root, sel, q);
    }
    forall i | 0 <= i < |root| ensures IsDir(t', root[..i]) {
      assert root[..i] <= root && IsDir(t, root[..i]);
    }
    RepoNotInZone(repo);
    assert !(root < repo);
    forall i | 0 < i <= 2 ensures !IsLink(t', repo + ["internal", "registrations"][..i]) {
      assert !IsLink(t, repo + ["internal", "registrations"][..i]);
    }
  }

  lemma BoundedTwice(
    repo: Path, root: Path, t: Tree, t': Tree, t'': Tree, a: set<Output>, b: set<Output>, c: set<Output>)
    requires Bounded(repo, root, t, t', a) && Bounded(repo, root, t', t'', b) && a <= c && b <= c
    ensures Bounded(repo, root, t, t'', c)
  {
    hide Zone;
  }

  lemma BoundedRefl(repo: Path, root: Path, t: Tree, written: set<Output>)
    ensures Bounded(repo, root, t, t, written)
  {
  }

  /** However long the generator runs, and wherever it stops, it changes nothing of the checkout but the zone. */
  lemma {:induction false} RunBounded(t: Tree, repo: Path, root: Path, sel: Selection, ops: seq<ToolOp>)
    requires Guard(t, repo, root, sel) && sel.tool.CoverageTool? && forall op :: op in ops ==> OutputOp(sel, op)
    ensures Bounded(repo, root, t, Run(t, root, ops).tree, AllWritten(root, ops))
    decreases |ops|
  {
    hide Guard, OutputOp, Apply, Bounded, WellFormed, RootOk;
    if ops == [] {
      BoundedRefl(repo, root, t, AllWritten(root, ops));
    } else {
      var t' := Apply(t, root, ops[0]).tree;
      OutputOpNonEmpty(sel, ops[0]);
      OpBounded(t, repo, root, sel, ops[0]);
      GuardRoot(t, repo, root, sel);
      ApplyWellFormed(t, root, ops[0]);
      GuardKept(t, t', repo, root, sel, Written(root, ops[0]));
      assert Written(root, ops[0]) <= AllWritten(root, ops);
      BoundedRefl(repo, root, t', {});
      BoundedTwice(repo, root, t, t', t', Written(root, ops[0]), {}, AllWritten(root, ops));
      if Apply(t, root, ops[0]).ok {
        RunBounded(t', repo, root, sel, ops[1..]);
        assert AllWritten(root, ops[1..]) <= AllWritten(root, ops);
        BoundedTwice(repo, root, t, t', Run(t', root, ops[1..]).tree, Written(root, ops[0]), AllWritten(root, ops[1..]),
            AllWritten(root, ops));
      }
    }
  }

  /** A freshly populated workspace is guarded. */
  lemma PopulatedGuard(t0: Tree, t: Tree, repo: Path, root: Path, sel: Selection)
    requires Ready(t0, repo, root) && SelectionOk(t0, repo, sel) && CoveragePopulated(t0, t, repo, root, sel)
             && sel.tool.CoverageTool?
    requires WellFormed(t) && SameOutside(root, t0, t) && ZonePlain(t0, repo, root)
    ensures Guard(t, repo, root, sel)
  {
    hide WellFormed, CoveragePopulated, SelectionOk, LinkPlace, Zone, Laid, KeptRegistrations, Direct;
    CoverageExpected(t0, t, repo, root, sel);
    CommandsLinked(t0, t, repo, root, sel);
    PopulatedInv(t0, t, repo, root, sel);
    InvRoot(t0, t, repo, root, sel, {}, {});
    forall q | root < q && IsLink(t, q) ensures LinkPlace(sel, Rel(root, q)) {
      assert root + Rel(root, q) == q;
      LaidAt(t, root, sel, Rel(root, q));
    }
    forall n | IsLink(t, root + ["internal", "registrations", n])
      ensures t[root + ["internal", "registrations", n]].target == repo + ["internal", "registrations", n]
    {
      RegistrationNode(t0, t, repo, root, sel, n);
    }
    ZoneStaysPlain(t0, t, repo, root);
    assert "internal" in SOURCE_DIRS;
    DirectStays(t0, t, repo, root, ["internal", "registrations"]);
    assert !(root < repo);
  }

  lemma ZoneStaysPlain(t0: Tree, t: Tree, repo: Path, root: Path)
    requires Ready(t0, repo, root) && SameOutside(root, t0, t) && ZonePlain(t0, repo, root)
    ensures ZonePlain(t, repo, root)
  {
    hide WellFormed, Direct, Zone;
    forall q | Zone(repo, q) ensures !(root < q) {
      ZoneUnder(repo, q);
      var d := if repo + ["cmd"] <= q then "cmd" else "internal";
      assert "internal" in SOURCE_DIRS;
      if root < q {
        Comparable(root, repo + [d], q);
        PrefixOfChild(root, repo, d);
      }
    }
    assert Zone(repo, repo + ["cmd"]) by { CommandsInZone(repo); }
    forall q | Zone(repo, q) ensures !IsLink(t, q) {
      assert !IsLink(t0, q);
    }
  }

  lemma CommandsInZone(repo: Path)
    ensures Zone(repo, repo + ["cmd"])
  {
  }

  lemma DirectStays(t0: Tree, t: Tree, repo: Path, root: Path, rel: Path)
    requires Ready(t0, repo, root) && SameOutside(root, t0, t) && Direct(t0, repo, rel) && rel != []
             && rel[0] in SOURCE_DIRS
    ensures Direct(t, repo, rel)
  {
    hide WellFormed;
    forall i | 0 < i <= |rel| ensures !IsLink(t, repo + rel[..i]) {
      assert !IsLink(t0, repo + rel[..i]);
      SourceApart(repo, root, rel[0], rel[1..i]);
      assert repo + [rel[0]] + rel[1..i] == repo + rel[..i];
    }
  }

  // ----- going on from what the generator left -----

  /** The disk without what is inside the workspace. */
  function Around(t: Tree, root: Path): Tree
  {
    map q | q in t && !(root < q) :: t[q]
  }

  lemma AroundWellFormed(t: Tree, root: Path)
    requires WellFormed(t)
    ensures WellFormed(Around(t, root)) && SameOutside(root, Around(t, root), t)
  {
    forall q | q in t && !(root < q) && q != [] ensures !(root < q[..|q| - 1]) {
      assert q[..|q| - 1] <= q;
    }
  }

  lemma SourcesNotInZone(repo: Path, sub: Path)
    requires sub != [] && sub[0] != "cmd"
    requires |sub| == 3 ==> !(sub[0] == "internal" && sub[1] == "registrations")
    ensures !Zone(repo, repo + sub)
  {
    var q := repo + sub;
    assert q[|repo|] == sub[0];
    assert |q| == |repo| + 3 ==> q[..|repo| + 2] == repo + sub[..2] && sub[..2][0] == sub[0] && sub[..2][1] == sub[1];
    if |q| == |repo| + 3 && q[..|repo| + 2] == repo + ["internal", "registrations"] {
      InternalTwo(repo, sub[..2]);
    }
  }

  lemma InternalTwo(repo: Path, two: Path)
    requires repo + two == repo + ["internal", "registrations"]
    ensures two == ["internal", "registrations"]
  {
    assert two == (repo + two)[|repo|..];
  }

  /** A path of the checkout that the generator does not reach is as it was at the start. */
  lemma UnreachedSame(t0: Tree, t: Tree, t1: Tree, repo: Path, root: Path, written: set<Output>, sub: Path)
    requires Ready(t0, repo, root) && SameOutside(root, t0, t) && Bounded(repo, root, t, t1, written)
    requires sub != [] && sub[0] in SOURCE_DIRS && !Zone(repo, repo + sub)
    ensures var q, a := repo + sub, Around(t1, root);
            (q in a <==> q in t0) && (q in t0 ==> a[q] == t0[q])
  {
    hide WellFormed, Direct, Zone;
    SourceApart(repo, root, sub[0], sub[1..]);
    assert repo + [sub[0]] + sub[1..] == repo + sub;
  }

  lemma AroundDirect(t0: Tree, t: Tree, t1: Tree, repo: Path, root: Path, written: set<Output>, rel: Path)
    requires Ready(t0, repo, root) && SameOutside(root, t0, t) && Bounded(repo, root, t, t1, written)
    requires rel != [] && rel[0] in SOURCE_DIRS && |rel| <= 2 && Direct(t0, repo, rel)
    ensures Direct(Around(t1, root), repo, rel)
  {
    hide Ready, SameOutside, Bounded, Around;
    forall i | 0 < i <= |rel| ensures !IsLink(Around(t1, root), repo + rel[..i]) {
      assert !IsLink(t0, repo + rel[..i]);
      SourcesNotInZone(repo, rel[..i]);
      UnreachedSame(t0, t, t1, repo, root, written, rel[..i]);
    }
  }

  lemma AroundReady(t0: Tree, t: Tree, t1: Tree, repo: Path, root: Path, sel: Selection, written: set<Output>)
    requires Ready(t0, repo, root) && SameOutside(root, t0, t) && Bounded(repo, root, t, t1, written)
             && Guard(t1, repo, root, sel)
    ensures Ready(Around(t1, root), repo, root)
  {
    hide Bounded, LinkPlace, Zone, ZonePlain, WellFormed, Direct;
    AroundWellFormed(t1, root);
    ReadyParts(t0, repo, root);
    AroundDirect(t0, t, t1, repo, root, written, ["api"]);
    AroundDirect(t0, t, t1, repo, root, written, ["controllers"]);
    AroundDirect(t0, t, t1, repo, root, written, ["internal", "registrations"]);
    AroundDirect(t0, t, t1, repo, root, written, ["pkg", "servicemanager"]);
  }

  lemma AroundSelection(t0: Tree, t: Tree, t1: Tree, repo: Path, root: Path, sel: Selection, written: set<Output>)
    requires Ready(t0, repo, root) && SelectionOk(t0, repo, sel) && SameOutside(root, t0, t)
             && Bounded(repo, root, t, t1, written)
    ensures SelectionOk(Around(t1, root), repo, sel)
  {
    hide Ready, SameOutside, Bounded, Around, Zone;
    var a := Around(t1, root);
    forall g ensures repo + ["controllers", g] in a <==> repo + ["controllers", g] in t0
             ensures repo + ["controllers", g] in t0 ==> a[repo + ["controllers", g]] == t0[repo + ["controllers", g]]
             ensures IsLink(a, repo + ["api", g]) <==> IsLink(t0, repo + ["api", g])
    {
      SourcesNotInZone(repo, ["controllers", g]);
      UnreachedSame(t0, t, t1, repo, root, written, ["controllers", g]);
      SourcesNotInZone(repo, ["api", g]);
      UnreachedSame(t0, t, t1, repo, root, written, ["api", g]);
    }
    forall r ensures repo + ["pkg", "servicemanager", r] in a <==> repo + ["pkg", "servicemanager", r] in t0
             ensures repo + ["pkg", "servicemanager", r] in t0 ==>
                       a[repo + ["pkg", "servicemanager", r]] == t0[repo + ["pkg", "servicemanager", r]]
    {
      SourcesNotInZone(repo, ["pkg", "servicemanager", r]);
      UnreachedSame(t0, t, t1, repo, root, written, ["pkg", "servicemanager", r]);
    }
    forall c, q | c in CopiedNames(sel.tool) && repo + ["internal", c] <= q ensures !IsLink(a, q) {
      var sub := q[|repo|..];
      CopiedUnder(repo, c, q);
      SourcesNotInZone(repo, sub);
      UnreachedSame(t0, t, t1, repo, root, written, sub);
      assert !IsLink(t0, q);
    }
  }

  lemma CopiedUnder(repo: Path, c: string, q: Path)
    requires repo + ["internal", c] <= q
    ensures var sub := q[|repo|..]; repo + sub == q && |sub| >= 2 && sub[0] == "internal" && sub[1] == c
  {
    assert repo == q[..|repo|] && q[|repo|] == (repo + ["internal", c])[|repo|]
           && q[|repo| + 1] == (repo + ["internal", c])[|repo| + 1];
  }

  lemma PlanFilesWritten(t: Tree, t1: Tree, repo: Path, root: Path, sel: Selection, written: set<Output>, q: Path)
    requires Laid(t, root, sel) && Bounded(repo, root, t, t1, written)
    requires root < q && q in t1 && t1[q].File? && PlanPart(Rel(root, q))
    ensures Output(q, t1[q].content) in written
  {
    hide Laid, Zone, LinkPlace;
    assert root + Rel(root, q) == q;
    if q in t && t[q] == t1[q] {
      LaidAt(t, root, sel, Rel(root, q));
    }
  }

  /** The invariant of the later steps holds relative to the disk as the generator left it. */
  lemma AroundInv(t: Tree, t1: Tree, repo: Path, root: Path, sel: Selection, written: set<Output>)
    requires Laid(t, root, sel) && Bounded(repo, root, t, t1, written) && Guard(t1, repo, root, sel)
    ensures Inv(Around(t1, root), t1, repo, root, sel, {}, written)
  {
    hide LinkPlace, Laid, Around, Bounded, Guard, CompanionPlace, WellFormed, RootOk, SameOutside, PlanPart;
    GuardRoot(t1, repo, root, sel);
    AroundWellFormed(t1, root);
    forall q | root < q && IsLink(t1, q) ensures LinkPlace(sel, Rel(root, q)) {
      assert root + Rel(root, q) == q;
      GuardLink(t1, repo, root, sel, Rel(root, q));
    }
    forall q | root < q && q in t1 && t1[q].File? && PlanPart(Rel(root, q))
        ensures Output(q, t1[q].content) in written {
      PlanFilesWritten(t, t1, repo, root, sel, written, q);
    }
  }

  /** Nothing outside the workspace has changed but the zone. */
  ghost predicate SameBut(repo: Path, root: Path, t: Tree, t': Tree) {
    forall q :: !(root < q) && !Zone(repo, q) ==> (q in t <==> q in t') && (q in t ==> t[q] == t'[q])
  }

  lemma SameButChain(repo: Path, root: Path, t0: Tree, t: Tree, t1: Tree, t2: Tree, written: set<Output>)
    requires SameOutside(root, t0, t) && Bounded(repo, root, t, t1, written) && SameOutside(root, Around(t1, root), t2)
    ensures SameBut(repo, root, t0, t2)
    ensures SameOutside(root, t0, t1) ==> SameOutside(root, t0, t2)
  {
    hide Zone;
  }

  // ----- the run -----

  const API_REGISTRY: Path := ["internal", "validator", "apispec", "registry.go"]
  const SDK_REGISTRY: Path := ["internal", "validator", "sdk", "registry.go"]

  /** The validator is copied, so nothing on the way to its registries is a link. */
  lemma RegistryClear(
    t0: Tree, t: Tree, repo: Path, root: Path, sel: Selection, written: set<Output>, rel: Path, content: string)
    requires Inv(t0, t, repo, root, sel, {}, written) && sel.tool.CoverageTool? && rel in {API_REGISTRY, SDK_REGISTRY}
    ensures OpClear(t, root, WriteOp(rel, content))
  {
    hide Inv;
    forall i | 0 < i <= |rel| ensures !IsLink(t, root + rel[..i]) {
      var p := rel[..i];
      assert p[0] == "internal" && (i > 1 ==> p[1] == "validator");
      if IsLink(t, root + p) {
        LinkWhere(t0, t, repo, root, sel, {}, written, p);
      }
    }
  }

  lemma RegistriesKeepInv(
    t0: Tree, t: Tree, repo: Path, root: Path, sel: Selection, written: set<Output>, ops: seq<ToolOp>)
    requires Inv(t0, t, repo, root, sel, {}, written) && sel.tool.CoverageTool?
    requires forall op :: op in ops ==> op.WriteOp? && op.rel in {API_REGISTRY, SDK_REGISTRY}
    ensures Inv(t0, Run(t, root, ops).tree, repo, root, sel, {}, written + AllWritten(root, ops))
  {
    hide Inv, Run, AllWritten, OpClear, RootOk, SameOutside, Contained;
    InvRoot(t0, t, repo, root, sel, {}, written);
    forall op | op in ops ensures OpClear(t, root, op) {
      RegistryClear(t0, t, repo, root, sel, written, op.rel, op.content);
    }
    RunContained(t, root, ops);
    ContainedKeepsInv(t0, t, Run(t, root, ops).tree, repo, root, sel, {}, written, AllWritten(root, ops));
  }

  function CoverageSelection(job: Job): Selection
  {
    Selection(CoverageTool, Elems(job.groups), {}, Roots(job.packages))
  }

  /** The generator's operations: either clear of the links, or anything in its output scope on a checkout where
      nothing further is linked from the parts that it reaches. */
  ghost predicate CoverageOps(t: Tree, repo: Path, root: Path, sel: Selection, ops: seq<ToolOp>) {
    || (forall op :: op in ops ==> GeneratorOp(sel, op))
    || (ZonePlain(t, repo, root) && forall op :: op in ops ==> OutputOp(sel, op))
  }

  /** After the generator: a base for the later steps, which differs from the start in the zone at most, and not
      at all when the operations were clear of the links. */
  lemma GeneratorLeaves(
    t0: Tree, t: Tree, repo: Path, root: Path, sel: Selection, ops: seq<ToolOp>) returns (base: Tree)
    requires Ready(t0, repo, root) && SelectionOk(t0, repo, sel) && CoveragePopulated(t0, t, repo, root, sel)
             && sel.tool.CoverageTool?
    requires WellFormed(t) && SameOutside(root, t0, t) && CoverageOps(t0, repo, root, sel, ops)
    ensures Ready(base, repo, root) && SelectionOk(base, repo, sel)
    ensures Inv(base, Run(t, root, ops).tree, repo, root, sel, {}, AllWritten(root, ops))
    ensures SameBut(repo, root, t0, base)
    ensures (forall op :: op in ops ==> GeneratorOp(sel, op)) ==> base == t0
  {
    hide WellFormed, Ready, SelectionOk, CoveragePopulated, SameOutside, ZonePlain, Inv, Run, AllWritten, Laid, Guard,
         Bounded, SameBut,
         GeneratorOp, OutputOp, Around;
    CoverageExpected(t0, t, repo, root, sel);
    if forall op :: op in ops ==> GeneratorOp(sel, op) {
      base := t0;
      GeneratorKeepsInv(t0, t, repo, root, sel, ops);
      SameButRefl(repo, root, t0);
    } else {
      var t1, written := Run(t, root, ops).tree, AllWritten(root, ops);
      base := Around(t1, root);
      PopulatedGuard(t0, t, repo, root, sel);
      RunBounded(t, repo, root, sel, ops);
      RunWellFormed(t, root, sel, ops);
      GuardKept(t, t1, repo, root, sel, written);
      AroundReady(t0, t, t1, repo, root, sel, written);
      AroundSelection(t0, t, t1, repo, root, sel, written);
      AroundInv(t, t1, repo, root, sel, written);
      SameOutsideRefl(root, base);
      SameButChain(repo, root, t0, t, t1, base, written);
    }
  }

  lemma SameButRefl(repo: Path, root: Path, t: Tree)
    ensures SameBut(repo, root, t, t)
  {
  }

  lemma {:induction false} RunWellFormed(t: Tree, root: Path, sel: Selection, ops: seq<ToolOp>)
    requires WellFormed(t) && forall op :: op in ops ==> OutputOp(sel, op)
    ensures WellFormed(Run(t, root, ops).tree)
    decreases |ops|
  {
    hide WellFormed, Apply, OutputOp;
    if ops != [] {
      OutputOpNonEmpty(sel, ops[0]);
      ApplyWellFormed(t, root, ops[0]);
      if Apply(t, root, ops[0]).ok {
        RunWellFormed(Apply(t, root, ops[0]).tree, root, sel, ops[1..]);
      }
    }
  }

  lemma SameButThen(repo: Path, root: Path, t0: Tree, base: Tree, t: Tree)
    requires SameBut(repo, root, t0, base) && SameOutside(root, base, t)
    ensures SameBut(repo, root, t0, t)
  {
    hide Zone;
  }

  /** The two registry writes: exactly when they succeed, and what they leave. */
  lemma RegistriesWritten(t: Tree, root: Path, apiRegistry: string, sdkRegistry: string)
    requires RootOk(t, root) && OpClear(t, root, WriteOp(API_REGISTRY, apiRegistry))
             && OpClear(t, root, WriteOp(SDK_REGISTRY, sdkRegistry))
    ensures var r := Run(t, root, [WriteOp(API_REGISTRY, apiRegistry), WriteOp(SDK_REGISTRY, sdkRegistry)]);
            && (r.ok ==> r.tree == t[root + API_REGISTRY := File(apiRegistry)][root + SDK_REGISTRY :=
                File(sdkRegistry)])
            && (RegistriesWritable(t, root) ==> r.ok)
  {
    hide WriteFile, NoLinkAbove, DirsAbove, RootOk;
    var p, q := root + API_REGISTRY, root + SDK_REGISTRY;
    assert p[|root| + 2] == "apispec" && q[|root| + 2] == "sdk";
    ClearPath(t, root, API_REGISTRY);
    WriteInPlace(t, p, apiRegistry);
    ClearPath(t, root, SDK_REGISTRY);
    var t' := t[p := File(apiRegistry)];
    RunTwo(t, root, WriteOp(API_REGISTRY, apiRegistry), WriteOp(SDK_REGISTRY, sdkRegistry));
    if WriteFile(t, p, apiRegistry).ok {
      StillClear(t, t', p, q);
      WriteInPlace(t', q, sdkRegistry);
    }
  }

  /** Writing a file keeps the ways to other places clear. */
  lemma StillClear(t: Tree, t': Tree, p: Path, q: Path)
    requires t'.Keys == t.Keys + {p} && (forall x :: x in t && x != p ==> t'[x] == t[x]) && t'[p].File? && !IsDir(t, p)
             && p != q
    requires NoLinkAbove(t, q) && !IsLink(t, q)
    ensures NoLinkAbove(t', q) && !IsLink(t', q) && (DirsAbove(t, q) ==> DirsAbove(t', q))
            && (IsDir(t', q) <==> IsDir(t, q))
  {
  }

  /** Both registry files can be written: their directories are there, and they are not directories. */
  ghost predicate RegistriesWritable(t: Tree, root: Path) {
    && DirsAbove(t, root + API_REGISTRY) && !IsDir(t, root + API_REGISTRY)
    && DirsAbove(t, root + SDK_REGISTRY) && !IsDir(t, root + SDK_REGISTRY)
  }

  /** What a successful run leaves in the workspace: the companions of the checkout, linked to where they come from;
      what the generator left, but for the files that later steps write; the deepcopy files; each registry in its file;
      and nothing else. */
  ghost predicate CoverageFurnished(
    t0: Tree, generated: Tree, t: Tree, repo: Path, root: Path, job: Job, outputs: seq<Deepcopy>,
    apiRegistry: string, sdkRegistry: string) {
    var api, sdk := root + ["internal", "validator", "apispec", "registry.go"],
        root + ["internal", "validator", "sdk", "registry.go"];
    && api in t && t[api] == File(apiRegistry) && sdk in t && t[sdk] == File(sdkRegistry)
    && CompanionsThere(t0, t, repo, root, job.packages)
    && LinksMirror(t, repo, root, CoverageSelection(job))
    && (forall q :: q in generated && !(root + ["api"] <= q) && q != api && q != sdk ==> q in t && t[q] == generated[q])
    && (forall q :: q in generated ==> q in t)
    && Accounted(generated[api := File(apiRegistry)][sdk := File(sdkRegistry)], t, repo, root, job.packages, [],
        outputs)
    && (forall o :: o in outputs && Reached(t, root + o.rel) ==> Deepcopied(t, root, outputs, o.rel))
  }

  /** The registries are beside the API directory. */
  lemma RegistriesBeside(root: Path)
    ensures !(root + ["api"] <= root + API_REGISTRY) && !(root + ["api"] <= root + SDK_REGISTRY)
    ensures root + API_REGISTRY != root + SDK_REGISTRY
  {
    assert (root + API_REGISTRY)[|root|] == "internal" && (root + SDK_REGISTRY)[|root|] == "internal";
    assert (root + ["api"])[|root|] == "api";
    assert (root + API_REGISTRY)[|root| + 2] == "apispec" && (root + SDK_REGISTRY)[|root| + 2] == "sdk";
  }

  lemma CoverageFurnishedNow(
    base: Tree, generated: Tree, linked: Tree, rewritten: Tree, t: Tree, repo: Path, root: Path, job: Job,
    outputs: seq<Deepcopy>, apiRegistry: string, sdkRegistry: string)
    requires Extends(generated, linked) && CompanionsThere(base, linked, repo, root, job.packages)
    requires rewritten == linked[root + API_REGISTRY := File(apiRegistry)][root + SDK_REGISTRY := File(sdkRegistry)]
    requires NewCompanions(generated, linked, repo, root, job.packages) && NewDeepcopies(rewritten, t, root, outputs)
    requires Keeps(root, rewritten, t) && SameBeside(root + ["api"], rewritten, t)
    requires LinksMirror(t, repo, root, CoverageSelection(job))
    requires forall o :: o in outputs && Reached(t, root + o.rel) ==> Deepcopied(t, root, outputs, o.rel)
    ensures CoverageFurnished(base, generated, t, repo, root, job, outputs, apiRegistry, sdkRegistry)
  {
    hide CompanionsThere, LinksMirror, Reached, Deepcopied, Accounted, NewCompanions, NewDeepcopies;
    RegistriesBeside(root);
    RewrittenAccounted(generated, linked, rewritten, t, repo, root, job.packages, outputs, apiRegistry, sdkRegistry);
    CompanionsKept(base, linked, t, repo, root, job.packages);
  }

  lemma RewrittenAccounted(
    generated: Tree, linked: Tree, rewritten: Tree, t: Tree, repo: Path, root: Path, packages: seq<PackageModel>,
    outputs: seq<Deepcopy>, apiRegistry: string, sdkRegistry: string)
    requires Extends(generated, linked) && NewCompanions(generated, linked, repo, root, packages)
    requires rewritten == linked[root + API_REGISTRY := File(apiRegistry)][root + SDK_REGISTRY := File(sdkRegistry)]
    requires NewDeepcopies(rewritten, t, root, outputs)
    ensures Accounted(generated[root + API_REGISTRY := File(apiRegistry)][root + SDK_REGISTRY := File(sdkRegistry)], t,
                      repo, root, packages, [], outputs)
  {
    hide CompanionAt, NewDeepcopies, Accounted;
    var g := generated[root + API_REGISTRY := File(apiRegistry)][root + SDK_REGISTRY := File(sdkRegistry)];
    assert NewCompanions(g, rewritten, repo, root, packages);
    AllAccounted(g, rewritten, rewritten, t, repo, root, packages, [], outputs);
  }

  /** Files of the packages are the same in a checkout that differs in the zone only. */
  lemma CompanionsFromBase(t0: Tree, base: Tree, t: Tree, repo: Path, root: Path, packages: seq<PackageModel>)
    requires Ready(t0, repo, root) && SameBut(repo, root, t0, base) && CompanionsThere(base, t, repo, root, packages)
    ensures CompanionsThere(t0, t, repo, root, packages)
  {
    hide Ready, SameBut, HasSuffix, Contains, Roots, ManagerOutput;
    forall p, sub | p in packages && ApiFile(t0, repo, ["api", p.group, p.version] + sub)
      ensures root + (["api", p.group, p.version] + sub) in t
    {
      SameSource(t0, base, repo, root, ["api", p.group, p.version] + sub);
    }
    forall p, sub | p in packages && ControllerFile(t0, repo, ["controllers", p.group] + sub)
      ensures root + (["controllers", p.group] + sub) in t
    {
      SameSource(t0, base, repo, root, ["controllers", p.group] + sub);
    }
    forall r, sub | r in Roots(packages) && ManagerFile(t0, repo, ["pkg", "servicemanager", r] + sub)
                    && !ManagerOutput(packages, ["pkg", "servicemanager", r] + sub)
      ensures root + (["pkg", "servicemanager", r] + sub) in t
    {
      SameSource(t0, base, repo, root, ["pkg", "servicemanager", r] + sub);
    }
  }

  lemma SameSource(t0: Tree, base: Tree, repo: Path, root: Path, rel: Path)
    requires Ready(t0, repo, root) && SameBut(repo, root, t0, base)
    requires rel != [] && rel[0] in {"api", "controllers", "pkg"}
    ensures (repo + rel in t0 <==> repo + rel in base) && (repo + rel in t0 ==> t0[repo + rel] == base[repo + rel])
  {
    hide WellFormed, Direct, Zone;
    SourceApart(repo, root, rel[0], rel[1..]);
    assert repo + [rel[0]] + rel[1..] == repo + rel;
    SourcesNotInZone(repo, rel);
  }

  lemma NoCompanionsBase(t0: Tree, base: Tree, repo: Path, root: Path, packages: seq<PackageModel>)
    requires Ready(t0, repo, root) && SameBut(repo, root, t0, base) && NoCompanions(t0, repo, packages)
    ensures NoCompanions(base, repo, packages)
  {
    hide Ready, SameBut, Roots;
    forall p | p in packages ensures repo + ApiBase(p) !in base && repo + ControllerBase(p) !in base {
      SameSource(t0, base, repo, root, ApiBase(p));
      SameSource(t0, base, repo, root, ControllerBase(p));
    }
    forall r | r in Roots(packages) ensures repo + ManagerPath(r, []) !in base {
      SameSource(t0, base, repo, root, ManagerPath(r, []));
    }
  }

  lemma FurnishedFromBase(
    t0: Tree, base: Tree, generated: Tree, t: Tree, repo: Path, root: Path, job: Job, outputs: seq<Deepcopy>,
    apiRegistry: string, sdkRegistry: string)
    requires Ready(t0, repo, root) && SameBut(repo, root, t0, base)
    requires CoverageFurnished(base, generated, t, repo, root, job, outputs, apiRegistry, sdkRegistry)
    ensures CoverageFurnished(t0, generated, t, repo, root, job, outputs, apiRegistry, sdkRegistry)
  {
    hide Ready, SameBut, CompanionsThere, LinksMirror, Reached, Deepcopied, Accounted;
    CompanionsFromBase(t0, base, t, repo, root, job.packages);
  }

  lemma FurnishedFromBefore(
    t: Tree, t0: Tree, generated: Tree, t': Tree, repo: Path, root: Path, job: Job, outputs: seq<Deepcopy>,
    apiRegistry: string, sdkRegistry: string)
    requires OnlyNewDirs(t, t0, root)
    requires CoverageFurnished(t0, generated, t', repo, root, job, outputs, apiRegistry, sdkRegistry)
    ensures CoverageFurnished(t, generated, t', repo, root, job, outputs, apiRegistry, sdkRegistry)
  {
    hide OnlyNewDirs, CompanionsThere, LinksMirror, Reached, Deepcopied, Accounted;
    CompanionsBefore(t, t0, t', repo, root, job.packages);
  }

  /** A run with nothing checked in to preserve, in which generator and commands succeed and the validator is there. */
  ghost predicate CoverageSmooth(
    t0: Tree, t: Tree, repo: Path, root: Path, job: Job, ops: seq<ToolOp>, outputs: seq<Deepcopy>) {
    && NoCompanions(t0, repo, job.packages) && outputs == []
    && Run(t, root, ops).ok && RegistriesWritable(Run(t, root, ops).tree, root)
  }

  /** Generate, link companions, rewrite both validator registries, run controller-gen.  The validator itself
      only reads.  Nothing outside the workspace changes but the zone, and nothing at all when the generator is
      clear of the links; a successful run leaves the workspace furnished. */
  method CoverageInside(
    disk: Disk, ghost t0: Tree, repo: Path, root: Path, job: Job, ops: seq<ToolOp>, apiRegistry: string,
    sdkRegistry: string, outputs: seq<Deepcopy>, commands: bool)
    returns (ok: bool)
    requires var sel := CoverageSelection(job);
             && Ready(t0, repo, root) && SelectionOk(t0, repo, sel) && CoveragePopulated(t0, disk.tree, repo, root, sel)
             && SameOutside(root, t0, disk.tree)
             && CoverageOps(t0, repo, root, sel, ops) && (forall o :: o in outputs ==> DeepcopyScope(sel, o.rel))
    requires forall p :: p in job.packages ==> p.group in job.groups
    modifies disk
    ensures RootOk(disk.tree, root) && SameBut(repo, root, t0, disk.tree)
    ensures (forall op :: op in ops ==> GeneratorOp(CoverageSelection(job), op)) ==> SameOutside(root, t0, disk.tree)
    ensures ok ==> && commands && Run(old(disk.tree), root, ops).ok
                   && CoverageFurnished(t0, Run(old(disk.tree), root, ops).tree, disk.tree, repo, root, job, outputs,
                                        apiRegistry, sdkRegistry)
    ensures CoverageSmooth(t0, old(disk.tree), repo, root, job, ops, outputs) && commands ==> ok
  {
    hide Ready, SelectionOk, CoveragePopulated, SameOutside, RootOk, GeneratorOp, CoverageOps, DeepcopyScope,
         WellFormed, Inv, Run, AllWritten, PackageComplete, RootComplete, Extends, Roots, SameBut, OpClear,
         CompanionsThere, LinksMirror, Keeps, SameBeside, Reached, Deepcopied, CoverageFurnished, NoCompanions,
         RegistriesWritable, NewCompanions, NewDeepcopies;
    var sel := CoverageSelection(job);
    ghost var written := AllWritten(root, ops);
    ghost var base := GeneratorLeaves(t0, disk.tree, repo, root, sel, ops);
    if NoCompanions(t0, repo, job.packages) {
      NoCompanionsBase(t0, base, repo, root, job.packages);
    }
    assert root != [] by { ReadyRoot(t0, repo, root); }
    ok := RunTool(disk, root, ops);
    InvRoot(base, disk.tree, repo, root, sel, {}, written);
    SameButThen(repo, root, t0, base, disk.tree);
    if !ok { return; }
    ghost var generated := disk.tree;
    ok := PreserveAllCompanions(disk, base, repo, root, sel, job.packages, written);
    InvRoot(base, disk.tree, repo, root, sel, {}, written);
    SameButThen(repo, root, t0, base, disk.tree);
    if !ok { return; }
    AllFiles(base, disk.tree, repo, root, sel, job.packages);
    ghost var linked := disk.tree;
    var rewrite := [WriteOp(API_REGISTRY, apiRegistry), WriteOp(SDK_REGISTRY, sdkRegistry)];
    RegistriesKeepInv(base, disk.tree, repo, root, sel, written, rewrite);
    RegistryClear(base, disk.tree, repo, root, sel, written, API_REGISTRY, apiRegistry);
    RegistryClear(base, disk.tree, repo, root, sel, written, SDK_REGISTRY, sdkRegistry);
    RegistriesWritten(disk.tree, root, apiRegistry, sdkRegistry);
    ok := RunTool(disk, root, rewrite);
    ghost var all := written + AllWritten(root, rewrite);
    InvRoot(base, disk.tree, repo, root, sel, {}, all);
    SameButThen(repo, root, t0, base, disk.tree);
    if !ok { return; }
    ghost var rewritten := disk.tree;
    ok := RunControllerGen(disk, base, repo, root, sel, {}, all, outputs);
    InvRoot(base, disk.tree, repo, root, sel, {}, all);
    SameButThen(repo, root, t0, base, disk.tree);
    InvLinksMirror(base, disk.tree, repo, root, sel, {}, all);
    if ok {
      CoverageFurnishedNow(base, generated, linked, rewritten, disk.tree, repo, root, job, outputs, apiRegistry,
          sdkRegistry);
      FurnishedFromBase(t0, base, generated, disk.tree, repo, root, job, outputs, apiRegistry, sdkRegistry);
    }
    ok := ok && commands;
  }

  method PrepareCoverage(
    disk: Disk, repo: Path, root: Path, sel: Selection, explicit: bool) returns (ok: bool, ghost t0: Tree)
    requires Checkout(disk.tree, repo) && Placeable(disk.tree, repo, root) && SelectionOk(disk.tree, repo, sel)
    requires !explicit ==> Unused(disk.tree, root)
    modifies disk
    ensures OnlyAround(root, old(disk.tree), disk.tree)
    ensures ok ==> && Ready(t0, repo, root) && SelectionOk(t0, repo, sel)
                   && CoveragePopulated(t0, disk.tree, repo, root, sel)
                   && SameOutside(root, t0, disk.tree) && OnlyNewDirs(old(disk.tree), t0, root)
                   && (explicit || t0 == old(disk.tree)[root := Dir])
    ensures !explicit && CoverageSources(old(disk.tree), repo) ==> ok
  {
    hide WellFormed, Checkout, Placeable, SelectionOk, MkdirAll, Mkdir, ChildNames, CoveragePopulated, Ready,
         CoverageSources, Listing, Less;
    ghost var t := disk.tree;
    ok := MakeRoot(disk, repo, root, explicit);
    t0 := disk.tree;
    AroundNewDirs(t, t0, root);
    if !ok { return; }
    var names, listed := disk.ReadDir(root);
    if explicit && (!listed || names != []) {
      ok := false;
      return;
    }
    NewDirsKeepSource(t, t0, repo, root, sel);
    RootIsEmpty(t, t0, repo, root, explicit, names, listed);
    EmptyDirReady(t0, repo, root);
    if CoverageSources(t, repo) {
      CoverageSourcesStay(t, t0, repo, root);
    }
    ok := PopulateCoverage(disk, repo, root, sel);
    NothingInside(t, t0, repo, root);
    AroundAfterPopulate(t, t0, disk.tree, root);
  }

  lemma CoverageSourcesStay(t: Tree, t0: Tree, repo: Path, root: Path)
    requires OnlyNewDirs(t, t0, root) && CoverageSources(t, repo)
    ensures CoverageSources(t0, repo)
  {
  }

  /** What was there outside the zone is still there; what is new is in the zone, at or below `root`, or a
      directory on the way to it. */
  ghost predicate OnlyAroundBut(repo: Path, root: Path, t: Tree, t': Tree) {
    && (forall q :: q in t && !Zone(repo, q) ==> q in t' && t'[q] == t[q])
    && (forall q :: q in t' && q !in t && !Zone(repo, q) ==> root <= q || (q <= root && t'[q] == Dir))
  }

  lemma AroundButAfter(t: Tree, t0: Tree, t': Tree, repo: Path, root: Path)
    requires OnlyNewDirs(t, t0, root) && SameBut(repo, root, t0, t') && forall q :: q in t ==> !(root < q)
    ensures OnlyAroundBut(repo, root, t, t')
  {
    hide Zone;
  }

  lemma AroundIsAroundBut(repo: Path, root: Path, t: Tree, t': Tree)
    requires OnlyAround(root, t, t')
    ensures OnlyAroundBut(repo, root, t, t')
  {
    hide Zone;
  }

  /** Cleaning up leaves the disk as it was but for the zone. */
  lemma CleanupRestoresBut(t: Tree, t0: Tree, t': Tree, repo: Path, root: Path)
    requires WellFormed(t) && Unused(t, root) && t0 == t[root := Dir] && SameBut(repo, root, t0, t') && RootOk(t', root)
    ensures var t'' := RemoveAll(t', root).tree;
            forall q :: !Zone(repo, q) ==> (q in t <==> q in t'') && (q in t ==> t[q] == t''[q])
  {
    hide RemoveAll, WellFormed, DirsAbove, Zone;
    RemoveAllExact(t', root);
    NothingBelow(t, root);
    var t'' := RemoveAll(t', root).tree;
    forall q | q in t ensures !(root <= q) {
      if root <= q {
        InBelow(t, root, q);
      }
    }
    forall q | !Zone(repo, q) ensures (q in t <==> q in t'') && (q in t ==> t[q] == t''[q]) {
      assert q in t'' <==> q in t' && !(root <= q);
    }
  }

  lemma ZoneNotAboveRoot(t: Tree, t0: Tree, repo: Path, root: Path)
    requires OnlyNewDirs(t, t0, root) && ZonePlain(t, repo, root)
    ensures ZonePlain(t0, repo, root)
  {
    hide Zone;
    forall q | Zone(repo, q) ensures !IsLink(t0, q) {
      assert !IsLink(t, q);
    }
  }

  /** A coverage run.  Whatever the generator does in its output scope, and wherever the run stops, nothing that was
      on disk is altered but the zone; when the generator is clear of the links nothing is altered at all, and a
      successful run in a temporary workspace that is not kept leaves no trace.  `seen` is the disk before cleanup. */
  method RunCoverage(
    disk: Disk, repo: Path, root: Path, explicit: bool, keep: bool, job: Job, ops: seq<ToolOp>, apiRegistry: string,
    sdkRegistry: string, outputs: seq<Deepcopy>, commands: bool)
    returns (ok: bool, ghost seen: Tree)
    requires var sel := CoverageSelection(job);
             && Checkout(disk.tree, repo) && Placeable(disk.tree, repo, root) && SelectionOk(disk.tree, repo, sel)
             && (!explicit ==> Unused(disk.tree, root))
             && CoverageOps(disk.tree, repo, root, sel, ops) && (forall o :: o in outputs ==> DeepcopyScope(sel, o.rel))
    requires forall p :: p in job.packages ==> p.group in job.groups
    modifies disk
    ensures OnlyAroundBut(repo, root, old(disk.tree), disk.tree) && OnlyAroundBut(repo, root, old(disk.tree), seen)
    ensures !(ok && !explicit && !keep) ==> disk.tree == seen
    ensures ok && !explicit && !keep ==>
              forall q :: !Zone(repo, q) ==>
                  (q in old(disk.tree) <==> q in disk.tree) && (q in disk.tree ==> disk.tree[q] == old(disk.tree)[q])
    ensures (forall op :: op in ops ==> GeneratorOp(CoverageSelection(job), op)) ==>
              && OnlyAround(root, old(disk.tree), disk.tree)
              && (ok && !explicit && !keep ==> disk.tree == old(disk.tree))
    ensures ok ==> && commands && (forall q :: q in old(disk.tree) ==> !(root < q))
                   && exists t, t0 ::
                        && OnlyNewDirs(old(disk.tree), t0, root)
                        && CoveragePopulated(t0, t, repo, root, CoverageSelection(job))
                        && Run(t, root, ops).ok
                        && CoverageFurnished(old(disk.tree), Run(t, root, ops).tree, seen, repo, root, job, outputs,
                                             apiRegistry, sdkRegistry)
    ensures && !explicit && CoverageSources(old(disk.tree), repo) && commands
            && (forall t :: WellFormed(t)
                            && CoveragePopulated(old(disk.tree)[root := Dir], t, repo, root, CoverageSelection(job)) ==>
                  CoverageSmooth(old(disk.tree)[root := Dir], t, repo, root, job, ops, outputs))
            ==> ok
  {
    hide Ready, SelectionOk, CoveragePopulated, SameOutside, RootOk, GeneratorOp, CoverageOps, DeepcopyScope,
         WellFormed, Checkout, CoverageSources, CoverageSmooth, CoverageFurnished, Run,
         Placeable, Unused, OnlyAround, OnlyAroundBut, OnlyNewDirs, RemoveAll, CoverageSelection, SameBut, Zone;
    ghost var t := disk.tree;
    ghost var t0: Tree;
    ok, t0 := PrepareCoverage(disk, repo, root, CoverageSelection(job), explicit);
    seen := disk.tree;
    AroundIsAroundBut(repo, root, t, disk.tree);
    if !ok { return; }
    NothingInside(t, t0, repo, root);
    assert root != [] by { ReadyRoot(t0, repo, root); }
    OpsStay(t, t0, repo, root, CoverageSelection(job), ops);
    ghost var populated := disk.tree;
    ok := CoverageInside(disk, t0, repo, root, job, ops, apiRegistry, sdkRegistry, outputs, commands);
    seen := disk.tree;
    if ok {
      FurnishedFromBefore(t, t0, Run(populated, root, ops).tree, seen, repo, root, job, outputs, apiRegistry,
          sdkRegistry);
    }
    AroundButAfter(t, t0, disk.tree, repo, root);
    ghost var clear := forall op :: op in ops ==> GeneratorOp(CoverageSelection(job), op);
    if clear {
      AroundAfterPopulate(t, t0, disk.tree, root);
    }
    if ok && !explicit && !keep {
      CleanupRestoresBut(t, t0, disk.tree, repo, root);
      if clear {
        CleanupRestores(t, t0, disk.tree, root);
      }
      var _ := disk.DeleteAll(root);
      RestoredIsAround(repo, root, t, disk.tree);
    }
  }

  lemma RestoredIsAround(repo: Path, root: Path, t: Tree, t': Tree)
    requires forall q :: !Zone(repo, q) ==> (q in t <==> q in t') && (q in t ==> t[q] == t'[q])
    ensures OnlyAroundBut(repo, root, t, t')
  {
    hide Zone;
  }

  lemma OpsStay(t: Tree, t0: Tree, repo: Path, root: Path, sel: Selection, ops: seq<ToolOp>)
    requires CoverageOps(t, repo, root, sel, ops) && OnlyNewDirs(t, t0, root)
    ensures CoverageOps(t0, repo, root, sel, ops)
  {
    hide ZonePlain, GeneratorOp, OutputOp, OnlyNewDirs;
    if ZonePlain(t, repo, root) {
      ZoneNotAboveRoot(t, t0, repo, root);
    }
  }
}
