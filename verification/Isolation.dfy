/**
 What writing into a workspace can do to the rest of the disk.  The generator and controller-gen are
 arbitrary sequences of operations below the workspace root; a link on the way to one of their paths
 is the only way out.
 */
module Isolation {
  import opened FileSystem
  import opened Snapshot

  /** An operation of an outside tool, on a path relative to the workspace root. */
  datatype ToolOp =
    | MakeDirsOp(rel: Path)
    | WriteOp(rel: Path, content: string)
    | RemoveOp(rel: Path)
    | RemoveAllOp(rel: Path)

  /** A file as a tool wrote it. */
  datatype Output = Output(path: Path, content: string)

  function Apply(t: Tree, root: Path, op: ToolOp): Outcome
  {
    match op
    case MakeDirsOp(rel) => MkdirAll(t, root + rel)
    case WriteOp(rel, content) => WriteFile(t, root + rel, content)
    case RemoveOp(rel) => Remove(t, root + rel)
    case RemoveAllOp(rel) => RemoveAll(t, root + rel)
  }

  /** A tool stops at its first error. */
  function Run(t: Tree, root: Path, ops: seq<ToolOp>): Outcome
    decreases |ops|
  {
    if ops == [] then Outcome(t, true)
    else
      var r := Apply(t, root, ops[0]);
      if !r.ok then r else Run(r.tree, root, ops[1..])
  }

  method RunTool(disk: Disk, root: Path, ops: seq<ToolOp>) returns (ok: bool)
    requires root != []
    modifies disk
    ensures Outcome(disk.tree, ok) == Run(old(disk.tree), root, ops)
  {
    hide MkdirAll, WriteFile, Remove, RemoveAll, WellFormed;
    for i := 0 to |ops|
      invariant Run(old(disk.tree), root, ops) == Run(disk.tree, root, ops[i..])
    {
      assert ops[i..][1..] == ops[i + 1..];
      var done: bool;
      match ops[i] {
        case MakeDirsOp(rel) => done := disk.MakeDirs(root + rel);
        case WriteOp(rel, content) => done := disk.Write(root + rel, content);
        case RemoveOp(rel) => done := disk.Delete(root + rel);
        case RemoveAllOp(rel) => done := disk.DeleteAll(root + rel);
      }
      if !done {
        return false;
      }
    }
    ok := true;
  }

  // ----- staying inside -----

  /** The workspace root is a real directory. */
  ghost predicate RootOk(t: Tree, root: Path) {
    IsDir(t, root) && DirsAbove(t, root)
  }

  /** No link lies on the relative path `rel` up to its first `n` components. */
  ghost predicate ClearTo(t: Tree, root: Path, rel: Path, n: nat) {
    forall i :: 0 < i <= n && i <= |rel| ==> !IsLink(t, root + rel[..i])
  }

  /** An operation may go through real directories only; removing may take a link itself away. */
  ghost predicate OpClear(t: Tree, root: Path, op: ToolOp) {
    && op.rel != []
    && if op.RemoveOp? || op.RemoveAllOp? then ClearTo(t, root, op.rel, |op.rel| - 1)
        else ClearTo(t, root, op.rel, |op.rel|)
  }

  lemma ClearPath(t: Tree, root: Path, rel: Path)
    requires RootOk(t, root) && rel != [] && ClearTo(t, root, rel, |rel| - 1)
    ensures NoLinkAbove(t, root + rel) && root < root + rel
    ensures ClearTo(t, root, rel, |rel|) ==> !IsLink(t, root + rel)
  {
    var p := root + rel;
    forall i | 0 <= i < |p| ensures !IsLink(t, p[..i]) {
      if i < |root| {
        assert p[..i] == root[..i];
        assert IsDir(t, root[..i]);
      } else if i == |root| {
        assert p[..i] == root;
      } else {
        assert p[..i] == root + rel[..i - |root|];
      }
    }
    assert rel[..|rel|] == rel;
  }

  /** What a clear operation may change: nothing outside, no link appears, and a new or changed file is
      one that was written, with the content that was written. */
  ghost predicate Contained(root: Path, t: Tree, t': Tree, written: set<Output>) {
    && SameOutside(root, t, t')
    && NoNewLinks(t, t')
    && forall q :: q in t' && t'[q].File? ==> (q in t && t[q] == t'[q]) || Output(q, t'[q].content) in written
  }

  function Written(root: Path, op: ToolOp): (outputs: set<Output>)
  {
    if op.WriteOp? then {Output(root + op.rel, op.content)} else {}
  }

  function AllWritten(root: Path, ops: seq<ToolOp>): (outputs: set<Output>)
  {
    set op | op in ops && op.WriteOp? :: Output(root + op.rel, op.content)
  }

  lemma OpContained(t: Tree, root: Path, op: ToolOp)
    requires RootOk(t, root) && OpClear(t, root, op)
    ensures Contained(root, t, Apply(t, root, op).tree, Written(root, op))
  {
    hide MkdirAll, WriteFile, Remove, RemoveAll, NoLinkAbove, DirsAbove;
    ClearPath(t, root, op.rel);
    match op {
      case MakeDirsOp(rel) =>
        MkdirAllInPlace(t, root + rel);
        NewDirsBelow(t, MkdirAll(t, root + rel).tree, root, root + rel);
      case WriteOp(rel, content) =>
        WriteInPlace(t, root + rel, content);
      case RemoveOp(rel) =>
        RemoveInPlace(t, root + rel);
      case RemoveAllOp(rel) =>
        RemoveAllInPlace(t, root + rel);
        RemovedBelow(t, RemoveAll(t, root + rel).tree, root, root + rel);
    }
  }

  lemma NewDirsBelow(t: Tree, t': Tree, root: Path, p: Path)
    requires OnlyNewDirs(t, t', p) && RootOk(t, root) && root < p
    ensures Contained(root, t, t', {})
  {
    forall q | q in t' && !(root < q) ensures q in t {
      if q !in t {
        Comparable(root, q, p);
        AboveRoot(t, root, q);
      }
    }
  }

  lemma AboveRoot(t: Tree, root: Path, q: Path)
    requires RootOk(t, root) && q <= root
    ensures q in t
  {
    if |q| < |root| {
      assert q == root[..|q|];
      assert IsDir(t, root[..|q|]);
    } else {
      assert q == root;
    }
  }

  lemma RemovedBelow(t: Tree, t': Tree, root: Path, p: Path)
    requires root < p
    requires forall q :: q in t' ==> q in t && t'[q] == t[q]
    requires forall q :: q in t && !(p <= q) ==> q in t'
    ensures Contained(root, t, t', {})
  {
    forall q | q in t && !(root < q) ensures q in t' {
      assert p <= q ==> root < q;
    }
  }

  lemma ContainedKeepsRoot(root: Path, t: Tree, t': Tree)
    requires SameOutside(root, t, t') && RootOk(t, root)
    ensures RootOk(t', root)
  {
    forall i | 0 <= i < |root| ensures IsDir(t', root[..i]) {
      assert IsDir(t, root[..i]);
    }
  }

  lemma ContainedKeepsClear(root: Path, t: Tree, t': Tree, op: ToolOp)
    requires NoNewLinks(t, t') && OpClear(t, root, op)
    ensures OpClear(t', root, op)
  {
  }

  lemma ContainedTwice(root: Path, t: Tree, t': Tree, t'': Tree, a: set<Output>, b: set<Output>, c: set<Output>)
    requires Contained(root, t, t', a) && Contained(root, t', t'', b) && a <= c && b <= c
    ensures Contained(root, t, t'', c)
  {
  }

  /** A tool whose paths are clear of links when it starts stays inside for its whole run. */
  lemma {:induction false} RunContained(t: Tree, root: Path, ops: seq<ToolOp>)
    requires RootOk(t, root) && forall op :: op in ops ==> OpClear(t, root, op)
    ensures Contained(root, t, Run(t, root, ops).tree, AllWritten(root, ops))
    decreases |ops|
  {
    hide Apply, OpClear, RootOk, Contained;
    if ops == [] {
      ContainedRefl(root, t, AllWritten(root, ops));
    } else {
      OpContained(t, root, ops[0]);
      var t' := Apply(t, root, ops[0]).tree;
      ContainedParts(root, t, t', Written(root, ops[0]));
      assert Written(root, ops[0]) <= AllWritten(root, ops);
      ContainedRefl(root, t', {});
      ContainedTwice(root, t, t', t', Written(root, ops[0]), {}, AllWritten(root, ops));
      if Apply(t, root, ops[0]).ok {
        ContainedKeepsRoot(root, t, t');
        forall op | op in ops[1..] ensures OpClear(t', root, op) {
          ContainedKeepsClear(root, t, t', op);
        }
        RunContained(t', root, ops[1..]);
        ContainedTwice(root, t, t', Run(t', root, ops[1..]).tree, Written(root, ops[0]), AllWritten(root, ops[1..]),
            AllWritten(root, ops));
      }
    }
  }

  lemma ContainedRefl(root: Path, t: Tree, written: set<Output>)
    ensures Contained(root, t, t, written)
  {
  }

  lemma ContainedParts(root: Path, t: Tree, t': Tree, written: set<Output>)
    requires Contained(root, t, t', written)
    ensures SameOutside(root, t, t') && NoNewLinks(t, t')
  {
  }
}
