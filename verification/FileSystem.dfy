/**
 A file system as a map from canonical paths to nodes, with symbolic links that are followed the way
 the kernel follows them, and the `os` operations that the snapshot tools use.
 */
module FileSystem {
  import opened Orders
  import opened Text

  type Path = seq<string>

  datatype Node = Dir | File(content: string) | Link(target: Path)

  type Tree = map<Path, Node>

  /** An operation either succeeds or reports an error; both say what is on disk afterwards. */
  datatype Outcome = Outcome(tree: Tree, ok: bool)

  /** The kernel gives up after this many links in one look-up. */
  const MAX_LINKS: nat := 40

  /** Every node other than the root lives in a directory. */
  ghost predicate WellFormed(t: Tree) {
    [] in t && t[[]].Dir? && forall p :: p in t && p != [] ==> p[..|p| - 1] in t && t[p[..|p| - 1]].Dir?
  }

  type ValidTree = t: Tree | WellFormed(t) witness map[[] := Dir]

  // ----- look-up -----

  /** Walk `rest` from directory `at`.  The result is a canonical path whose last component may be
      missing; `None` stands for a missing or non-directory component on the way, or too many links. */
  function Walk(t: Tree, at: Path, rest: Path, follow: bool, links: nat): Option<Path>
    decreases links, |rest|
  {
    if rest == [] then Some(at)
    else
      var q := at + [rest[0]];
      if q !in t then (if |rest| == 1 then Some(q) else None)
      else
        match t[q]
        case Dir => Walk(t, q, rest[1..], follow, links)
        case File(_) => if |rest| == 1 then Some(q) else None
        case Link(target) =>
          if |rest| == 1 && !follow then Some(q)
          else if links == 0 then None
          else Walk(t, [], target + rest[1..], follow, links - 1)
  }

  function Resolve(t: Tree, p: Path, follow: bool): Option<Path>
  {
    Walk(t, [], p, follow, MAX_LINKS)
  }

  predicate IsLink(t: Tree, p: Path) {
    p in t && t[p].Link?
  }

  predicate IsDir(t: Tree, p: Path) {
    p in t && t[p].Dir?
  }

  /** No proper ancestor of `p` is a link. */
  ghost predicate NoLinkAbove(t: Tree, p: Path) {
    forall i :: 0 <= i < |p| ==> !IsLink(t, p[..i])
  }

  /** Every proper ancestor of `p` is a directory. */
  ghost predicate DirsAbove(t: Tree, p: Path) {
    forall i :: 0 <= i < |p| ==> IsDir(t, p[..i])
  }

  lemma {:induction false} WalkInPlace(t: Tree, at: Path, rest: Path, follow: bool, links: nat)
    requires forall i :: 0 < i < |rest| ==> !IsLink(t, at + rest[..i])
    requires follow && rest != [] ==> !IsLink(t, at + rest)
    ensures Walk(t, at, rest, follow, links) == None || Walk(t, at, rest, follow, links) == Some(at + rest)
    ensures (forall i :: 0 < i < |rest| ==> IsDir(t, at + rest[..i])) ==>
            Walk(t, at, rest, follow, links) == Some(at + rest)
    decreases |rest|
  {
    if rest == [] {
      assert at + rest == at;
    } else {
      var q := at + [rest[0]];
      assert q == at + rest[..1];
      assert q + rest[1..] == at + rest;
      forall i | 0 < i < |rest[1..]| ensures q + rest[1..][..i] == at + rest[..i + 1] {
      }
      if |rest| == 1 {
        assert q == at + rest;
      } else {
        assert !IsLink(t, at + rest[..1]);
        assert forall i :: 0 < i < |rest[1..]| ==> !IsLink(t, q + rest[1..][..i]);
        WalkInPlace(t, q, rest[1..], follow, links);
      }
      if forall i :: 0 < i < |rest| ==> IsDir(t, at + rest[..i]) {
        assert forall i :: 0 < i < |rest[1..]| ==> IsDir(t, q + rest[1..][..i]);
        assert |rest| > 1 ==> IsDir(t, at + rest[..1]);
      }
    }
  }

  /** Without links on the way a look-up stays on the path itself. */
  lemma ResolveInPlace(t: Tree, p: Path, follow: bool)
    requires NoLinkAbove(t, p) && (follow ==> !IsLink(t, p))
    ensures Resolve(t, p, follow) == None || Resolve(t, p, follow) == Some(p)
    ensures DirsAbove(t, p) ==> Resolve(t, p, follow) == Some(p)
  {
    hide Walk;
    assert forall i :: 0 < i < |p| ==> [] + p[..i] == p[..i];
    assert [] + p == p;
    if DirsAbove(t, p) {
      assert forall i :: 0 < i < |p| ==> IsDir(t, [] + p[..i]);
    }
    WalkInPlace(t, [], p, follow, MAX_LINKS);
  }

  /** Going through a link continues from its target. */
  lemma {:induction false} WalkEnters(t: Tree, at: Path, mid: Path, tail: Path, follow: bool, links: nat)
    requires mid != [] && IsLink(t, at + mid) && links > 0 && (tail != [] || follow)
    requires forall i :: 0 < i < |mid| ==> !IsLink(t, at + mid[..i])
    ensures var r := Walk(t, at, mid + tail, follow, links);
            var onward := Walk(t, [], t[at + mid].target + tail, follow, links - 1);
            && (r == None || r == onward)
            && ((forall i :: 0 < i < |mid| ==> IsDir(t, at + mid[..i])) ==> r == onward)
    decreases |mid|
  {
    var q := at + [mid[0]];
    assert q == at + mid[..1] && (mid + tail)[0] == mid[0];
    assert (mid + tail)[1..] == mid[1..] + tail;
    assert q + mid[1..] == at + mid;
    if |mid| == 1 {
      assert q == at + mid && mid[1..] + tail == tail;
    } else {
      assert !IsLink(t, at + mid[..1]);
      forall i | 0 < i < |mid[1..]| ensures q + mid[1..][..i] == at + mid[..i + 1] {
      }
      assert forall i :: 0 < i < |mid[1..]| ==> !IsLink(t, q + mid[1..][..i]);
      WalkEnters(t, q, mid[1..], tail, follow, links);
      if forall i :: 0 < i < |mid| ==> IsDir(t, at + mid[..i]) {
        assert IsDir(t, at + mid[..1]);
        assert forall i :: 0 < i < |mid[1..]| ==> IsDir(t, q + mid[1..][..i]);
      }
    }
  }

  // ----- look-ups that keep out of a directory -----

  /** Following `rest` from `at` never looks below `root`, and would not even if missing directories were made. */
  ghost predicate WalksOutside(t: Tree, root: Path, at: Path, rest: Path, links: nat)
    decreases links, |rest|
  {
    if rest == [] then true
    else
      var q := at + [rest[0]];
      if q !in t then !(root < q + rest[1..])
      else
        && !(root < q)
        && match t[q]
           case Dir => WalksOutside(t, root, q, rest[1..], links)
           case File(_) => true
           case Link(target) => links == 0 || WalksOutside(t, root, [], target + rest[1..], links - 1)
  }

  ghost predicate LooksOutside(t: Tree, root: Path, p: Path) {
    WalksOutside(t, root, [], p, MAX_LINKS)
  }

  /** Such a look-up does not see what happens below `root`. */
  lemma {:induction false} WalkSame(t0: Tree, t: Tree, root: Path, at: Path, rest: Path, links: nat)
    requires SameOutside(root, t0, t) && WalksOutside(t0, root, at, rest, links) && !(root < at)
    ensures Walk(t, at, rest, true, links) == Walk(t0, at, rest, true, links)
    ensures var r := Walk(t0, at, rest, true, links); r.Some? ==> !(root < r.value)
    decreases links, |rest|
  {
    if rest != [] {
      var q := at + [rest[0]];
      assert q <= q + rest[1..];
      if q in t0 && t0[q].Dir? {
        WalkSame(t0, t, root, q, rest[1..], links);
      } else if q in t0 && t0[q].Link? && links > 0 {
        WalkSame(t0, t, root, [], t0[q].target + rest[1..], links - 1);
      }
    }
  }

  /** A larger budget of links finds what a smaller one finds. */
  lemma {:induction false} WalkMore(t: Tree, at: Path, rest: Path, follow: bool, a: nat, b: nat)
    requires a <= b && Walk(t, at, rest, follow, a).Some?
    ensures Walk(t, at, rest, follow, b) == Walk(t, at, rest, follow, a)
    decreases a, |rest|
  {
    if rest != [] {
      var q := at + [rest[0]];
      if q in t && t[q].Dir? {
        WalkMore(t, q, rest[1..], follow, a, b);
      } else if q in t && t[q].Link? && !(|rest| == 1 && !follow) {
        WalkMore(t, [], t[q].target + rest[1..], follow, a - 1, b - 1);
      }
    }
  }

  /** Making the directories on the way to `root` does not open a way in. */
  lemma {:induction false} NewDirsWalk(t: Tree, t': Tree, root: Path, at: Path, rest: Path, links: nat)
    requires WellFormed(t) && OnlyNewDirs(t, t', root) && WalksOutside(t, root, at, rest, links)
    ensures WalksOutside(t', root, at, rest, links)
    decreases links, |rest|
  {
    hide WellFormed;
    if rest != [] {
      var q := at + [rest[0]];
      if q !in t {
        NewDirsOnly(t, t', root, at, rest, links);
      } else if t[q].Dir? {
        NewDirsWalk(t, t', root, q, rest[1..], links);
      } else if t[q].Link? && links > 0 {
        NewDirsWalk(t, t', root, [], t[q].target + rest[1..], links - 1);
      }
    }
  }

  lemma {:induction false} NewDirsOnly(t: Tree, t': Tree, root: Path, at: Path, rest: Path, links: nat)
    requires WellFormed(t) && OnlyNewDirs(t, t', root) && !(root < at + rest)
    requires rest != [] && at + [rest[0]] !in t
    ensures WalksOutside(t', root, at, rest, links)
    decreases |rest|
  {
    var q := at + [rest[0]];
    assert q + rest[1..] == at + rest && q <= at + rest;
    if q in t' && |rest| > 1 {
      var next := q + [rest[1..][0]];
      assert next[..|next| - 1] == q;
      NewDirsOnly(t, t', root, q, rest[1..], links);
    }
  }

  lemma DirsAboveHaveNoLinks(t: Tree, p: Path)
    requires DirsAbove(t, p)
    ensures NoLinkAbove(t, p)
  {
  }

  lemma {:induction false} WellFormedAbove(t: Tree, p: Path)
    requires WellFormed(t) && p in t
    ensures DirsAbove(t, p)
  {
    if p != [] {
      var parent := p[..|p| - 1];
      WellFormedAbove(t, parent);
      forall i | 0 <= i < |p| ensures IsDir(t, p[..i]) {
        if i < |p| - 1 {
          assert parent[..i] == p[..i];
        }
      }
    }
  }

  // ----- operations -----

  function Lstat(t: Tree, p: Path): Option<Node>
  {
    match Resolve(t, p, false)
    case None => None
    case Some(q) => if q in t then Some(t[q]) else None
  }

  function Stat(t: Tree, p: Path): Option<Node>
  {
    match Resolve(t, p, true)
    case None => None
    case Some(q) => if q in t then Some(t[q]) else None
  }

  function ReadFile(t: Tree, p: Path): Option<string>
  {
    match Stat(t, p)
    case Some(File(content)) => Some(content)
    case _ => None
  }

  function Symlink(t: Tree, target: Path, p: Path): Outcome
  {
    match Resolve(t, p, false)
    case None => Outcome(t, false)
    case Some(q) => if q in t then Outcome(t, false) else Outcome(t[q := Link(target)], true)
  }

  /** Writing follows a link in the last component too, and creates the file it points to. */
  function WriteFile(t: Tree, p: Path, content: string): Outcome
  {
    match Resolve(t, p, true)
    case None => Outcome(t, false)
    case Some(q) => if IsDir(t, q) then Outcome(t, false) else Outcome(t[q := File(content)], true)
  }

  function Mkdir(t: Tree, p: Path): Outcome
  {
    match Resolve(t, p, false)
    case None => Outcome(t, false)
    case Some(q) => if q in t then Outcome(t, false) else Outcome(t[q := Dir], true)
  }

  function MkdirAll(t: Tree, p: Path): Outcome
    decreases |p|
  {
    match Stat(t, p)
    case Some(node) => Outcome(t, node.Dir?)
    case None =>
      if p == [] then Outcome(t, false)
      else
        var above := MkdirAll(t, p[..|p| - 1]);
        if !above.ok then above else Mkdir(above.tree, p)
  }

  predicate HasChildren(t: Tree, p: Path) {
    exists q :: q in t && p < q
  }

  /** Removing never follows a link in the last component; a missing file is no error. */
  function Remove(t: Tree, p: Path): Outcome
  {
    match Resolve(t, p, false)
    case None => Outcome(t, true)
    case Some(q) => if HasChildren(t, q) then Outcome(t, false) else Outcome(t - {q}, true)
  }

  function RemoveAll(t: Tree, p: Path): Outcome
  {
    match Resolve(t, p, false)
    case None => Outcome(t, true)
    case Some(q) => Outcome(map r | r in t && !(q <= r) :: t[r], true)
  }

  // ----- every operation keeps the tree well-formed -----

  lemma TopAndParent(t: Tree, p: Path)
    requires WellFormed(t)
    ensures IsDir(t, []) && (p in t && p != [] ==> IsDir(t, p[..|p| - 1]))
  {
  }

  lemma {:induction false} WalkParent(t: Tree, at: Path, rest: Path, follow: bool, links: nat)
    requires WellFormed(t) && IsDir(t, at)
    ensures var r := Walk(t, at, rest, follow, links);
            r.Some? && r.value != [] ==> IsDir(t, r.value[..|r.value| - 1])
    ensures rest != [] && !follow ==> Walk(t, at, rest, follow, links) != Some([])
    decreases links, |rest|
  {
    hide WellFormed;
    TopAndParent(t, at);
    if rest != [] {
      var q := at + [rest[0]];
      assert q[..|q| - 1] == at;
      if q in t && t[q].Dir? {
        WalkParent(t, q, rest[1..], follow, links);
      } else if q in t && t[q].Link? && links > 0 {
        WalkParent(t, [], t[q].target + rest[1..], follow, links - 1);
      }
    }
  }

  lemma ResolveParent(t: Tree, p: Path, follow: bool)
    requires WellFormed(t)
    ensures var r := Resolve(t, p, follow);
            r.Some? && r.value != [] ==> IsDir(t, r.value[..|r.value| - 1])
    ensures p != [] && !follow ==> Resolve(t, p, follow) != Some([])
  {
    hide Walk, WellFormed;
    TopAndParent(t, p);
    WalkParent(t, [], p, follow, MAX_LINKS);
  }

  lemma PutWellFormed(t: Tree, q: Path, node: Node)
    requires WellFormed(t) && !IsDir(t, q) && (q != [] ==> IsDir(t, q[..|q| - 1]))
    ensures WellFormed(t[q := node])
  {
  }

  lemma SymlinkWellFormed(t: Tree, target: Path, p: Path)
    requires WellFormed(t)
    ensures WellFormed(Symlink(t, target, p).tree)
  {
    hide Resolve;
    ResolveParent(t, p, false);
    var r := Resolve(t, p, false);
    if r.Some? && r.value !in t {
      PutWellFormed(t, r.value, Link(target));
    }
  }

  lemma WriteWellFormed(t: Tree, p: Path, content: string)
    requires WellFormed(t)
    ensures WellFormed(WriteFile(t, p, content).tree)
  {
    hide Resolve;
    ResolveParent(t, p, true);
    var r := Resolve(t, p, true);
    if r.Some? && !IsDir(t, r.value) {
      PutWellFormed(t, r.value, File(content));
    }
  }

  lemma MkdirWellFormed(t: Tree, p: Path)
    requires WellFormed(t)
    ensures WellFormed(Mkdir(t, p).tree)
  {
    hide Resolve;
    ResolveParent(t, p, false);
    var r := Resolve(t, p, false);
    if r.Some? && r.value !in t {
      PutWellFormed(t, r.value, Dir);
    }
  }

  lemma {:induction false} MkdirAllWellFormed(t: Tree, p: Path)
    requires WellFormed(t)
    ensures WellFormed(MkdirAll(t, p).tree)
    decreases |p|
  {
    hide Stat, Mkdir, WellFormed;
    if Stat(t, p) == None && p != [] {
      MkdirAllWellFormed(t, p[..|p| - 1]);
      MkdirWellFormed(MkdirAll(t, p[..|p| - 1]).tree, p);
    }
  }

  lemma RemoveWellFormed(t: Tree, p: Path)
    requires WellFormed(t) && p != []
    ensures WellFormed(Remove(t, p).tree)
  {
    hide Resolve;
    ResolveParent(t, p, false);
    var r := Resolve(t, p, false);
    if r.Some? && !HasChildren(t, r.value) {
      forall q | q in t && q != [] && q != r.value ensures q[..|q| - 1] != r.value {
        assert q[..|q| - 1] < q;
      }
    }
  }

  lemma RemoveAllWellFormed(t: Tree, p: Path)
    requires WellFormed(t) && p != []
    ensures WellFormed(RemoveAll(t, p).tree)
  {
    hide Resolve;
    ResolveParent(t, p, false);
    var r := Resolve(t, p, false);
    if r.Some? {
      forall q | q in t && q != [] && !(r.value <= q) ensures !(r.value <= q[..|q| - 1]) {
        assert q[..|q| - 1] <= q;
      }
    }
  }

  // ----- operations in place -----

  /** Nothing changed except strictly below `root`. */
  ghost predicate SameOutside(root: Path, t: Tree, t': Tree) {
    forall q :: !(root < q) ==> (q in t <==> q in t') && (q in t ==> t[q] == t'[q])
  }

  lemma SameOutsideRefl(root: Path, t: Tree)
    ensures SameOutside(root, t, t)
  {
  }

  ghost predicate NoNewLinks(t: Tree, t': Tree) {
    forall q :: IsLink(t', q) ==> q in t && t[q] == t'[q]
  }

  lemma SymlinkInPlace(t: Tree, target: Path, p: Path)
    requires NoLinkAbove(t, p)
    ensures var r := Symlink(t, target, p);
            && (r.ok ==> p !in t && r.tree == t[p := Link(target)])
            && (!r.ok ==> r.tree == t)
            && (DirsAbove(t, p) && p !in t ==> r.ok)
  {
    hide Resolve, NoLinkAbove, DirsAbove;
    ResolveInPlace(t, p, false);
  }

  lemma WriteInPlace(t: Tree, p: Path, content: string)
    requires NoLinkAbove(t, p) && !IsLink(t, p)
    ensures var r := WriteFile(t, p, content);
            && (r.ok ==> r.tree == t[p := File(content)] && !IsDir(t, p))
            && (!r.ok ==> r.tree == t)
            && (DirsAbove(t, p) && !IsDir(t, p) ==> r.ok)
  {
    hide Resolve, NoLinkAbove, DirsAbove;
    ResolveInPlace(t, p, true);
  }

  lemma RemoveInPlace(t: Tree, p: Path)
    requires NoLinkAbove(t, p)
    ensures Remove(t, p).tree == t || Remove(t, p).tree == t - {p}
  {
    hide Resolve, NoLinkAbove;
    ResolveInPlace(t, p, false);
  }

  lemma RemoveAllInPlace(t: Tree, p: Path)
    requires NoLinkAbove(t, p)
    ensures forall q :: q in RemoveAll(t, p).tree ==> q in t && RemoveAll(t, p).tree[q] == t[q]
    ensures forall q :: q in t && !(p <= q) ==> q in RemoveAll(t, p).tree
  {
    hide Resolve, NoLinkAbove;
    ResolveInPlace(t, p, false);
  }

  lemma RemoveAllExact(t: Tree, p: Path)
    requires DirsAbove(t, p)
    ensures var t' := RemoveAll(t, p).tree;
            forall q :: (q in t' <==> q in t && !(p <= q)) && (q in t' ==> t'[q] == t[q])
  {
    hide Resolve, DirsAbove, NoLinkAbove;
    DirsAboveHaveNoLinks(t, p);
    ResolveInPlace(t, p, false);
  }

  /** The only difference is new directories on the way to `p`. */
  ghost predicate OnlyNewDirs(t: Tree, t': Tree, p: Path) {
    && (forall q :: q in t ==> q in t' && t'[q] == t[q])
    && (forall q :: q in t' && q !in t ==> q <= p && t'[q] == Dir)
  }

  lemma {:induction false} MkdirAllInPlace(t: Tree, p: Path)
    requires NoLinkAbove(t, p) && !IsLink(t, p)
    ensures OnlyNewDirs(t, MkdirAll(t, p).tree, p)
    ensures MkdirAll(t, p).ok ==> IsDir(MkdirAll(t, p).tree, p)
    decreases |p|
  {
    hide Resolve, NoLinkAbove, OnlyNewDirs, Mkdir;
    ResolveInPlace(t, p, true);
    NoNewDirs(t, p);
    if Stat(t, p) == None && p != [] {
      var parent := p[..|p| - 1];
      ParentHasNoLinks(t, p);
      MkdirAllInPlace(t, parent);
      var above := MkdirAll(t, parent);
      OnlyNewDirsNoLinks(t, above.tree, parent, p);
      NewDirAbove(t, above.tree, p);
    }
  }

  lemma NoNewDirs(t: Tree, p: Path)
    ensures OnlyNewDirs(t, t, p)
  {
  }

  /** One more directory after those above it. */
  lemma NewDirAbove(t: Tree, above: Tree, p: Path)
    requires p != [] && OnlyNewDirs(t, above, p[..|p| - 1]) && NoLinkAbove(above, p)
    ensures OnlyNewDirs(t, above, p) && OnlyNewDirs(t, Mkdir(above, p).tree, p)
    ensures Mkdir(above, p).ok ==> IsDir(Mkdir(above, p).tree, p)
  {
    hide Resolve, NoLinkAbove;
    ResolveInPlace(above, p, false);
    assert p[..|p| - 1] <= p;
  }

  lemma ParentHasNoLinks(t: Tree, p: Path)
    requires NoLinkAbove(t, p) && p != []
    ensures NoLinkAbove(t, p[..|p| - 1]) && !IsLink(t, p[..|p| - 1])
  {
    var parent := p[..|p| - 1];
    forall i | 0 <= i < |parent| ensures !IsLink(t, parent[..i]) {
      assert parent[..i] == p[..i];
    }
  }

  lemma OnlyNewDirsNoLinks(t: Tree, t': Tree, q: Path, p: Path)
    requires OnlyNewDirs(t, t', q) && NoLinkAbove(t, p)
    ensures NoLinkAbove(t', p)
  {
  }

  /** Making one more directory below existing ones. */
  lemma MkdirAllOne(t: Tree, p: Path)
    requires DirsAbove(t, p) && p !in t && p != []
    ensures MkdirAll(t, p) == Outcome(t[p := Dir], true)
  {
    hide Resolve, NoLinkAbove, DirsAbove;
    DirsAboveHaveNoLinks(t, p);
    ResolveInPlace(t, p, true);
    ResolveInPlace(t, p, false);
    var parent := p[..|p| - 1];
    ParentIsDir(t, p);
    DirsAboveHaveNoLinks(t, parent);
    ResolveInPlace(t, parent, true);
  }

  lemma ParentIsDir(t: Tree, p: Path)
    requires DirsAbove(t, p) && p != []
    ensures DirsAbove(t, p[..|p| - 1]) && IsDir(t, p[..|p| - 1])
  {
    var parent := p[..|p| - 1];
    forall i | 0 <= i < |parent| ensures IsDir(t, parent[..i]) {
      assert parent[..i] == p[..i];
    }
  }

  // ----- listings -----

  function ChildNames(t: Tree, dir: Path): (names: set<string>)
    ensures forall n :: n in names <==> dir + [n] in t
  {
    var names := set p | p in t && |p| == |dir| + 1 && p[..|dir|] == dir :: p[|dir|];
    assert forall n :: n in names <==> dir + [n] in t by {
      forall n ensures n in names <==> dir + [n] in t {
        if n in names {
          var p :| p in t && |p| == |dir| + 1 && p[..|dir|] == dir && p[|dir|] == n;
          assert p == dir + [n];
        }
        if dir + [n] in t {
          var p := dir + [n];
          assert p[..|dir|] == dir && p[|dir|] == n;
        }
      }
    }
    names
  }

  /** Everything at or below `root`, as paths relative to it. */
  function Below(t: Tree, root: Path): (rels: set<Path>)
    ensures forall r :: r in rels <==> root + r in t
  {
    var rels := set p | p in t && root <= p :: p[|root|..];
    assert forall r :: r in rels <==> root + r in t by {
      forall r ensures r in rels <==> root + r in t {
        if r in rels {
          var p :| p in t && root <= p && p[|root|..] == r;
          assert p == root + r;
        }
        if root + r in t {
          var p := root + r;
          assert root <= p && p[|root|..] == r;
        }
      }
    }
    rels
  }

  /** The order in which `filepath.WalkDir` visits: siblings by name, directories before their contents. */
  predicate PathLess(a: Path, b: Path)
  {
    if b == [] then false
    else if a == [] then true
    else if a[0] != b[0] then Less(a[0], b[0])
    else PathLess(a[1..], b[1..])
  }

  lemma {:induction false} PathLessIrreflexive(a: Path)
    ensures !PathLess(a, a)
  {
    if a != [] {
      PathLessIrreflexive(a[1..]);
    }
  }

  lemma {:induction false} PathLessTransitive(a: Path, b: Path, c: Path)
    requires PathLess(a, b) && PathLess(b, c)
    ensures PathLess(a, c)
  {
    hide Less;
    if a != [] {
      if a[0] == b[0] == c[0] {
        PathLessTransitive(a[1..], b[1..], c[1..]);
      } else {
        LessIsStrictTotal();
      }
    }
  }

  lemma {:induction false} PathLessConnected(a: Path, b: Path)
    ensures a == b || PathLess(a, b) || PathLess(b, a)
  {
    hide Less;
    if a != [] && b != [] {
      if a[0] == b[0] {
        PathLessConnected(a[1..], b[1..]);
        assert a == [a[0]] + a[1..] && b == [b[0]] + b[1..];
      } else {
        LessConnected(a[0], b[0]);
      }
    }
  }

  lemma PathLessIsStrictTotal()
    ensures StrictTotal(PathLess)
  {
    hide PathLess;
    forall x ensures !PathLess(x, x) { PathLessIrreflexive(x); }
    forall x, y, z | PathLess(x, y) && PathLess(y, z) ensures PathLess(x, z) { PathLessTransitive(x, y, z); }
    forall x, y ensures x == y || PathLess(x, y) || PathLess(y, x) { PathLessConnected(x, y); }
  }

  lemma {:induction false} PrefixIsLess(a: Path, b: Path)
    requires a < b
    ensures PathLess(a, b)
  {
    if a != [] {
      PrefixIsLess(a[1..], b[1..]);
    }
  }

  // ----- the machine's disk -----

  class Disk {
    var tree: ValidTree

    constructor (t: ValidTree)
      ensures tree == t
    {
      tree := t;
    }

    method Link(target: Path, p: Path) returns (ok: bool)
      modifies this
      ensures Outcome(tree, ok) == Symlink(old(tree), target, p)
    {
      hide WellFormed, Symlink;
      SymlinkWellFormed(tree, target, p);
      var r := Symlink(tree, target, p);
      tree, ok := r.tree, r.ok;
    }

    method Write(p: Path, content: string) returns (ok: bool)
      modifies this
      ensures Outcome(tree, ok) == WriteFile(old(tree), p, content)
    {
      hide WellFormed, WriteFile;
      WriteWellFormed(tree, p, content);
      var r := WriteFile(tree, p, content);
      tree, ok := r.tree, r.ok;
    }

    method MakeDir(p: Path) returns (ok: bool)
      modifies this
      ensures Outcome(tree, ok) == Mkdir(old(tree), p)
    {
      hide WellFormed, Mkdir;
      MkdirWellFormed(tree, p);
      var r := Mkdir(tree, p);
      tree, ok := r.tree, r.ok;
    }

    method MakeDirs(p: Path) returns (ok: bool)
      modifies this
      ensures Outcome(tree, ok) == MkdirAll(old(tree), p)
    {
      hide WellFormed, MkdirAll;
      MkdirAllWellFormed(tree, p);
      var r := MkdirAll(tree, p);
      tree, ok := r.tree, r.ok;
    }

    method Delete(p: Path) returns (ok: bool)
      requires p != []
      modifies this
      ensures Outcome(tree, ok) == Remove(old(tree), p)
    {
      hide WellFormed, Remove;
      RemoveWellFormed(tree, p);
      var r := Remove(tree, p);
      tree, ok := r.tree, r.ok;
    }

    method DeleteAll(p: Path) returns (ok: bool)
      requires p != []
      modifies this
      ensures Outcome(tree, ok) == RemoveAll(old(tree), p)
    {
      hide WellFormed, RemoveAll;
      RemoveAllWellFormed(tree, p);
      var r := RemoveAll(tree, p);
      tree, ok := r.tree, r.ok;
    }

    /** `os.ReadDir`: the entries of a directory in name order. */
    method ReadDir(p: Path) returns (names: seq<string>, ok: bool)
      ensures ok <==> Stat(tree, p) == Some(Dir)
      ensures ok ==> names == Listing(Less, ChildNames(tree, Resolve(tree, p, true).value))
    {
      names, ok := [], false;
      var q := Resolve(tree, p, true);
      if q.Some? && IsDir(tree, q.value) {
        LessIsStrictTotal();
        names := SortedElements(Less, ChildNames(tree, q.value));
        ok := true;
      }
    }

    /** `filepath.WalkDir`: the visited paths relative to `root`, which is not itself followed. */
    method WalkDir(root: Path) returns (rels: seq<Path>)
      ensures Resolve(tree, root, false).None? ==> rels == []
      ensures Resolve(tree, root, false).Some? ==>
                rels == Listing(PathLess, Below(tree, Resolve(tree, root, false).value))
    {
      var q := Resolve(tree, root, false);
      if q.None? {
        return [];
      }
      PathLessIsStrictTotal();
      rels := SortedElements(PathLess, Below(tree, q.value));
    }
  }
}
