/**
 Populating a snapshot workspace: links to the checkout, real directories where generated code goes,
 and copies of the trees that later steps rewrite.  Shared by the runtime check and the coverage tool.
 */
module Snapshot {
  import opened Orders
  import opened Text
  import opened FileSystem

  /** The two commands that build a snapshot workspace. */
  datatype Tool = RuntimeTool | CoverageTool

  /** API groups, registration groups and service-manager roots selected for generation. */
  datatype Selection = Selection(tool: Tool, groups: set<string>, registrations: set<string>, roots: set<string>)

  /** Single entries of the checkout that are linked. */
  function TopNames(tool: Tool): (names: seq<string>)
    ensures Distinct(names)
  {
    match tool
    case RuntimeTool => ["go.mod", "go.sum", "hack", "vendor", "formal"]
    case CoverageTool => ["go.mod", "go.sum", "cmd", "hack", "validator_allowlist.yaml", "vendor", "formal"]
  }

  /** Directories of `internal` that later steps rewrite, so that they are copied. */
  function CopiedNames(tool: Tool): (names: set<string>)
  {
    match tool
    case RuntimeTool => {"generator"}
    case CoverageTool => {"generator", "validator"}
  }

  // ----- regions of the tree -----

  /** Nothing lives at or below `p`. */
  ghost predicate Vacant(t: Tree, p: Path) {
    forall q :: q in t ==> !(p <= q)
  }

  /** Only new nodes at or below `root` were added. */
  ghost predicate Grew(t: Tree, t': Tree, root: Path) {
    && (forall q :: q in t ==> q in t' && t'[q] == t[q])
    && (forall q :: q in t' && q !in t ==> root <= q)
  }

  /** At or below `root` the tree holds exactly `piece`. */
  ghost predicate Exactly(t: Tree, root: Path, piece: map<Path, Node>) {
    forall q :: root <= q ==> (q in t <==> q in piece) && (q in t ==> t[q] == piece[q])
  }

  lemma Comparable(a: Path, b: Path, q: Path)
    requires a <= q && b <= q
    ensures a <= b || b <= a
  {
    if |a| <= |b| {
      assert a == q[..|a|] == b[..|a|];
    } else {
      assert b == q[..|b|] == a[..|b|];
    }
  }

  lemma GrewExactly(t: Tree, t': Tree, root: Path, p: Path, piece: map<Path, Node>)
    requires Grew(t, t', root) && Exactly(t, p, piece) && !(root <= p) && !(p <= root)
    ensures Exactly(t', p, piece)
  {
    forall q | p <= q ensures q in t <==> q in t' {
      if q in t' && q !in t {
        Comparable(root, p, q);
      }
    }
  }

  /** Siblings are not below one another. */
  lemma Siblings(root: Path, a: string, b: string)
    requires a != b
    ensures !(root + [a] <= root + [b])
  {
    assert (root + [a])[|root|] == a && (root + [b])[|root|] == b;
  }

  lemma ChildDirs(t: Tree, dir: Path, name: string)
    requires IsDir(t, dir) && DirsAbove(t, dir)
    ensures DirsAbove(t, dir + [name])
  {
    var p := dir + [name];
    forall i | 0 <= i < |p| ensures IsDir(t, p[..i]) {
      if i < |dir| {
        assert p[..i] == dir[..i];
      } else {
        assert p[..i] == dir;
      }
    }
  }

  // ----- linking the children of a directory -----

  ghost function LinkMap(src: Path, dst: Path, names: set<string>): map<Path, Node>
  {
    map q | q in (set n | n in names :: dst + [n]) :: Link(src + [q[|q| - 1]])
  }

  lemma LinkMapAt(src: Path, dst: Path, names: set<string>, q: Path)
    ensures q in LinkMap(src, dst, names) <==> |q| == |dst| + 1 && dst <= q && q[|dst|] in names
    ensures q in LinkMap(src, dst, names) ==> LinkMap(src, dst, names)[q] == Link(src + [q[|dst|]])
  {
    if |q| == |dst| + 1 && dst <= q && q[|dst|] in names {
      assert q == dst + [q[|dst|]];
    }
  }

  function Chosen(names: seq<string>, wanted: string -> bool): (chosen: set<string>)
    ensures forall n :: n in chosen <==> n in names && wanted(n)
  {
    set n | n in names && wanted(n)
  }

  lemma LinkStep(t: Tree, src: Path, dst: Path, done: set<string>, n: string)
    requires IsDir(t, dst) && DirsAbove(t, dst) && n !in done && dst + [n] !in t
    ensures Symlink(t + LinkMap(src, dst, done), src + [n], dst + [n])
            == Outcome(t + LinkMap(src, dst, done + {n}), true)
  {
    hide DirsAbove, Symlink, LinkMap, NoLinkAbove;
    var t' := t + LinkMap(src, dst, done);
    var p := dst + [n];
    LinkMapAt(src, dst, done, p);
    assert p !in t';
    assert DirsAbove(t', p) by {
      LinkMapDirs(t, src, dst, done);
      ChildDirs(t', dst, n);
    }
    DirsAboveHaveNoLinks(t', p);
    SymlinkInPlace(t', src + [n], p);
    LinkMapAdd(src, dst, done, n);
    assert t'[p := Link(src + [n])] == t + LinkMap(src, dst, done)[p := Link(src + [n])];
  }

  lemma LinkNothing(t: Tree, src: Path, dst: Path)
    ensures t + LinkMap(src, dst, {}) == t
  {
  }

  lemma LinkMapDirs(t: Tree, src: Path, dst: Path, names: set<string>)
    requires IsDir(t, dst) && DirsAbove(t, dst)
    ensures IsDir(t + LinkMap(src, dst, names), dst) && DirsAbove(t + LinkMap(src, dst, names), dst)
  {
    hide LinkMap;
    var t' := t + LinkMap(src, dst, names);
    LinkMapAt(src, dst, names, dst);
    forall i | 0 <= i < |dst| ensures IsDir(t', dst[..i]) {
      assert IsDir(t, dst[..i]);
      LinkMapAt(src, dst, names, dst[..i]);
    }
  }

  /** One loop over directory entries: every wanted entry gets a link, and no step finds its destination taken. */
  method LinkChildren(disk: Disk, src: Path, dst: Path, names: seq<string>, wanted: string -> bool) returns (ok: bool)
    requires Distinct(names) && IsDir(disk.tree, dst) && DirsAbove(disk.tree, dst)
    requires forall n :: n in names && wanted(n) ==> dst + [n] !in disk.tree
    modifies disk
    ensures ok && disk.tree == old(disk.tree) + LinkMap(src, dst, Chosen(names, wanted))
  {
    hide DirsAbove, Symlink, LinkMap, IsDir, WellFormed;
    ghost var t := disk.tree;
    LinkNothing(t, src, dst);
    assert Chosen(names[..0], wanted) == {};
    for i := 0 to |names|
      invariant disk.tree == t + LinkMap(src, dst, Chosen(names[..i], wanted))
    {
      ghost var done := Chosen(names[..i], wanted);
      assert names[..i + 1] == names[..i] + [names[i]];
      if wanted(names[i]) {
        assert names[i] !in done;
        LinkStep(t, src, dst, done, names[i]);
        var linked := disk.Link(src + [names[i]], dst + [names[i]]);
        assert Chosen(names[..i + 1], wanted) == done + {names[i]};
        if !linked {
          return false;
        }
      } else {
        assert Chosen(names[..i + 1], wanted) == done;
      }
    }
    assert names[..|names|] == names;
    ok := true;
  }

  lemma LinkMapAdd(src: Path, dst: Path, names: set<string>, n: string)
    ensures LinkMap(src, dst, names + {n}) == LinkMap(src, dst, names)[dst + [n] := Link(src + [n])]
  {
    hide LinkMap;
    var a, b := LinkMap(src, dst, names + {n}), LinkMap(src, dst, names)[dst + [n] := Link(src + [n])];
    forall q ensures q in a <==> q in b
             ensures q in a ==> a[q] == b[q]
    {
      LinkMapAt(src, dst, names + {n}, q);
      LinkMapAt(src, dst, names, q);
      if |q| == |dst| + 1 && dst <= q {
        assert q == dst + [q[|dst|]];
      }
    }
  }

  // ----- copying a tree -----

  /** Every node at or below `src` lives in real directories. */
  ghost predicate Rooted(t: Tree, src: Path) {
    forall q :: q in t && src <= q ==> DirsAbove(t, q)
  }

  ghost function CopyMap(t: Tree, src: Path, dst: Path, rels: set<Path>): map<Path, Node>
    requires forall r :: r in rels ==> src + r in t
  {
    map q | q in (set r | r in rels :: dst + r) :: t[src + q[|dst|..]]
  }

  lemma CopyMapAt(t: Tree, src: Path, dst: Path, rels: set<Path>, q: Path)
    requires forall r :: r in rels ==> src + r in t
    ensures q in CopyMap(t, src, dst, rels) <==> dst <= q && q[|dst|..] in rels
    ensures q in CopyMap(t, src, dst, rels) ==> CopyMap(t, src, dst, rels)[q] == t[src + q[|dst|..]]
  {
    if dst <= q && q[|dst|..] in rels {
      assert q == dst + q[|dst|..];
    }
    if q in CopyMap(t, src, dst, rels) {
      var r :| r in rels && q == dst + r;
      assert q[|dst|..] == r;
    }
  }

  lemma CopyMapAdd(t: Tree, src: Path, dst: Path, rels: set<Path>, r: Path)
    requires forall r' :: r' in rels + {r} ==> src + r' in t
    ensures CopyMap(t, src, dst, rels + {r}) == CopyMap(t, src, dst, rels)[dst + r := t[src + r]]
  {
    hide CopyMap;
    var a, b := CopyMap(t, src, dst, rels + {r}), CopyMap(t, src, dst, rels)[dst + r := t[src + r]];
    assert (dst + r)[|dst|..] == r;
    forall q ensures q in a <==> q in b
             ensures q in a ==> a[q] == b[q]
    {
      CopyMapAt(t, src, dst, rels + {r}, q);
      CopyMapAt(t, src, dst, rels, q);
      if dst <= q {
        assert q == dst + q[|dst|..];
      }
    }
  }

  /** While a copy is under way in walk order, the directories above the next target are in place. */
  lemma CopyDirsAbove(t: Tree, src: Path, dst: Path, done: set<Path>, rel: Path)
    requires Rooted(t, src) && src + rel in t
    requires forall r :: r in done ==> src + r in t
    requires DirsAbove(t, dst)
    requires forall k :: 0 <= k < |rel| ==> rel[..k] in done
    ensures DirsAbove(t + CopyMap(t, src, dst, done), dst + rel)
  {
    hide CopyMap;
    assert DirsAbove(t, src + rel);
    forall i | 0 <= i < |dst + rel| ensures IsDir(t + CopyMap(t, src, dst, done), (dst + rel)[..i]) {
      if i < |dst| {
        assert (dst + rel)[..i] == dst[..i];
        assert IsDir(t, dst[..i]);
        CopyMapAt(t, src, dst, done, dst[..i]);
      } else {
        CopiedDir(t, src, dst, done, rel, i - |dst|);
        assert (dst + rel)[..i] == dst + rel[..i - |dst|];
      }
    }
  }

  lemma CopiedDir(t: Tree, src: Path, dst: Path, done: set<Path>, rel: Path, k: nat)
    requires DirsAbove(t, src + rel) && k < |rel| && rel[..k] in done
    requires forall r :: r in done ==> src + r in t
    ensures IsDir(t + CopyMap(t, src, dst, done), dst + rel[..k])
  {
    hide CopyMap;
    var q := dst + rel[..k];
    CopyMapAt(t, src, dst, done, q);
    assert dst <= q && q[|dst|..] == rel[..k];
    assert (src + rel)[..|src| + k] == src + rel[..k];
    assert IsDir(t, (src + rel)[..|src| + k]);
  }

  function CopyNode(t: Tree, node: Node, p: Path): Outcome
  {
    match node
    case Dir => MkdirAll(t, p)
    case File(content) => WriteFile(t, p, content)
    case Link(target) => Symlink(t, target, p)
  }

  lemma CopyStep(t: Tree, src: Path, dst: Path, done: set<Path>, rel: Path)
    requires Rooted(t, src) && src + rel in t && dst != [] && rel !in done
    requires forall r :: r in done ==> src + r in t
    requires DirsAbove(t, dst) && Vacant(t, dst)
    requires forall k :: 0 <= k < |rel| ==> rel[..k] in done
    ensures forall r :: r in done + {rel} ==> src + r in t
    ensures CopyNode(t + CopyMap(t, src, dst, done), t[src + rel], dst + rel)
            == Outcome(t + CopyMap(t, src, dst, done + {rel}), true)
  {
    hide DirsAbove, Rooted, MkdirAll, WriteFile, Symlink, NoLinkAbove, CopyMap;
    var t' := t + CopyMap(t, src, dst, done);
    var p := dst + rel;
    CopyMapAt(t, src, dst, done, p);
    assert dst <= p && p[|dst|..] == rel && p !in t';
    CopyDirsAbove(t, src, dst, done, rel);
    DirsAboveHaveNoLinks(t', p);
    CopyMapAdd(t, src, dst, done, rel);
    assert t'[p := t[src + rel]] == t + CopyMap(t, src, dst, done)[p := t[src + rel]];
    match t[src + rel] {
      case Dir => MkdirAllOne(t', p);
      case File(content) => WriteInPlace(t', p, content);
      case Link(target) => SymlinkInPlace(t', target, p);
    }
  }

  /** The result of a walk: every node at or below `src`, once, in walk order. */
  ghost predicate Walked(t: Tree, src: Path, rels: seq<Path>) {
    Increasing(PathLess, rels) && Elems(rels) == Below(t, src)
  }

  lemma WalkedListing(t: Tree, src: Path)
    ensures Walked(t, src, Listing(PathLess, Below(t, src)))
  {
    hide PathLess, Listing;
    PathLessIsStrictTotal();
    ListingSpec(PathLess, Below(t, src));
  }

  lemma WalkedPrefix(t: Tree, src: Path, rels: seq<Path>, i: nat)
    requires Walked(t, src, rels) && i <= |rels|
    ensures forall r :: r in Elems(rels[..i]) ==> src + r in t
    ensures i < |rels| ==> rels[i] !in Elems(rels[..i]) && src + rels[i] in t
    ensures i < |rels| ==> Elems(rels[..i + 1]) == Elems(rels[..i]) + {rels[i]}
  {
    hide PathLess;
    PathLessIsStrictTotal();
    forall r | r in Elems(rels[..i]) ensures src + r in t {
      assert r in Elems(rels);
    }
    if i < |rels| {
      assert rels[i] in Elems(rels);
      assert rels[..i + 1] == rels[..i] + [rels[i]];
      ElemsConcat(rels[..i], [rels[i]]);
    }
  }

  /** Everything walked before a path includes its ancestors. */
  lemma AncestorsWalkedFirst(t: Tree, src: Path, rels: seq<Path>, i: nat, k: nat)
    requires Rooted(t, src) && Walked(t, src, rels) && i < |rels| && k < |rels[i]|
    ensures rels[i][..k] in Elems(rels[..i])
  {
    hide PathLess;
    var rel := rels[i];
    WalkedPrefix(t, src, rels, i);
    assert DirsAbove(t, src + rel);
    assert (src + rel)[..|src| + k] == src + rel[..k];
    assert IsDir(t, (src + rel)[..|src| + k]);
    assert rel[..k] in Elems(rels);
    var j :| 0 <= j < |rels| && rels[j] == rel[..k];
    PrefixIsLess(rel[..k], rel);
    PathLessIsStrictTotal();
    assert j < i;
    assert rels[..i][j] == rel[..k];
  }

  lemma CopyStepAt(t: Tree, src: Path, dst: Path, rels: seq<Path>, i: nat)
    requires Rooted(t, src) && Walked(t, src, rels) && i < |rels| && dst != []
    requires DirsAbove(t, dst) && Vacant(t, dst) && !(src <= dst) && !(dst <= src)
    requires forall r :: r in Elems(rels[..i]) ==> src + r in t
    requires forall r :: r in Elems(rels[..i + 1]) ==> src + r in t
    ensures var t' := t + CopyMap(t, src, dst, Elems(rels[..i]));
            && src + rels[i] in t' && t'[src + rels[i]] == t[src + rels[i]]
            && CopyNode(t', t[src + rels[i]], dst + rels[i])
                == Outcome(t + CopyMap(t, src, dst, Elems(rels[..i + 1])), true)
  {
    hide Rooted, Walked, DirsAbove, Vacant, CopyMap, CopyNode;
    WalkedPrefix(t, src, rels, i);
    forall k | 0 <= k < |rels[i]| ensures rels[i][..k] in Elems(rels[..i]) {
      AncestorsWalkedFirst(t, src, rels, i, k);
    }
    CopyStep(t, src, dst, Elems(rels[..i]), rels[i]);
    CopySourceKept(t, src, dst, Elems(rels[..i]), rels[i]);
  }

  lemma CopySourceKept(t: Tree, src: Path, dst: Path, done: set<Path>, rel: Path)
    requires forall r :: r in done ==> src + r in t
    requires src + rel in t && !(src <= dst) && !(dst <= src)
    ensures src + rel in t + CopyMap(t, src, dst, done) && (t + CopyMap(t, src, dst, done))[src + rel] == t[src + rel]
  {
    hide CopyMap;
    CopyMapAt(t, src, dst, done, src + rel);
    assert src <= src + rel;
    if dst <= src + rel {
      Comparable(src, dst, src + rel);
    }
  }

  /** `copyTree`: directories, files and links of the source appear under `dst`, and nothing else changes. */
  method CopyTree(disk: Disk, src: Path, dst: Path) returns (ok: bool)
    requires Rooted(disk.tree, src) && src in disk.tree && dst != []
    requires DirsAbove(disk.tree, dst) && Vacant(disk.tree, dst) && !(src <= dst) && !(dst <= src)
    modifies disk
    ensures ok && disk.tree == old(disk.tree) + CopyMap(old(disk.tree), src, dst, Below(old(disk.tree), src))
  {
    hide DirsAbove, PathLess, Listing, Walk, CopyMap, MkdirAll, WriteFile, Symlink, Vacant, NoLinkAbove, Walked,
         WellFormed;
    ghost var t := disk.tree;
    assert Resolve(t, src, false) == Some(src) by {
      assert DirsAbove(t, src);
      DirsAboveHaveNoLinks(t, src);
      ResolveInPlace(t, src, false);
    }
    var rels := disk.WalkDir(src);
    WalkedListing(t, src);
    WalkedPrefix(t, src, rels, 0);
    WalkedPrefix(t, src, rels, |rels|);
    CopyNothing(t, src, dst);
    assert Elems(rels[..0]) == {};
    for i := 0 to |rels|
      invariant forall r :: r in Elems(rels[..i]) ==> src + r in t
      invariant disk.tree == t + CopyMap(t, src, dst, Elems(rels[..i]))
    {
      var rel := rels[i];
      WalkedPrefix(t, src, rels, i + 1);
      CopyStepAt(t, src, dst, rels, i);
      var made: bool;
      match disk.tree[src + rel] {
        case Dir =>
          made := disk.MakeDirs(dst + rel);
        case File(content) =>
          made := disk.Write(dst + rel, content);
        case Link(target) =>
          made := disk.Link(target, dst + rel);
      }
      if !made {
        return false;
      }
    }
    assert Elems(rels[..|rels|]) == Below(t, src) by { WalkedElems(t, src, rels); }
    ok := true;
  }

  lemma CopyNothing(t: Tree, src: Path, dst: Path)
    ensures t + CopyMap(t, src, dst, {}) == t
  {
  }

  lemma WalkedElems(t: Tree, src: Path, rels: seq<Path>)
    requires Walked(t, src, rels)
    ensures Elems(rels[..|rels|]) == Below(t, src)
  {
    assert rels[..|rels|] == rels;
  }

  // ----- one directory of the workspace -----

  ghost function DirPiece(src: Path, dst: Path, names: set<string>): map<Path, Node>
  {
    map[dst := Dir] + LinkMap(src, dst, names)
  }

  lemma DirPieceAt(src: Path, dst: Path, names: set<string>, q: Path)
    ensures q in DirPiece(src, dst, names) <==> q == dst || (|q| == |dst| + 1 && dst <= q && q[|dst|] in names)
    ensures q in DirPiece(src, dst, names) ==>
              DirPiece(src, dst, names)[q] == if q == dst then Dir else Link(src + [q[|dst|]])
  {
    hide LinkMap;
    LinkMapAt(src, dst, names, q);
  }

  /** Adding a piece in a vacant region. */
  lemma PieceAdded(t: Tree, dst: Path, piece: map<Path, Node>)
    requires Vacant(t, dst) && forall q :: q in piece ==> dst <= q
    ensures Grew(t, t + piece, dst) && Exactly(t + piece, dst, piece)
  {
    forall q | q in t ensures q !in piece {
    }
  }

  lemma DirPieceBelow(src: Path, dst: Path, names: set<string>)
    ensures forall q :: q in DirPiece(src, dst, names) ==> dst <= q
  {
    hide DirPiece;
    forall q | q in DirPiece(src, dst, names) ensures dst <= q {
      DirPieceAt(src, dst, names, q);
    }
  }

  lemma LookUpSource(t: Tree, src: Path)
    requires NoLinkAbove(t, src) && !IsLink(t, src) && (src in t ==> DirsAbove(t, src))
    ensures Stat(t, src) == Some(Dir) <==> IsDir(t, src)
    ensures IsDir(t, src) ==> Resolve(t, src, true) == Some(src)
  {
    hide Resolve, NoLinkAbove, DirsAbove;
    ResolveInPlace(t, src, true);
  }

  /** Make `dst` and link the wanted entries of `src` into it. */
  method PopulateDirectory(disk: Disk, src: Path, dst: Path, wanted: string -> bool) returns (ok: bool)
    requires dst != [] && DirsAbove(disk.tree, dst) && Vacant(disk.tree, dst) && !(dst <= src) && !(src <= dst)
    requires NoLinkAbove(disk.tree, src) && !IsLink(disk.tree, src) && (src in disk.tree ==> DirsAbove(disk.tree, src))
    modifies disk
    ensures ok <==> IsDir(old(disk.tree), src)
    ensures Grew(old(disk.tree), disk.tree, dst)
    ensures ok ==> Exactly(disk.tree, dst,
            DirPiece(src, dst, set n | n in ChildNames(old(disk.tree), src) && wanted(n)))
  {
    hide DirsAbove, NoLinkAbove, MkdirAll, LinkMap, Listing, Less, Stat, Walk, WellFormed;
    ghost var t0 := disk.tree;
    assert dst !in t0;
    MkdirAllOne(t0, dst);
    var made := disk.MakeDirs(dst);
    ghost var t1 := disk.tree;
    PieceAdded(t0, dst, map[dst := Dir]);
    assert t1 == t0 + map[dst := Dir];
    assert NoLinkAbove(t1, src) && (src in t1 ==> src in t0 && DirsAbove(t1, src)) && DirsAbove(t1, dst) by {
      OneMoreDir(t0, dst, src);
      OneMoreDir(t0, dst, dst);
    }
    LookUpSource(t1, src);
    var names, read := disk.ReadDir(src);
    if !read {
      return false;
    }
    ChildrenKept(t0, t1, dst, src);
    NameListing(ChildNames(t1, src));
    forall n | n in names && wanted(n) ensures dst + [n] !in t1 {
      assert dst <= dst + [n];
    }
    ok := LinkChildren(disk, src, dst, names, wanted);
    ghost var chosen := set n | n in ChildNames(t0, src) && wanted(n);
    assert Chosen(names, wanted) == chosen;
    assert disk.tree == t0 + DirPiece(src, dst, chosen);
    DirPieceBelow(src, dst, chosen);
    PieceAdded(t0, dst, DirPiece(src, dst, chosen));
  }

  lemma NameListing(names: set<string>)
    ensures Distinct(Listing(Less, names)) && forall n :: n in Listing(Less, names) <==> n in names
  {
    hide Less, Listing;
    LessIsStrictTotal();
    ListingSpec(Less, names);
    assert forall n :: n in Listing(Less, names) <==> n in Elems(Listing(Less, names));
  }

  lemma OneMoreDir(t: Tree, dst: Path, p: Path)
    requires dst !in t
    ensures NoLinkAbove(t, p) ==> NoLinkAbove(t[dst := Dir], p)
    ensures DirsAbove(t, p) ==> DirsAbove(t[dst := Dir], p)
  {
  }

  lemma ChildrenKept(t: Tree, t': Tree, root: Path, src: Path)
    requires Grew(t, t', root) && !(root <= src) && !(src <= root)
    ensures ChildNames(t', src) == ChildNames(t, src)
  {
    forall n ensures src + [n] in t <==> src + [n] in t' {
      assert src <= src + [n];
      if src + [n] in t' && src + [n] !in t {
        Comparable(root, src, src + [n]);
      }
    }
  }

  // ----- the internal directory, where some entries are copied -----

  /** What is below `src` in the entries `names`. */
  function BelowIn(t: Tree, src: Path, names: set<string>): (rels: set<Path>)
    ensures forall r :: r in rels <==> src + r in t && r != [] && r[0] in names
  {
    set r | r in Below(t, src) && r != [] && r[0] in names
  }

  /** `t` with the entries `copied` of `src` copied and the entries `linked` linked into `dst`. */
  ghost function Mixed(t: Tree, src: Path, dst: Path, copied: set<string>, linked: set<string>): Tree
  {
    t + CopyMap(t, src, dst, BelowIn(t, src, copied)) + LinkMap(src, dst, linked)
  }

  lemma MixedAt(t: Tree, src: Path, dst: Path, copied: set<string>, linked: set<string>, q: Path)
    ensures var links := dst <= q && |q| == |dst| + 1 && q[|dst|] in linked;
            var copies := dst < q && q[|dst|] in copied && src + q[|dst|..] in t;
            && (q in Mixed(t, src, dst, copied, linked) <==> links || copies || q in t)
            && (links ==> Mixed(t, src, dst, copied, linked)[q] == Link(src + [q[|dst|]]))
            && (!links && copies ==> Mixed(t, src, dst, copied, linked)[q] == t[src + q[|dst|..]])
            && (!links && !copies && q in t ==> Mixed(t, src, dst, copied, linked)[q] == t[q])
  {
    hide CopyMap, LinkMap;
    CopyMapAt(t, src, dst, BelowIn(t, src, copied), q);
    LinkMapAt(src, dst, linked, q);
    if dst < q {
      assert q[|dst|..][0] == q[|dst|];
    }
  }

  lemma MixedLink(t: Tree, src: Path, dst: Path, copied: set<string>, linked: set<string>, n: string)
    requires IsDir(t, dst) && DirsAbove(t, dst) && n !in copied && n !in linked && dst + [n] !in t
    ensures Symlink(Mixed(t, src, dst, copied, linked), src + [n], dst + [n])
            == Outcome(Mixed(t, src, dst, copied, linked + {n}), true)
  {
    hide CopyMap, LinkMap, DirsAbove, Symlink, BelowIn;
    var base := t + CopyMap(t, src, dst, BelowIn(t, src, copied));
    CopyMapAt(t, src, dst, BelowIn(t, src, copied), dst + [n]);
    assert (dst + [n])[|dst|..] == [n];
    assert dst + [n] !in base by { BelowInFirst(t, src, copied, [n]); }
    CopyKeepsDirs(t, src, dst, copied);
    LinkStep(base, src, dst, linked, n);
  }

  lemma BelowInFirst(t: Tree, src: Path, names: set<string>, r: Path)
    requires r == [] || r[0] !in names
    ensures r !in BelowIn(t, src, names)
  {
  }

  lemma CopyKeepsDirs(t: Tree, src: Path, dst: Path, copied: set<string>)
    requires IsDir(t, dst) && DirsAbove(t, dst)
    ensures var base := t + CopyMap(t, src, dst, BelowIn(t, src, copied)); IsDir(base, dst) && DirsAbove(base, dst)
  {
    hide CopyMap, BelowIn;
    var rels := BelowIn(t, src, copied);
    CopyMapAt(t, src, dst, rels, dst);
    assert dst[|dst|..] == [];
    BelowInFirst(t, src, copied, []);
    forall i | 0 <= i < |dst| ensures IsDir(t + CopyMap(t, src, dst, rels), dst[..i]) {
      assert IsDir(t, dst[..i]);
      CopyMapAt(t, src, dst, rels, dst[..i]);
    }
  }

  /** Copying one more entry, on top of what is linked and copied already. */
  lemma MixedCopy(t: Tree, src: Path, dst: Path, copied: set<string>, linked: set<string>, c: string)
    requires !(src <= dst) && !(dst <= src) && c !in linked && c !in copied
    ensures var t' := Mixed(t, src, dst, copied, linked);
            t' + CopyMap(t', src + [c], dst + [c], Below(t', src + [c])) == Mixed(t, src, dst, copied + {c}, linked)
  {
    hide CopyMap, LinkMap, Mixed, Below;
    var t' := Mixed(t, src, dst, copied, linked);
    var more := CopyMap(t', src + [c], dst + [c], Below(t', src + [c]));
    var goal := Mixed(t, src, dst, copied + {c}, linked);
    forall q ensures q in t' + more <==> q in goal
             ensures q in goal ==> (t' + more)[q] == goal[q]
    {
      MixedAt(t, src, dst, copied, linked, q);
      MixedAt(t, src, dst, copied + {c}, linked, q);
      CopyMapAt(t', src + [c], dst + [c], Below(t', src + [c]), q);
      ChildPrefix(dst, c, q);
      if dst + [c] <= q {
        var r := q[|dst| + 1..];
        assert q[|dst + [c]|..] == r && q[|dst|..] == [c] + r;
        assert src + [c] + r == src + ([c] + r);
        MixedSource(t, src, dst, copied, linked, [c] + r);
      }
    }
  }

  lemma ChildPrefix(dir: Path, c: string, q: Path)
    ensures dir + [c] <= q <==> dir < q && q[|dir|] == c
  {
    if dir < q && q[|dir|] == c {
      assert q[..|dir| + 1] == dir + [c];
    }
  }

  lemma MixedSource(t: Tree, src: Path, dst: Path, copied: set<string>, linked: set<string>, r: Path)
    requires !(src <= dst) && !(dst <= src)
    ensures src + r in Mixed(t, src, dst, copied, linked) <==> src + r in t
    ensures src + r in t ==> Mixed(t, src, dst, copied, linked)[src + r] == t[src + r]
  {
    hide Mixed;
    MixedAt(t, src, dst, copied, linked, src + r);
    assert src <= src + r;
    if dst <= src + r {
      Comparable(src, dst, src + r);
    }
  }

  lemma MixedReady(t: Tree, src: Path, dst: Path, copied: set<string>, linked: set<string>, c: string)
    requires !(src <= dst) && !(dst <= src) && c !in linked && c !in copied
    requires IsDir(t, dst) && DirsAbove(t, dst) && (forall q :: q in t ==> !(dst < q))
    requires Rooted(t, src) && src + [c] in t
    ensures var t' := Mixed(t, src, dst, copied, linked);
            && Rooted(t', src + [c]) && src + [c] in t'
            && DirsAbove(t', dst + [c]) && Vacant(t', dst + [c])
            && !(src + [c] <= dst + [c]) && !(dst + [c] <= src + [c])
  {
    hide Mixed;
    var t' := Mixed(t, src, dst, copied, linked);
    MixedSource(t, src, dst, copied, linked, [c]);
    assert DirsAbove(t', dst + [c]) by {
      MixedAt(t, src, dst, copied, linked, dst);
      forall i | 0 <= i < |dst| ensures IsDir(t', dst[..i]) {
        assert IsDir(t, dst[..i]);
        MixedAt(t, src, dst, copied, linked, dst[..i]);
      }
      ChildDirs(t', dst, c);
    }
    forall q | q in t' ensures !(dst + [c] <= q) {
      MixedAt(t, src, dst, copied, linked, q);
      ChildPrefix(dst, c, q);
    }
    MixedRooted(t, src, dst, copied, linked, c);
    NotNested(src, dst, c);
  }

  lemma NotNested(src: Path, dst: Path, c: string)
    requires !(src <= dst) && !(dst <= src)
    ensures !(src + [c] <= dst + [c]) && !(dst + [c] <= src + [c])
  {
    assert src <= src + [c] && dst <= dst + [c];
    if src <= dst + [c] {
      Comparable(src, dst, dst + [c]);
    }
    if dst <= src + [c] {
      Comparable(src, dst, src + [c]);
    }
  }

  lemma MixedRooted(t: Tree, src: Path, dst: Path, copied: set<string>, linked: set<string>, c: string)
    requires !(src <= dst) && !(dst <= src) && Rooted(t, src)
    ensures Rooted(Mixed(t, src, dst, copied, linked), src + [c])
  {
    hide Mixed;
    var t' := Mixed(t, src, dst, copied, linked);
    forall q | q in t' && src + [c] <= q ensures DirsAbove(t', q) {
      var r := q[|src|..];
      assert q == src + r && src <= q;
      MixedSource(t, src, dst, copied, linked, r);
      assert DirsAbove(t, q);
      forall i | 0 <= i < |q| ensures IsDir(t', q[..i]) {
        assert IsDir(t, q[..i]);
        MixedAt(t, src, dst, copied, linked, q[..i]);
        assert q[..i] <= q;
        if dst <= q {
          Comparable(src, dst, q);
        }
      }
    }
  }

  ghost function InternalPiece(t: Tree, src: Path, dst: Path, copied: set<string>): map<Path, Node>
  {
    map[dst := Dir] + CopyMap(t, src, dst, BelowIn(t, src, copied))
    + LinkMap(src, dst, ChildNames(t, src) - copied - {"registrations"})
  }

  lemma InternalPieceAt(t: Tree, src: Path, dst: Path, copied: set<string>, q: Path)
    ensures var links := dst <= q && |q| == |dst| + 1 && q[|dst|] in ChildNames(t, src) - copied - {"registrations"};
            var copies := dst < q && q[|dst|] in copied && src + q[|dst|..] in t;
            var piece := InternalPiece(t, src, dst, copied);
            && (q in piece <==> links || copies || q == dst)
            && (links ==> piece[q] == Link(src + [q[|dst|]]))
            && (!links && copies ==> piece[q] == t[src + q[|dst|..]])
            && (q == dst ==> piece[q] == Dir)
  {
    hide CopyMap, LinkMap;
    CopyMapAt(t, src, dst, BelowIn(t, src, copied), q);
    LinkMapAt(src, dst, ChildNames(t, src) - copied - {"registrations"}, q);
    if dst < q {
      assert q[|dst|..][0] == q[|dst|];
    }
  }

  /** The first step of a path below `src` is an entry of `src`. */
  lemma FirstStep(t: Tree, src: Path, r: Path)
    requires Rooted(t, src) && src + r in t && r != []
    ensures r[0] in ChildNames(t, src)
  {
    assert src <= src + r;
    assert DirsAbove(t, src + r);
    if |r| > 1 {
      assert (src + r)[..|src| + 1] == src + [r[0]];
      assert IsDir(t, (src + r)[..|src| + 1]);
    } else {
      assert r == [r[0]];
    }
  }

  /** `populateInternal`: the entries in `copied` are copied, `registrations` is left for its own step,
      everything else is linked. */
  method PopulateInternal(disk: Disk, src: Path, dst: Path, copied: set<string>) returns (ok: bool)
    requires dst != [] && DirsAbove(disk.tree, dst) && Vacant(disk.tree, dst) && !(dst <= src) && !(src <= dst)
    requires NoLinkAbove(disk.tree, src) && !IsLink(disk.tree, src) && Rooted(disk.tree, src)
    requires "registrations" !in copied
    modifies disk
    ensures ok <==> IsDir(old(disk.tree), src)
    ensures Grew(old(disk.tree), disk.tree, dst)
    ensures ok ==> Exactly(disk.tree, dst, InternalPiece(old(disk.tree), src, dst, copied))
  {
    hide DirsAbove, NoLinkAbove, MkdirAll, LinkMap, CopyMap, Listing, Less, Stat, Walk, Symlink, Rooted, Mixed, BelowIn,
         Below, WellFormed;
    ghost var t0 := disk.tree;
    assert dst !in t0;
    MkdirAllOne(t0, dst);
    var made := disk.MakeDirs(dst);
    ghost var t1 := disk.tree;
    assert t1 == t0 + map[dst := Dir];
    PieceAdded(t0, dst, map[dst := Dir]);
    InternalStart(t0, src, dst);
    LookUpSource(t1, src);
    var names, read := disk.ReadDir(src);
    if !read {
      return false;
    }
    NameListing(ChildNames(t1, src));
    MixedNothing(t1, src, dst);
    assert Elems(names[..0]) == {} && {} * copied == {} && {} - copied - {"registrations"} == {};
    for i := 0 to |names|
      invariant disk.tree == Mixed(t1, src, dst, Elems(names[..i]) * copied,
                Elems(names[..i]) - copied - {"registrations"})
    {
      var n := names[i];
      ghost var done := Elems(names[..i]);
      NextName(names, i);
      assert src + [n] in t1;
      if n == "registrations" {
        assert (done + {n}) * copied == done * copied;
        assert done + {n} - copied - {"registrations"} == done - copied - {"registrations"};
      } else if n in copied {
        MixedReady(t1, src, dst, done * copied, done - copied - {"registrations"}, n);
        MixedCopy(t1, src, dst, done * copied, done - copied - {"registrations"}, n);
        assert (done + {n}) * copied == done * copied + {n};
        assert done + {n} - copied - {"registrations"} == done - copied - {"registrations"};
        var copiedOk := CopyTree(disk, src + [n], dst + [n]);
        if !copiedOk {
          return false;
        }
      } else {
        assert dst < dst + [n];
        MixedLink(t1, src, dst, done * copied, done - copied - {"registrations"}, n);
        assert (done + {n}) * copied == done * copied;
        assert done + {n} - copied - {"registrations"} == done - copied - {"registrations"} + {n};
        var linked := disk.Link(src + [n], dst + [n]);
        if !linked {
          return false;
        }
      }
    }
    assert names[..|names|] == names;
    assert Elems(names) == ChildNames(t1, src);
    InternalDone(t0, src, dst, copied);
    ok := true;
  }

  lemma NextName(names: seq<string>, i: nat)
    requires Distinct(names) && i < |names|
    ensures Elems(names[..i + 1]) == Elems(names[..i]) + {names[i]} && names[i] !in Elems(names[..i])
  {
    assert names[..i + 1] == names[..i] + [names[i]];
  }

  lemma MixedNothing(t: Tree, src: Path, dst: Path)
    ensures Mixed(t, src, dst, {}, {}) == t
  {
    hide Mixed;
    forall q ensures q in Mixed(t, src, dst, {}, {}) <==> q in t
             ensures q in t ==> Mixed(t, src, dst, {}, {})[q] == t[q]
    {
      MixedAt(t, src, dst, {}, {}, q);
    }
  }

  lemma InternalStart(t0: Tree, src: Path, dst: Path)
    requires dst !in t0 && DirsAbove(t0, dst) && Vacant(t0, dst) && !(dst <= src) && !(src <= dst)
    requires NoLinkAbove(t0, src) && Rooted(t0, src)
    ensures var t1 := t0 + map[dst := Dir];
            && NoLinkAbove(t1, src) && Rooted(t1, src) && DirsAbove(t1, dst) && IsDir(t1, dst)
            && (src in t1 ==> DirsAbove(t1, src)) && (forall q :: q in t1 ==> !(dst < q))
            && (IsDir(t1, src) <==> IsDir(t0, src)) && (IsLink(t1, src) <==> IsLink(t0, src))
  {
    var t1 := t0 + map[dst := Dir];
    assert t1 == t0[dst := Dir];
    OneMoreDir(t0, dst, src);
    OneMoreDir(t0, dst, dst);
    forall q | q in t1 && src <= q ensures DirsAbove(t1, q) {
      OneMoreDir(t0, dst, q);
    }
  }

  lemma InternalDone(t0: Tree, src: Path, dst: Path, copied: set<string>)
    requires Vacant(t0, dst) && !(dst <= src) && !(src <= dst) && Rooted(t0, src)
    ensures var t1 := t0 + map[dst := Dir];
            var names := ChildNames(t1, src);
            var t := Mixed(t1, src, dst, names * copied, names - copied - {"registrations"});
            Grew(t0, t, dst) && Exactly(t, dst, InternalPiece(t0, src, dst, copied))
  {
    hide CopyMap, LinkMap, Below, Mixed, InternalPiece, Rooted;
    var t1 := t0 + map[dst := Dir];
    var names := ChildNames(t1, src);
    PieceAdded(t0, dst, map[dst := Dir]);
    ChildrenKept(t0, t1, dst, src);
    var piece := InternalPiece(t0, src, dst, copied);
    var t := Mixed(t1, src, dst, names * copied, names - copied - {"registrations"});
    forall q ensures q in t <==> q in t0 || q in piece
             ensures q in piece ==> dst <= q && t[q] == piece[q]
             ensures q in t0 ==> q in t && t[q] == t0[q]
    {
      InternalPieceAt(t0, src, dst, copied, q);
      MixedAt(t1, src, dst, names * copied, names - copied - {"registrations"}, q);
      if dst < q {
        var r := q[|dst|..];
        assert src <= src + r;
        if dst <= src + r {
          Comparable(src, dst, src + r);
        }
        if src + r in t0 {
          assert r[0] == q[|dst|];
          FirstStep(t0, src, r);
        }
      }
    }
  }

  // ----- the checkout and the empty workspace -----

  /** The directories of the checkout that the tools list or walk. */
  const SOURCE_DIRS := {"api", "controllers", "internal", "pkg"}

  /** `repo` is a checkout and `root` an empty directory that lies neither above it nor inside one of the
      source directories.  Both paths are canonical. */
  ghost predicate Separate(t: Tree, repo: Path, root: Path) {
    && WellFormed(t)
    && IsDir(t, repo) && IsDir(t, root) && root != []
    && (forall q :: q in t ==> !(root < q))
    && !(root <= repo) && (forall d :: d in SOURCE_DIRS ==> !(repo + [d] <= root))
  }

  /** Neither `rel` in the checkout nor anything on the way to it is a link. */
  ghost predicate Direct(t: Tree, repo: Path, rel: Path) {
    forall i :: 0 < i <= |rel| ==> !IsLink(t, repo + rel[..i])
  }

  /** The directories that the tools list are not reached through links. */
  ghost predicate Ready(t: Tree, repo: Path, root: Path) {
    && Separate(t, repo, root)
    && Direct(t, repo, ["api"]) && Direct(t, repo, ["controllers"])
    && Direct(t, repo, ["internal", "registrations"]) && Direct(t, repo, ["pkg", "servicemanager"])
  }

  lemma ReadyParts(t: Tree, repo: Path, root: Path)
    requires Ready(t, repo, root)
    ensures Separate(t, repo, root) && WellFormed(t) && root != []
    ensures Direct(t, repo, ["api"]) && Direct(t, repo, ["controllers"]) && Direct(t, repo, ["internal"])
            && Direct(t, repo, ["pkg"])
    ensures Direct(t, repo, ["internal", "registrations"]) && Direct(t, repo, ["pkg", "servicemanager"])
  {
    hide WellFormed;
    DirectAbove(t, repo, ["internal"], ["registrations"]);
    DirectAbove(t, repo, ["pkg"], ["servicemanager"]);
    assert ["internal"] + ["registrations"] == ["internal", "registrations"]
           && ["pkg"] + ["servicemanager"] == ["pkg", "servicemanager"];
  }

  lemma DirectAbove(t: Tree, repo: Path, rel: Path, sub: Path)
    ensures Direct(t, repo, rel + sub) ==> Direct(t, repo, rel)
  {
    if Direct(t, repo, rel + sub) {
      forall i | 0 < i <= |rel| ensures !IsLink(t, repo + rel[..i]) {
        assert (rel + sub)[..i] == rel[..i];
      }
    }
  }

  /** Part way through populating: only new nodes strictly below `root`, in the entries `used`. */
  ghost predicate Stage(t0: Tree, t: Tree, root: Path, used: set<string>) {
    && (forall q :: q in t0 ==> q in t && t[q] == t0[q])
    && (forall q :: q in t && q !in t0 ==> root < q && q[|root|] in used)
  }

  lemma StageNext(t0: Tree, t: Tree, t': Tree, root: Path, used: set<string>, d: string, dst: Path)
    requires Stage(t0, t, root, used) && Grew(t, t', dst) && root + [d] <= dst
    ensures Stage(t0, t', root, used + {d})
  {
    forall q | q in t' && q !in t0 ensures root < q && q[|root|] in used + {d} {
      if q !in t {
        assert root + [d] <= q;
        ChildPrefix(root, d, q);
      }
    }
  }

  lemma StageOutside(t0: Tree, t: Tree, root: Path, used: set<string>)
    requires Stage(t0, t, root, used)
    ensures SameOutside(root, t0, t) && Grew(t0, t, root)
  {
  }

  /** The workspace side of a step: the destination is vacant and its parents exist. */
  lemma StageVacant(t0: Tree, t: Tree, repo: Path, root: Path, used: set<string>, d: string)
    requires Separate(t0, repo, root) && Stage(t0, t, root, used) && d !in used
    ensures Vacant(t, root + [d]) && DirsAbove(t, root + [d]) && IsDir(t, root)
  {
    forall q | q in t ensures !(root + [d] <= q) {
      ChildPrefix(root, d, q);
    }
    WellFormedAbove(t0, root);
    assert DirsAbove(t, root);
    ChildDirs(t, root, d);
  }

  lemma PrefixOfChild(a: Path, dir: Path, c: string)
    ensures a <= dir + [c] ==> a <= dir || a == dir + [c]
  {
    if a <= dir + [c] && |a| <= |dir| {
      assert a == (dir + [c])[..|a|] == dir[..|a|];
    }
  }

  lemma SourceApart(repo: Path, root: Path, d: string, sub: Path)
    requires !(root <= repo) && !(repo + [d] <= root)
    ensures !(root <= repo + [d] + sub) && !(repo + [d] + sub <= root)
  {
    assert repo + [d] <= repo + [d] + sub;
    PrefixOfChild(root, repo, d);
    if root <= repo + [d] + sub {
      Comparable(root, repo + [d], repo + [d] + sub);
    }
  }

  /** A source directory of the checkout holds what it held at the start, as long as nothing outside the
      workspace changed. */
  lemma SourceSame(t0: Tree, t: Tree, repo: Path, root: Path, d: string, sub: Path)
    requires Separate(t0, repo, root) && SameOutside(root, t0, t) && d in SOURCE_DIRS
    ensures var src := repo + [d] + sub;
            && !(root <= src) && !(src <= root)
            && Rooted(t, src) && (src in t ==> DirsAbove(t, src))
            && (forall q :: src <= q ==> (q in t <==> q in t0) && (q in t0 ==> t[q] == t0[q]))
            && ChildNames(t, src) == ChildNames(t0, src)
  {
    hide WellFormed, ChildNames;
    var src := repo + [d] + sub;
    SourceApart(repo, root, d, sub);
    forall q | src <= q ensures (q in t <==> q in t0) && (q in t0 ==> t[q] == t0[q]) {
      if root <= q {
        Comparable(root, src, q);
      }
    }
    assert Rooted(t, src) by {
      forall q | q in t && src <= q ensures DirsAbove(t, q) {
        WellFormedAbove(t0, q);
        OutsideKeepsDirs(t0, t, root, src, q);
      }
    }
    assert ChildNames(t, src) == ChildNames(t0, src) by {
      forall n ensures n in ChildNames(t, src) <==> n in ChildNames(t0, src) {
        assert src <= src + [n];
      }
    }
  }

  /** No step on the way is a link, if none was at the start. */
  lemma SourceAbove(t0: Tree, t: Tree, repo: Path, root: Path, d: string, sub: Path, n: nat)
    requires Separate(t0, repo, root) && SameOutside(root, t0, t) && d in SOURCE_DIRS
    requires n <= |[d] + sub| && Direct(t0, repo, ([d] + sub)[..n])
    ensures forall i :: 0 <= i <= |repo| + n ==> !IsLink(t, (repo + [d] + sub)[..i])
  {
    hide WellFormed;
    var rel, src := [d] + sub, repo + [d] + sub;
    WellFormedAbove(t0, repo);
    SourceApart(repo, root, d, sub);
    forall i | 0 <= i <= |repo| + n ensures !IsLink(t, src[..i]) {
      assert src[..i] <= src;
      if i < |repo| {
        assert src[..i] == repo[..i];
        assert IsDir(t0, repo[..i]);
      } else if i == |repo| {
        assert src[..i] == repo;
      } else {
        assert rel[..n][..i - |repo|] == rel[..i - |repo|];
        assert src[..i] == repo + rel[..i - |repo|];
      }
      assert !(root < src[..i]);
    }
  }

  /** Both together, for a directory that is not reached through links. */
  lemma OutsideSource(t0: Tree, t: Tree, repo: Path, root: Path, d: string, sub: Path)
    requires Separate(t0, repo, root) && SameOutside(root, t0, t) && d in SOURCE_DIRS && Direct(t0, repo, [d] + sub)
    ensures var src := repo + [d] + sub;
            && !(root <= src) && !(src <= root)
            && NoLinkAbove(t, src) && !IsLink(t, src) && Rooted(t, src) && (src in t ==> DirsAbove(t, src))
            && (forall q :: src <= q ==> (q in t <==> q in t0) && (q in t0 ==> t[q] == t0[q]))
            && ChildNames(t, src) == ChildNames(t0, src)
  {
    hide Separate, SameOutside, ChildNames, Direct, Rooted, DirsAbove;
    var rel, src := [d] + sub, repo + [d] + sub;
    assert rel[..|rel|] == rel && src[..|src|] == src;
    SourceSame(t0, t, repo, root, d, sub);
    SourceAbove(t0, t, repo, root, d, sub, |rel|);
  }

  lemma OutsideKeepsDirs(t0: Tree, t: Tree, root: Path, src: Path, q: Path)
    requires SameOutside(root, t0, t) && DirsAbove(t0, q) && src <= q && !(root <= src) && !(src <= root)
    ensures DirsAbove(t, q)
  {
    forall i | 0 <= i < |q| ensures IsDir(t, q[..i]) {
      assert IsDir(t0, q[..i]);
      assert q[..i] <= q;
      if root <= q {
        Comparable(root, src, q);
      }
    }
  }

  /** The checkout side of a step. */
  lemma StageSource(t0: Tree, t: Tree, repo: Path, root: Path, used: set<string>, d: string, sub: Path)
    requires Separate(t0, repo, root) && Stage(t0, t, root, used) && d in SOURCE_DIRS && Direct(t0, repo, [d] + sub)
    ensures var src := repo + [d] + sub;
            && !(root <= src) && !(src <= root)
            && NoLinkAbove(t, src) && !IsLink(t, src) && Rooted(t, src) && (src in t ==> DirsAbove(t, src))
            && (forall q :: src <= q ==> (q in t <==> q in t0) && (q in t0 ==> t[q] == t0[q]))
            && ChildNames(t, src) == ChildNames(t0, src)
  {
    hide Separate, Stage, ChildNames;
    StageOutside(t0, t, root, used);
    OutsideSource(t0, t, repo, root, d, sub);
  }

  lemma StageKeepsDirs(t0: Tree, t: Tree, root: Path, used: set<string>, q: Path)
    requires Stage(t0, t, root, used) && DirsAbove(t0, q)
    ensures DirsAbove(t, q)
  {
    forall i | 0 <= i < |q| ensures IsDir(t, q[..i]) {
      assert IsDir(t0, q[..i]);
    }
  }

  lemma DestinationApart(src: Path, root: Path, dst: Path)
    requires !(root <= src) && !(src <= root) && root <= dst
    ensures !(dst <= src) && !(src <= dst)
  {
    if src <= dst {
      Comparable(src, root, dst);
    }
  }

  /** A directory populated inside another one. */
  lemma NestedPiece(t: Tree, t': Tree, outer: Path, dst: Path, p: map<Path, Node>, p': map<Path, Node>)
    requires Exactly(t, outer, p) && Grew(t, t', dst) && Exactly(t', dst, p') && outer <= dst
    requires (forall q :: q in p ==> !(dst <= q)) && (forall q :: q in p' ==> dst <= q)
    ensures Exactly(t', outer, p + p')
  {
    forall q | outer <= q ensures (q in t' <==> q in p + p') && (q in t' ==> t'[q] == (p + p')[q]) {
    }
  }

  // ----- keeping track of the workspace -----

  /** For each entry of the workspace, what is at or below it. */
  type Pieces = map<string, map<Path, Node>>

  ghost predicate Placed(t: Tree, root: Path, pieces: Pieces) {
    forall n :: n in pieces ==> Exactly(t, root + [n], pieces[n])
  }

  lemma PlacedNext(t: Tree, t': Tree, root: Path, pieces: Pieces, d: string, piece: map<Path, Node>)
    requires Placed(t, root, pieces) && Grew(t, t', root + [d]) && Exactly(t', root + [d], piece)
    ensures Placed(t', root, pieces[d := piece])
  {
    hide Exactly, Grew;
    forall n | n in pieces && n != d ensures Exactly(t', root + [n], pieces[n]) {
      Siblings(root, n, d);
      Siblings(root, d, n);
      GrewExactly(t, t', root + [d], root + [n], pieces[n]);
    }
  }

  /** Part way through: what has been placed so far, and nothing else. */
  ghost predicate Progress(t0: Tree, t: Tree, root: Path, pieces: Pieces) {
    Stage(t0, t, root, pieces.Keys) && Placed(t, root, pieces)
  }

  lemma ProgressNext(t0: Tree, t: Tree, t': Tree, root: Path, pieces: Pieces, d: string, piece: map<Path, Node>)
    requires Progress(t0, t, root, pieces) && Grew(t, t', root + [d]) && Exactly(t', root + [d], piece)
    ensures Progress(t0, t', root, pieces[d := piece])
  {
    hide Stage, Placed, Grew, Exactly;
    PlacedNext(t, t', root, pieces, d, piece);
    StageNext(t0, t, t', root, pieces.Keys, d, root + [d]);
    assert pieces[d := piece].Keys == pieces.Keys + {d};
  }

  // ----- the steps that both tools share -----

  function ApiLinked(t: Tree, repo: Path, groups: set<string>): (names: set<string>)
  {
    set n | n in ChildNames(t, repo + ["api"]) && IsDir(t, repo + ["api"] + [n]) && n !in groups
  }

  function ControllersLinked(t: Tree, repo: Path, groups: set<string>): (names: set<string>)
  {
    set n | n in ChildNames(t, repo + ["controllers"]) && !(IsDir(t, repo + ["controllers"] + [n]) && n in groups)
  }

  function PkgLinked(t: Tree, repo: Path): (names: set<string>)
  {
    ChildNames(t, repo + ["pkg"]) - {"servicemanager"}
  }

  function RootsLinked(t: Tree, repo: Path, roots: set<string>): (names: set<string>)
  {
    set n | n in ChildNames(t, repo + ["pkg", "servicemanager"])
            && !(IsDir(t, repo + ["pkg", "servicemanager"] + [n]) && n in roots)
  }

  /** One source directory: populate the directory of the same name below `root`. */
  method PopulateTopDirectory(
    disk: Disk, ghost t0: Tree, repo: Path, root: Path, ghost used: set<string>, d: string, wanted: string -> bool)
    returns (ok: bool)
    requires Separate(t0, repo, root) && Direct(t0, repo, [d]) && Stage(t0, disk.tree, root, used) && d in SOURCE_DIRS
             && d !in used
    modifies disk
    ensures ok <==> IsDir(t0, repo + [d])
    ensures Stage(t0, disk.tree, root, used + {d}) && Grew(old(disk.tree), disk.tree, root + [d])
    ensures ok ==> Exactly(disk.tree, root + [d],
                           DirPiece(repo + [d], root + [d], set n | n in ChildNames(t0, repo + [d]) && wanted(n)))
  {
    hide Separate, Direct, Stage, DirsAbove, NoLinkAbove, Vacant, Rooted, DirPiece, ChildNames, Exactly, Grew,
         WellFormed;
    ghost var t := disk.tree;
    assert repo + [d] + [] == repo + [d] && [d] + [] == [d];
    StageSource(t0, t, repo, root, used, d, []);
    StageVacant(t0, t, repo, root, used, d);
    DestinationApart(repo + [d], root, root + [d]);
    ok := PopulateDirectory(disk, repo + [d], root + [d], wanted);
    StageNext(t0, t, disk.tree, root, used, d, root + [d]);
  }

  /** A directory one level down, inside one that is populated already. */
  method PopulateNestedDirectory(
    disk: Disk, ghost t0: Tree, repo: Path, root: Path, ghost used: set<string>, d: string, sub: string,
    wanted: string -> bool, ghost outer: map<Path, Node>)
    returns (ok: bool)
    requires Separate(t0, repo, root) && Direct(t0, repo, [d, sub]) && Stage(t0, disk.tree, root, used)
             && d in SOURCE_DIRS && d in used
    requires Exactly(disk.tree, root + [d], outer) && root + [d] in outer && outer[root + [d]] == Dir
    requires forall q :: q in outer ==> !(root + [d, sub] <= q)
    modifies disk
    ensures ok <==> IsDir(t0, repo + [d, sub])
    ensures Stage(t0, disk.tree, root, used) && Grew(old(disk.tree), disk.tree, root + [d, sub])
    ensures ok ==> Exactly(disk.tree, root + [d],
                           outer + DirPiece(repo + [d, sub], root + [d, sub],
                                            set n | n in ChildNames(t0, repo + [d, sub]) && wanted(n)))
  {
    hide Separate, Direct, Stage, DirsAbove, NoLinkAbove, Rooted, DirPiece, ChildNames, WellFormed;
    ghost var t := disk.tree;
    var src, dst := repo + [d, sub], root + [d, sub];
    assert repo + [d] + [sub] == src && root + [d] + [sub] == dst && [d] + [sub] == [d, sub];
    StageSource(t0, t, repo, root, used, d, [sub]);
    DestinationApart(src, root, dst);
    assert root + [d] <= dst && IsDir(t, root + [d]);
    forall q | q in t ensures !(dst <= q) {
      assert dst <= q ==> root + [d] <= q;
    }
    StageDirs(t0, t, repo, root, used, d);
    ChildDirs(t, root + [d], sub);
    ok := PopulateDirectory(disk, src, dst, wanted);
    StageNext(t0, t, disk.tree, root, used, d, dst);
    assert used + {d} == used;
    if ok {
      ghost var names := set n | n in ChildNames(t0, src) && wanted(n);
      DirPieceBelow(src, dst, names);
      NestedPiece(t, disk.tree, root + [d], dst, outer, DirPiece(src, dst, names));
    }
  }

  lemma StageDirs(t0: Tree, t: Tree, repo: Path, root: Path, used: set<string>, d: string)
    requires Separate(t0, repo, root) && Stage(t0, t, root, used)
    ensures DirsAbove(t, root + [d])
  {
    hide WellFormed;
    WellFormedAbove(t0, root);
    StageKeepsDirs(t0, t, root, used, root);
    ChildDirs(t, root, d);
  }

  ghost function ApiPiece(t: Tree, repo: Path, root: Path, groups: set<string>): map<Path, Node>
  {
    DirPiece(repo + ["api"], root + ["api"], ApiLinked(t, repo, groups))
  }

  /** Only directories are considered; the selected groups are left for the generator. */
  method PopulateApi(disk: Disk, ghost t0: Tree, repo: Path, root: Path, ghost pieces: Pieces, groups: set<string>)
    returns (ok: bool)
    requires Separate(t0, repo, root) && Direct(t0, repo, ["api"])
    requires Progress(t0, disk.tree, root, pieces) && "api" !in pieces
    modifies disk
    ensures ok <==> IsDir(t0, repo + ["api"])
    ensures SameOutside(root, t0, disk.tree)
    ensures ok ==> Progress(t0, disk.tree, root, pieces["api" := ApiPiece(t0, repo, root, groups)])
  {
    hide Separate, Direct, Stage, Placed, SameOutside, DirPiece, ChildNames, Exactly, Grew, NoLinkAbove, Rooted,
         WellFormed;
    var t := disk.tree;
    var wanted := n => IsDir(t, repo + ["api"] + [n]) && n !in groups;
    EntryKinds(t0, t, repo, root, pieces.Keys, "api", []);
    assert repo + ["api"] + [] == repo + ["api"];
    ok := PopulateTopDirectory(disk, t0, repo, root, pieces.Keys, "api", wanted);
    assert (set n | n in ChildNames(t0, repo + ["api"]) && wanted(n)) == ApiLinked(t0, repo, groups);
    StageOutside(t0, disk.tree, root, pieces.Keys + {"api"});
    if ok {
      ProgressNext(t0, t, disk.tree, root, pieces, "api", ApiPiece(t0, repo, root, groups));
    }
  }

  /** Whether an entry of a source directory is a directory has not changed. */
  lemma EntryKinds(t0: Tree, t: Tree, repo: Path, root: Path, used: set<string>, d: string, sub: Path)
    requires Separate(t0, repo, root) && Stage(t0, t, root, used) && d in SOURCE_DIRS
    ensures forall n :: IsDir(t, repo + [d] + sub + [n]) <==> IsDir(t0, repo + [d] + sub + [n])
  {
    hide Separate, Stage;
    StageOutside(t0, t, root, used);
    SourceSame(t0, t, repo, root, d, sub);
    forall n ensures IsDir(t, repo + [d] + sub + [n]) <==> IsDir(t0, repo + [d] + sub + [n]) {
      assert repo + [d] + sub <= repo + [d] + sub + [n];
    }
  }

  ghost function ControllersPiece(t: Tree, repo: Path, root: Path, groups: set<string>): map<Path, Node>
  {
    DirPiece(repo + ["controllers"], root + ["controllers"], ControllersLinked(t, repo, groups))
  }

  method PopulateControllers(
    disk: Disk, ghost t0: Tree, repo: Path, root: Path, ghost pieces: Pieces, groups: set<string>)
    returns (ok: bool)
    requires Separate(t0, repo, root) && Direct(t0, repo, ["controllers"])
    requires Progress(t0, disk.tree, root, pieces) && "controllers" !in pieces
    modifies disk
    ensures ok <==> IsDir(t0, repo + ["controllers"])
    ensures SameOutside(root, t0, disk.tree)
    ensures ok ==> Progress(t0, disk.tree, root, pieces["controllers" := ControllersPiece(t0, repo, root, groups)])
  {
    hide Separate, Direct, Stage, Placed, SameOutside, DirPiece, ChildNames, Exactly, Grew, NoLinkAbove, Rooted,
         WellFormed;
    var t := disk.tree;
    var wanted := n => !(IsDir(t, repo + ["controllers"] + [n]) && n in groups);
    EntryKinds(t0, t, repo, root, pieces.Keys, "controllers", []);
    assert repo + ["controllers"] + [] == repo + ["controllers"];
    ok := PopulateTopDirectory(disk, t0, repo, root, pieces.Keys, "controllers", wanted);
    assert (set n | n in ChildNames(t0, repo + ["controllers"]) && wanted(n)) == ControllersLinked(t0, repo, groups);
    StageOutside(t0, disk.tree, root, pieces.Keys + {"controllers"});
    if ok {
      ProgressNext(t0, t, disk.tree, root, pieces, "controllers", ControllersPiece(t0, repo, root, groups));
    }
  }

  ghost function PkgPiece(t: Tree, repo: Path, root: Path, roots: set<string>): map<Path, Node>
  {
    DirPiece(repo + ["pkg"], root + ["pkg"], PkgLinked(t, repo))
    + DirPiece(repo + ["pkg", "servicemanager"], root + ["pkg", "servicemanager"], RootsLinked(t, repo, roots))
  }

  method PopulatePkg(disk: Disk, ghost t0: Tree, repo: Path, root: Path, ghost pieces: Pieces, roots: set<string>)
    returns (ok: bool)
    requires Separate(t0, repo, root) && Direct(t0, repo, ["pkg", "servicemanager"])
    requires Progress(t0, disk.tree, root, pieces) && "pkg" !in pieces
    modifies disk
    ensures ok <==> IsDir(t0, repo + ["pkg"]) && IsDir(t0, repo + ["pkg", "servicemanager"])
    ensures SameOutside(root, t0, disk.tree)
    ensures ok ==> Progress(t0, disk.tree, root, pieces["pkg" := PkgPiece(t0, repo, root, roots)])
  {
    hide Separate, Direct, Stage, Placed, SameOutside, DirPiece, ChildNames, Exactly, Grew, NoLinkAbove, Rooted,
         WellFormed;
    ghost var t := disk.tree;
    assert ["pkg"] + ["servicemanager"] == ["pkg", "servicemanager"];
    DirectAbove(t0, repo, ["pkg"], ["servicemanager"]);
    var wanted := n => n != "servicemanager";
    ok := PopulateTopDirectory(disk, t0, repo, root, pieces.Keys, "pkg", wanted);
    StageOutside(t0, disk.tree, root, pieces.Keys + {"pkg"});
    if !ok {
      return;
    }
    assert (set n | n in ChildNames(t0, repo + ["pkg"]) && wanted(n)) == PkgLinked(t0, repo);
    ghost var outer := DirPiece(repo + ["pkg"], root + ["pkg"], PkgLinked(t0, repo));
    NotLinkedInside(repo + ["pkg"], root + ["pkg"], PkgLinked(t0, repo), "servicemanager");
    assert root + ["pkg"] + ["servicemanager"] == root + ["pkg", "servicemanager"];
    var t1 := disk.tree;
    var wantedRoot := n => !(IsDir(t1, repo + ["pkg", "servicemanager"] + [n]) && n in roots);
    EntryKinds(t0, t1, repo, root, pieces.Keys + {"pkg"}, "pkg", ["servicemanager"]);
    assert repo + ["pkg"] + ["servicemanager"] == repo + ["pkg", "servicemanager"];
    ok := PopulateNestedDirectory(disk, t0, repo, root, pieces.Keys + {"pkg"}, "pkg", "servicemanager", wantedRoot,
        outer);
    assert (set n | n in ChildNames(t0, repo + ["pkg", "servicemanager"]) && wantedRoot(n))
           == RootsLinked(t0, repo, roots);
    GrewTwice(t, t1, disk.tree, root + ["pkg"], root + ["pkg", "servicemanager"]);
    StageOutside(t0, disk.tree, root, pieces.Keys + {"pkg"});
    if ok {
      ProgressNext(t0, t, disk.tree, root, pieces, "pkg", PkgPiece(t0, repo, root, roots));
    }
  }

  lemma GrewTwice(t: Tree, t': Tree, t'': Tree, root: Path, sub: Path)
    requires Grew(t, t', root) && Grew(t', t'', sub) && root <= sub
    ensures Grew(t, t'', root)
  {
  }

  lemma NotLinkedInside(src: Path, dst: Path, names: set<string>, n: string)
    requires n !in names
    ensures dst in DirPiece(src, dst, names) && DirPiece(src, dst, names)[dst] == Dir
    ensures forall q :: q in DirPiece(src, dst, names) ==> !(dst + [n] <= q)
  {
    hide DirPiece;
    DirPieceAt(src, dst, names, dst);
    forall q | q in DirPiece(src, dst, names) ensures !(dst + [n] <= q) {
      DirPieceAt(src, dst, names, q);
      ChildPrefix(dst, n, q);
    }
  }

  /** The internal directory and, nested in it, the registrations. */
  ghost function InternalDirectory(
    t: Tree, repo: Path, root: Path, copied: set<string>, registrations: set<string>): map<Path, Node>
  {
    InternalPiece(t, repo + ["internal"], root + ["internal"], copied)
    + DirPiece(repo + ["internal", "registrations"], root + ["internal", "registrations"], registrations)
  }

  lemma BesideRegistrations(
    t: Tree, repo: Path, root: Path, copied: set<string>, registrations: set<string>, q: Path)
    requires root + ["internal"] < q && q[|root| + 1] != "registrations"
    ensures var piece, whole := InternalPiece(t, repo + ["internal"], root + ["internal"], copied),
                                InternalDirectory(t, repo, root, copied, registrations);
            (q in whole <==> q in piece) && (q in piece ==> whole[q] == piece[q])
  {
    hide InternalPiece, DirPiece;
    var dst := root + ["internal", "registrations"];
    DirPieceAt(repo + ["internal", "registrations"], dst, registrations, q);
    assert dst[|root| + 1] == "registrations";
  }

  /** An entry of `internal` other than `registrations` is copied node for node or linked. */
  lemma InternalEntry(t: Tree, repo: Path, root: Path, copied: set<string>, registrations: set<string>, n: string,
      rest: Path)
    requires repo + ["internal", n] in t && n != "registrations"
    ensures var src, dst := repo + ["internal", n], root + ["internal", n];
            var piece := InternalDirectory(t, repo, root, copied, registrations);
            if n in copied
              then && (dst + rest in piece <==> src + rest in t)
                   && (src + rest in t ==> piece[dst + rest] == t[src + rest])
            else dst in piece && piece[dst] == Link(src)
  {
    hide InternalPiece, DirPiece, InternalDirectory;
    var src, dst := repo + ["internal"], root + ["internal"];
    assert src + [n] == repo + ["internal", n] && dst + [n] == root + ["internal", n];
    var q := if n in copied then root + ["internal", n] + rest else root + ["internal", n];
    assert q[|dst|] == n && dst < q;
    BesideRegistrations(t, repo, root, copied, registrations, q);
    InternalPieceAt(t, src, dst, copied, q);
    assert n in copied ==> src + q[|dst|..] == repo + ["internal", n] + rest;
  }

  lemma RegistrationsEntry(t: Tree, repo: Path, root: Path, copied: set<string>, registrations: set<string>)
    ensures var dst, piece := root + ["internal", "registrations"],
                              InternalDirectory(t, repo, root, copied, registrations);
            dst in piece && piece[dst] == Dir
  {
    hide InternalPiece;
  }

  /** A registration file is linked when it is wanted. */
  lemma RegistrationEntry(t: Tree, repo: Path, root: Path, copied: set<string>, registrations: set<string>, n: string)
    requires "registrations" !in copied
    ensures var src, dst := repo + ["internal", "registrations", n], root + ["internal", "registrations", n];
            var piece := InternalDirectory(t, repo, root, copied, registrations);
            && (dst in piece <==> n in registrations)
            && (n in registrations ==> piece[dst] == Link(src))
  {
    hide InternalPiece, DirPiece;
    var src, dst := repo + ["internal", "registrations"], root + ["internal", "registrations"];
    assert src + [n] == repo + ["internal", "registrations", n] && dst + [n] == root + ["internal", "registrations", n];
    DirPieceAt(src, dst, registrations, dst + [n]);
    InternalPieceAt(t, repo + ["internal"], root + ["internal"], copied, dst + [n]);
    assert (dst + [n])[|root| + 1] == "registrations";
  }

  lemma ExactlyAt(t: Tree, root: Path, piece: map<Path, Node>, q: Path)
    requires Exactly(t, root, piece) && root <= q
    ensures q in t <==> q in piece
    ensures q in piece ==> t[q] == piece[q]
  {
  }

  method PopulateInternalDirectory(
    disk: Disk, ghost t0: Tree, repo: Path, root: Path, ghost pieces: Pieces, copied: set<string>)
    returns (ok: bool)
    requires Separate(t0, repo, root) && Direct(t0, repo, ["internal"])
    requires Progress(t0, disk.tree, root, pieces) && "internal" !in pieces && "registrations" !in copied
    modifies disk
    ensures ok <==> IsDir(t0, repo + ["internal"])
    ensures SameOutside(root, t0, disk.tree)
    ensures ok ==> Progress(t0, disk.tree, root,
            pieces["internal" := InternalPiece(t0, repo + ["internal"], root + ["internal"], copied)])
  {
    hide Separate, Direct, Stage, Placed, SameOutside, DirsAbove, NoLinkAbove, Vacant, Rooted, ChildNames, Exactly,
         Grew, InternalPiece, WellFormed;
    ghost var t := disk.tree;
    var src, dst := repo + ["internal"], root + ["internal"];
    assert repo + ["internal"] + [] == src && ["internal"] + [] == ["internal"];
    StageSource(t0, t, repo, root, pieces.Keys, "internal", []);
    StageVacant(t0, t, repo, root, pieces.Keys, "internal");
    DestinationApart(src, root, dst);
    InternalPieceSame(t0, t, src, dst, copied);
    ok := PopulateInternal(disk, src, dst, copied);
    StageNext(t0, t, disk.tree, root, pieces.Keys, "internal", dst);
    StageOutside(t0, disk.tree, root, pieces.Keys + {"internal"});
    if ok {
      ProgressNext(t0, t, disk.tree, root, pieces, "internal", InternalPiece(t0, src, dst, copied));
    }
  }

  lemma InternalPieceSame(t0: Tree, t: Tree, src: Path, dst: Path, copied: set<string>)
    requires forall q :: src <= q ==> (q in t <==> q in t0) && (q in t0 ==> t[q] == t0[q])
    requires ChildNames(t, src) == ChildNames(t0, src)
    ensures InternalPiece(t, src, dst, copied) == InternalPiece(t0, src, dst, copied)
  {
    hide InternalPiece, ChildNames;
    var a, b := InternalPiece(t, src, dst, copied), InternalPiece(t0, src, dst, copied);
    forall q ensures q in a <==> q in b
             ensures q in a ==> a[q] == b[q]
    {
      InternalPieceAt(t, src, dst, copied, q);
      InternalPieceAt(t0, src, dst, copied, q);
      if dst < q {
        assert src <= src + q[|dst|..];
      }
    }
  }

  function RegistrationsLinked(t: Tree, repo: Path, wanted: string -> bool): (names: set<string>)
  {
    set n | n in ChildNames(t, repo + ["internal", "registrations"]) && wanted(n)
  }

  method PopulateRegistrations(
    disk: Disk, ghost t0: Tree, repo: Path, root: Path, ghost pieces: Pieces, ghost copied: set<string>,
    wanted: string -> bool)
    returns (ok: bool)
    requires Separate(t0, repo, root) && Direct(t0, repo, ["internal", "registrations"])
    requires Progress(t0, disk.tree, root, pieces) && "registrations" !in copied
    requires "internal" in pieces
             && pieces["internal"] == InternalPiece(t0, repo + ["internal"], root + ["internal"], copied)
    modifies disk
    ensures ok <==> IsDir(t0, repo + ["internal", "registrations"])
    ensures SameOutside(root, t0, disk.tree)
    ensures ok ==> Progress(t0, disk.tree, root,
                            pieces["internal" := InternalDirectory(t0, repo, root, copied,
                                RegistrationsLinked(t0, repo, wanted))])
  {
    hide Separate, Direct, Stage, ChildNames, Exactly, Grew, InternalPiece, DirPiece, SameOutside, WellFormed;
    ghost var t := disk.tree;
    ghost var outer := InternalPiece(t0, repo + ["internal"], root + ["internal"], copied);
    NoRegistrationsYet(t0, repo + ["internal"], root + ["internal"], copied);
    assert root + ["internal"] + ["registrations"] == root + ["internal", "registrations"];
    ok := PopulateNestedDirectory(disk, t0, repo, root, pieces.Keys, "internal", "registrations", wanted, outer);
    StageOutside(t0, disk.tree, root, pieces.Keys);
    if ok {
      GrewRefl(t, root + ["internal"]);
      GrewTwice(t, t, disk.tree, root + ["internal"], root + ["internal", "registrations"]);
      ProgressNext(t0, t, disk.tree, root, pieces, "internal",
                   InternalDirectory(t0, repo, root, copied, RegistrationsLinked(t0, repo, wanted)));
    }
  }

  lemma GrewRefl(t: Tree, root: Path)
    ensures Grew(t, t, root)
  {
  }

  lemma NoRegistrationsYet(t: Tree, src: Path, dst: Path, copied: set<string>)
    requires "registrations" !in copied
    ensures dst in InternalPiece(t, src, dst, copied) && InternalPiece(t, src, dst, copied)[dst] == Dir
    ensures forall q :: q in InternalPiece(t, src, dst, copied) ==> !(dst + ["registrations"] <= q)
  {
    hide InternalPiece, ChildNames;
    InternalPieceAt(t, src, dst, copied, dst);
    forall q | q in InternalPiece(t, src, dst, copied) ensures !(dst + ["registrations"] <= q) {
      InternalPieceAt(t, src, dst, copied, q);
      ChildPrefix(dst, "registrations", q);
    }
  }

  // ----- the whole workspace -----

  ghost function TopPieces(repo: Path, root: Path, entries: set<string>, linked: set<string>): Pieces
  {
    map n | n in entries :: if n in linked then map[root + [n] := Link(repo + [n])] else map[]
  }

  /** Links to single entries of the checkout; `linked` are the entries that get one. */
  method LinkTopEntries(
    disk: Disk, repo: Path, root: Path, entries: seq<string>, linked: set<string>) returns (ok: bool)
    requires Separate(disk.tree, repo, root) && Distinct(entries)
    modifies disk
    ensures ok && SameOutside(root, old(disk.tree), disk.tree)
    ensures Progress(old(disk.tree), disk.tree, root, TopPieces(repo, root, Elems(entries), linked))
  {
    hide DirsAbove, LinkMap, WellFormed, Placed, TopPieces, Stage;
    ghost var t := disk.tree;
    WellFormedAbove(t, root);
    forall n ensures root + [n] !in t {
      assert root < root + [n];
    }
    ok := LinkChildren(disk, repo, root, entries, n => n in linked);
    ghost var chosen := Chosen(entries, n => n in linked);
    TopPlaced(t, repo, root, Elems(entries), chosen);
    TopPiecesSame(repo, root, Elems(entries), chosen, linked);
    StageOutside(t, disk.tree, root, Elems(entries));
  }

  lemma TopPiecesSame(repo: Path, root: Path, entries: set<string>, chosen: set<string>, linked: set<string>)
    requires forall n :: n in entries ==> (n in chosen <==> n in linked)
    ensures TopPieces(repo, root, entries, chosen) == TopPieces(repo, root, entries, linked)
    ensures TopPieces(repo, root, entries, linked).Keys == entries
  {
  }

  lemma TopPlaced(t: Tree, repo: Path, root: Path, entries: set<string>, chosen: set<string>)
    requires (forall q :: q in t ==> !(root < q)) && chosen <= entries
    ensures Stage(t, t + LinkMap(repo, root, chosen), root, entries)
    ensures Placed(t + LinkMap(repo, root, chosen), root, TopPieces(repo, root, entries, chosen))
  {
    hide LinkMap;
    var t' := t + LinkMap(repo, root, chosen);
    forall q ensures q in t' <==> q in t || (|q| == |root| + 1 && root <= q && q[|root|] in chosen)
             ensures q in t ==> t'[q] == t[q]
             ensures q in t' && q !in t ==> root < q && q[|root|] in chosen && t'[q] == Link(repo + [q[|root|]])
    {
      LinkMapAt(repo, root, chosen, q);
    }
    forall n | n in entries ensures Exactly(t', root + [n], TopPieces(repo, root, entries, chosen)[n]) {
      forall q | root + [n] <= q
        ensures q in t' <==> q == root + [n] && n in chosen
      {
        ChildPrefix(root, n, q);
        if |q| == |root| + 1 {
          assert q == root + [n];
        }
      }
    }
  }

  lemma MkdirAllTwo(t: Tree, root: Path, a: string, b: string)
    requires DirsAbove(t, root + [a]) && Vacant(t, root + [a])
    ensures MkdirAll(t, root + [a, b]) == Outcome(t[root + [a] := Dir][root + [a, b] := Dir], true)
  {
    hide DirsAbove, NoLinkAbove, Resolve;
    var p, q := root + [a], root + [a, b];
    var t1 := t[p := Dir];
    assert q[..|q| - 1] == p && q == p + [b] && p <= q && p !in t && q !in t1;
    MkdirAllOne(t, p);
    ResolveMissing(t, p, b);
    OneMoreDir(t, p, p);
    ChildDirs(t1, p, b);
    DirsAboveHaveNoLinks(t1, q);
    ResolveInPlace(t1, q, false);
  }

  lemma ResolveMissing(t: Tree, p: Path, b: string)
    requires DirsAbove(t, p) && Vacant(t, p)
    ensures Stat(t, p + [b]) == None
  {
    var q := p + [b];
    assert p <= q;
    assert NoLinkAbove(t, q) by {
      forall i | 0 <= i < |q| ensures !IsLink(t, q[..i]) {
        if i < |p| {
          assert q[..i] == p[..i];
          assert IsDir(t, p[..i]);
        } else {
          assert q[..i] == p;
        }
      }
    }
    hide Resolve;
    ResolveInPlace(t, q, true);
  }

  ghost function WorkPiece(root: Path, a: string, b: string): map<Path, Node>
  {
    map[root + [a] := Dir, root + [a, b] := Dir]
  }

  /** `config/samples` and `packages`, empty. */
  method MakeOutputDirs(disk: Disk, ghost t0: Tree, repo: Path, root: Path, ghost pieces: Pieces) returns (ok: bool)
    requires Separate(t0, repo, root) && Progress(t0, disk.tree, root, pieces) && "config" !in pieces
             && "packages" !in pieces
    modifies disk
    ensures ok && SameOutside(root, t0, disk.tree)
    ensures Progress(t0, disk.tree, root,
                     pieces["config" := WorkPiece(root, "config", "samples")]["packages" :=
                         map[root + ["packages"] := Dir]])
  {
    hide Separate, Direct, Stage, DirsAbove, MkdirAll, Placed, Vacant, WorkPiece, SameOutside, WellFormed;
    ghost var t := disk.tree;
    StageVacant(t0, t, repo, root, pieces.Keys, "config");
    MkdirAllTwo(t, root, "config", "samples");
    ok := disk.MakeDirs(root + ["config", "samples"]);
    ConfigAdded(t0, t, root, pieces);
    ghost var t1 := disk.tree;
    ghost var pieces1 := pieces["config" := WorkPiece(root, "config", "samples")];
    StageVacant(t0, t1, repo, root, pieces1.Keys, "packages");
    VacantMissing(t1, root + ["packages"]);
    MkdirAllOne(t1, root + ["packages"]);
    ok := disk.MakeDirs(root + ["packages"]);
    PackagesAdded(t0, t1, root, pieces1);
    StageOutside(t0, disk.tree, root, pieces1["packages" := map[root + ["packages"] := Dir]].Keys);
  }

  lemma VacantMissing(t: Tree, p: Path)
    requires Vacant(t, p)
    ensures p !in t
  {
  }

  lemma ConfigAdded(t0: Tree, t: Tree, root: Path, pieces: Pieces)
    requires Progress(t0, t, root, pieces) && Vacant(t, root + ["config"])
    ensures Progress(t0, t[root + ["config"] := Dir][root + ["config", "samples"] := Dir], root,
                     pieces["config" := WorkPiece(root, "config", "samples")])
  {
    hide Progress;
    var t' := t[root + ["config"] := Dir][root + ["config", "samples"] := Dir];
    var work := WorkPiece(root, "config", "samples");
    assert t' == t + work;
    assert root + ["config"] <= root + ["config", "samples"];
    PieceAdded(t, root + ["config"], work);
    ProgressNext(t0, t, t', root, pieces, "config", work);
  }

  lemma PackagesAdded(t0: Tree, t: Tree, root: Path, pieces: Pieces)
    requires Progress(t0, t, root, pieces) && Vacant(t, root + ["packages"])
    ensures Progress(t0, t[root + ["packages"] := Dir], root, pieces["packages" := map[root + ["packages"] := Dir]])
  {
    hide Progress;
    var t' := t[root + ["packages"] := Dir];
    var packages := map[root + ["packages"] := Dir];
    assert t' == t + packages;
    PieceAdded(t, root + ["packages"], packages);
    ProgressNext(t0, t, t', root, pieces, "packages", packages);
  }

  // ----- what becomes of each entry of the checkout -----

  lemma ApiEntry(t0: Tree, t: Tree, repo: Path, root: Path, groups: set<string>, n: string)
    requires Exactly(t, root + ["api"], ApiPiece(t0, repo, root, groups)) && repo + ["api", n] in t0
    ensures var src, dst := repo + ["api", n], root + ["api", n];
            if IsDir(t0, src) && n !in groups then dst in t && t[dst] == Link(src) else dst !in t
  {
    hide DirPiece, ChildNames, Exactly;
    assert repo + ["api"] + [n] == repo + ["api", n] && root + ["api"] + [n] == root + ["api", n];
    ExactlyAt(t, root + ["api"], ApiPiece(t0, repo, root, groups), root + ["api"] + [n]);
    DirPieceAt(repo + ["api"], root + ["api"], ApiLinked(t0, repo, groups), root + ["api", n]);
  }

  lemma ControllersEntry(t0: Tree, t: Tree, repo: Path, root: Path, groups: set<string>, n: string)
    requires Exactly(t, root + ["controllers"], ControllersPiece(t0, repo, root, groups))
             && repo + ["controllers", n] in t0
    ensures var src, dst := repo + ["controllers", n], root + ["controllers", n];
            if IsDir(t0, src) && n in groups then dst !in t else dst in t && t[dst] == Link(src)
  {
    hide DirPiece, ChildNames, Exactly;
    var src, dst := repo + ["controllers"], root + ["controllers"];
    assert src + [n] == repo + ["controllers", n] && dst + [n] == root + ["controllers", n];
    ExactlyAt(t, dst, ControllersPiece(t0, repo, root, groups), dst + [n]);
    DirPieceAt(src, dst, ControllersLinked(t0, repo, groups), dst + [n]);
  }

  lemma RootEntry(t0: Tree, t: Tree, repo: Path, root: Path, roots: set<string>, n: string)
    requires Exactly(t, root + ["pkg"], PkgPiece(t0, repo, root, roots)) && repo + ["pkg", "servicemanager", n] in t0
    ensures var src, dst := repo + ["pkg", "servicemanager", n], root + ["pkg", "servicemanager", n];
            if IsDir(t0, src) && n in roots then dst !in t else dst in t && t[dst] == Link(src)
  {
    hide DirPiece, ChildNames, PkgLinked, Exactly;
    var src, dst := repo + ["pkg", "servicemanager"], root + ["pkg", "servicemanager"];
    assert src + [n] == repo + ["pkg", "servicemanager", n] && dst + [n] == root + ["pkg", "servicemanager", n];
    assert (dst + [n])[..|root| + 1] == root + ["pkg"];
    ExactlyAt(t, root + ["pkg"], PkgPiece(t0, repo, root, roots), dst + [n]);
    DirPieceAt(src, dst, RootsLinked(t0, repo, roots), dst + [n]);
    DirPieceAt(repo + ["pkg"], root + ["pkg"], PkgLinked(t0, repo), dst + [n]);
  }

  lemma PkgEntry(t0: Tree, t: Tree, repo: Path, root: Path, roots: set<string>, n: string)
    requires Exactly(t, root + ["pkg"], PkgPiece(t0, repo, root, roots)) && repo + ["pkg", n] in t0
             && n != "servicemanager"
    ensures root + ["pkg", n] in t && t[root + ["pkg", n]] == Link(repo + ["pkg", n])
  {
    hide DirPiece, ChildNames, RootsLinked, Exactly;
    var src, dst := repo + ["pkg"], root + ["pkg"];
    assert src + [n] == repo + ["pkg", n] && dst + [n] == root + ["pkg", n];
    ExactlyAt(t, dst, PkgPiece(t0, repo, root, roots), dst + [n]);
    DirPieceAt(src, dst, PkgLinked(t0, repo), dst + [n]);
    var inner := root + ["pkg", "servicemanager"];
    DirPieceAt(repo + ["pkg", "servicemanager"], inner, RootsLinked(t0, repo, roots), dst + [n]);
    assert inner[|root| + 1] == "servicemanager" && (dst + [n])[|root| + 1] == n;
  }
}
