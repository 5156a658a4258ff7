/**
 A link to a real directory, and what operations on paths below it do: the same as on paths below its target.
 */
module Doorways {
  import opened Text
  import opened FileSystem
  import opened Snapshot

  /** Without links on the way the budget does not matter. */
  lemma {:induction false} WalkBudget(t: Tree, at: Path, rest: Path, follow: bool, a: nat, b: nat)
    requires forall i :: 0 < i <= |rest| ==> !IsLink(t, at + rest[..i])
    ensures Walk(t, at, rest, follow, a) == Walk(t, at, rest, follow, b)
    decreases |rest|
  {
    if rest != [] {
      var q := at + [rest[0]];
      assert q == at + rest[..1];
      assert !IsLink(t, at + rest[..1]);
      forall i | 0 < i <= |rest[1..]| ensures !IsLink(t, q + rest[1..][..i]) {
        assert q + rest[1..][..i] == at + rest[..i + 1];
      }
      WalkBudget(t, q, rest[1..], follow, a, b);
    }
  }

  /** A link to a real directory without links below it. */
  ghost predicate Doorway(t: Tree, door: Path, target: Path) {
    && door != [] && t.Keys >= {door} && t[door] == Link(target) && DirsAbove(t, door)
    && IsDir(t, target) && DirsAbove(t, target) && forall q :: target <= q ==> !IsLink(t, q)
  }

  lemma ResolveEnters(t: Tree, door: Path, target: Path, tail: Path, follow: bool)
    requires Doorway(t, door, target) && (tail != [] || follow)
    ensures Resolve(t, door + tail, follow) == Resolve(t, target + tail, follow)
  {
    hide Walk;
    assert [] + door == door;
    forall i | 0 < i < |door| ensures IsDir(t, [] + door[..i]) {
      assert [] + door[..i] == door[..i];
    }
    WalkEnters(t, [], door, tail, follow, MAX_LINKS);
    var p := target + tail;
    forall i | 0 < i <= |p| ensures !IsLink(t, [] + p[..i]) {
      assert [] + p[..i] == p[..i];
      if i < |target| {
        assert p[..i] == target[..i];
      } else {
        assert target <= p[..i];
      }
    }
    WalkBudget(t, [], p, follow, MAX_LINKS, MAX_LINKS - 1);
  }

  lemma BelowDoorway(t: Tree, door: Path, target: Path, tail: Path)
    requires Doorway(t, door, target)
    ensures NoLinkAbove(t, target + tail) && !IsLink(t, target + tail)
  {
    var p := target + tail;
    forall i | 0 <= i < |p| ensures !IsLink(t, p[..i]) {
      if i < |target| {
        assert p[..i] == target[..i];
        assert IsDir(t, target[..i]);
      } else {
        assert target <= p[..i];
      }
    }
  }

  lemma DoorwayStays(t: Tree, t': Tree, door: Path, target: Path, p: Path)
    requires Doorway(t, door, target) && OnlyNewDirs(t, t', p)
    ensures Doorway(t', door, target)
  {
    forall q | target <= q ensures !IsLink(t', q) {
      assert !IsLink(t, q);
    }
  }

  /** Making directories below a link makes them below its target. */
  lemma {:induction false} MkdirAllEnters(t: Tree, door: Path, target: Path, tail: Path)
    requires Doorway(t, door, target)
    ensures MkdirAll(t, door + tail) == MkdirAll(t, target + tail)
    decreases |tail|
  {
    hide Resolve, Doorway, NoLinkAbove, DirsAbove;
    ResolveEnters(t, door, target, tail, true);
    BelowDoorway(t, door, target, tail);
    if tail == [] {
      TargetExists(t, door, target);
      assert target + tail == target;
    } else {
      var less := tail[..|tail| - 1];
      assert (door + tail)[..|door + tail| - 1] == door + less;
      assert (target + tail)[..|target + tail| - 1] == target + less;
      MkdirAllEnters(t, door, target, less);
      BelowDoorway(t, door, target, less);
      MkdirAllInPlace(t, target + less);
      var t' := MkdirAll(t, target + less).tree;
      DoorwayStays(t, t', door, target, target + less);
      ResolveEnters(t', door, target, tail, false);
    }
  }

  lemma TargetExists(t: Tree, door: Path, target: Path)
    requires Doorway(t, door, target)
    ensures Stat(t, target) == Some(Dir)
  {
    hide Resolve;
    DirsAboveHaveNoLinks(t, target);
    ResolveInPlace(t, target, true);
  }

  lemma MkdirUnder(t: Tree, dir: Path, n: string)
    requires IsDir(t, dir) && DirsAbove(t, dir) && !IsLink(t, dir + [n])
    ensures MkdirAll(t, dir + [n]) == if dir + [n] in t then Outcome(t, t[dir + [n]].Dir?)
            else Outcome(t[dir + [n] := Dir], true)
    ensures DirsAbove(t, dir + [n])
  {
    hide Resolve, DirsAbove, NoLinkAbove;
    ChildDirs(t, dir, n);
    if dir + [n] in t {
      DirsAboveHaveNoLinks(t, dir + [n]);
      ResolveInPlace(t, dir + [n], true);
    } else {
      MkdirAllOne(t, dir + [n]);
    }
  }

  /** Making two levels of directories below an existing one, where there are no links. */
  lemma MkdirTwoUnder(t: Tree, dir: Path, a: string, b: string)
    requires WellFormed(t) && IsDir(t, dir) && DirsAbove(t, dir) && !IsLink(t, dir + [a]) && !IsLink(t, dir + [a] + [b])
    ensures var m, d := dir + [a], dir + [a] + [b];
            var r := MkdirAll(t, d);
            if (m in t && t[m].File?) || (d in t && t[d].File?) then r == Outcome(t, false)
            else r.ok && IsDir(r.tree, d) && DirsAbove(r.tree, d)
                 && r.tree == if d in t then t else if m in t then t[d := Dir] else t[m := Dir][d := Dir]
  {
    hide Resolve, DirsAbove, NoLinkAbove, WellFormed;
    var m, d := dir + [a], dir + [a] + [b];
    MkdirUnder(t, dir, a);
    assert d[..|d| - 1] == m && d != m;
    if IsDir(t, m) {
      MkdirUnder(t, m, b);
      DirsKept(t, MkdirAll(t, d).tree, d);
    } else {
      NothingUnder(t, m, b);
      if m !in t {
        var t' := t[m := Dir];
        DirsKept(t, t', m);
        MkdirUnder(t', m, b);
        DirsKept(t', t'[d := Dir], d);
        DirsAboveHaveNoLinks(t', d);
        ResolveInPlace(t', d, false);
      }
    }
  }

  lemma DirsKept(t: Tree, t': Tree, p: Path)
    requires DirsAbove(t, p) && forall q :: IsDir(t, q) ==> IsDir(t', q)
    ensures DirsAbove(t', p)
  {
  }

  lemma NothingUnder(t: Tree, m: Path, b: string)
    requires WellFormed(t) && !IsDir(t, m) && DirsAbove(t, m) && !IsLink(t, m)
    ensures m + [b] !in t && Stat(t, m + [b]) == None
  {
    hide Resolve;
    var d := m + [b];
    assert d[..|d| - 1] == m;
    forall i | 0 <= i < |d| ensures !IsLink(t, d[..i]) {
      if i < |m| {
        assert d[..i] == m[..i];
        assert IsDir(t, m[..i]);
      } else {
        assert d[..i] == m;
      }
    }
    ResolveInPlace(t, d, true);
  }

  /** What keeps a file from being written two levels down: files in the place of directories, or the reverse. */
  predicate Blocked(t: Tree, m: Path, d: Path, q: Path) {
    (m in t && t[m].File?) || (d in t && t[d].File?) || IsDir(t, q)
  }

  /** Making two levels of directories below a link and writing a file there: exactly when it succeeds, where
      the file lands, and exactly when the rest of the disk is unchanged. */
  lemma OutputBelowDoorway(
    t: Tree, root: Path, door: Path, target: Path, a: string, b: string, f: string, content: string)
    requires WellFormed(t) && Doorway(t, door, target) && forall sub :: !(root < target + sub)
    ensures var m, d := target + [a], target + [a] + [b];
            var q := d + [f];
            var made := MkdirAll(t, door + [a, b]);
            var r := if made.ok then WriteFile(made.tree, door + [a, b, f], content) else made;
            && (r.ok <==> !Blocked(t, m, d, q))
            && (r.ok ==> q in r.tree && r.tree[q] == File(content))
            && (SameOutside(root, t, r.tree) <==> Blocked(t, m, d, q) || (q in t && t[q] == File(content)))
  {
    hide MkdirAll, WriteFile, Doorway, NoLinkAbove, DirsAbove, WellFormed, SameOutside;
    var m, d := target + [a], target + [a] + [b];
    var q := d + [f];
    assert [a] + [b] == [a, b] && [a, b] + [f] == [a, b, f];
    assert d == target + [a, b] && q == target + [a, b, f];
    MkdirAllEnters(t, door, target, [a, b]);
    BelowDoorway(t, door, target, [a]);
    BelowDoorway(t, door, target, [a, b]);
    DoorwayParts(t, door, target);
    MkdirTwoUnder(t, target, a, b);
    var made := MkdirAll(t, door + [a, b]);
    SameOutsideRefl(root, t);
    PathsUnder(t, m, d, f);
    if made.ok {
      NewDirsUnder(t, made.tree, m, d);
      DoorwayStays(t, made.tree, door, target, d);
      WriteEnters(made.tree, door, target, [a, b, f], d, f, content);
      OutputChanges(t, made.tree, root, m, d, q, content);
    }
  }

  lemma DoorwayParts(t: Tree, door: Path, target: Path)
    requires Doorway(t, door, target)
    ensures IsDir(t, target) && DirsAbove(t, target)
  {
  }

  lemma NewDirsUnder(t: Tree, t': Tree, m: Path, d: Path)
    requires m <= d && t' == if d in t then t else if m in t then t[d := Dir] else t[m := Dir][d := Dir]
    requires d in t || (m in t ==> IsDir(t, m))
    ensures OnlyNewDirs(t, t', d)
  {
  }

  /** A file in the place of `m` or `d` leaves nothing further down. */
  lemma PathsUnder(t: Tree, m: Path, d: Path, f: string)
    requires WellFormed(t) && d != [] && d[..|d| - 1] == m
    ensures d in t ==> IsDir(t, m)
    ensures d + [f] in t ==> IsDir(t, d) && IsDir(t, m)
  {
    assert (d + [f])[..|d + [f]| - 1] == d;
  }

  /** Writing below a link writes below its target. */
  lemma WriteEnters(t: Tree, door: Path, target: Path, tail: Path, d: Path, f: string, content: string)
    requires Doorway(t, door, target) && tail != [] && target + tail == d + [f] && IsDir(t, d) && DirsAbove(t, d)
    ensures WriteFile(t, door + tail, content) ==
            if IsDir(t, d + [f]) then Outcome(t, false) else Outcome(t[d + [f] := File(content)], true)
  {
    hide Resolve, Doorway, NoLinkAbove, DirsAbove;
    ResolveEnters(t, door, target, tail, true);
    BelowDoorway(t, door, target, tail);
    ChildDirs(t, d, f);
    ResolveInPlace(t, d + [f], true);
  }

  lemma OutputChanges(t: Tree, made: Tree, root: Path, m: Path, d: Path, q: Path, content: string)
    requires !(root < m) && !(root < d) && !(root < q) && m != d && d != q && m != q
    requires made == if d in t then t else if m in t then t[d := Dir] else t[m := Dir][d := Dir]
    requires q in t ==> d in t
    ensures SameOutside(root, t, made) <==> d in t
    ensures SameOutside(root, t, made[q := File(content)]) <==> q in t && t[q] == File(content)
  {
    if d !in t {
      assert d in made && d in made[q := File(content)];
    } else {
      assert made[q := File(content)][q] == File(content);
      if q in t && t[q] == File(content) {
        assert made[q := File(content)] == t;
      }
    }
  }

  /** Removing below a link: the rest of the disk is unchanged exactly when there is nothing to remove, or
      something that cannot be removed. */
  lemma RemoveBelowDoorway(t: Tree, root: Path, door: Path, target: Path, tail: Path)
    requires WellFormed(t) && Doorway(t, door, target) && tail != [] && !(root < target + tail)
    ensures SameOutside(root, t, Remove(t, door + tail).tree) <==> target + tail !in t || HasChildren(t, target + tail)
  {
    hide Resolve, Doorway, NoLinkAbove, DirsAbove, WellFormed, HasChildren;
    var q := target + tail;
    ResolveEnters(t, door, target, tail, false);
    BelowDoorway(t, door, target, tail);
    ResolveInPlace(t, q, false);
    if q in t {
      WellFormedAbove(t, q);
    } else {
      assert t - {q} == t;
    }
  }

  lemma ParentThere(t: Tree, dir: Path, name: string)
    requires DirsAbove(t, dir + [name])
    ensures MkdirAll(t, dir) == Outcome(t, true)
  {
    hide Resolve, NoLinkAbove;
    var q := dir + [name];
    assert q[..|dir|] == dir;
    forall i | 0 <= i < |dir| ensures IsDir(t, dir[..i]) {
      assert q[..i] == dir[..i];
    }
    DirsAboveHaveNoLinks(t, dir);
    ResolveInPlace(t, dir, true);
  }
}
