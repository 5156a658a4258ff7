/**
 Strict orders, the one increasing listing of a finite set, and the stable sort that Go's
 `sort.SliceStable` performs.  Go ranges over maps in an unspecified order; every such range in
 the registry tool is followed by a sort, and `Listing` is what the sorted result has to be.
 */
module Orders {

  function Elems<T>(s: seq<T>): (xs: set<T>)
  {
    set x | x in s
  }

  ghost predicate StrictTotal<T(!new)>(less: (T, T) -> bool) {
    && (forall x :: !less(x, x))
    && (forall x, y, z :: less(x, y) && less(y, z) ==> less(x, z))
    && (forall x, y :: x == y || less(x, y) || less(y, x))
  }

  /** The comparator of a sort may leave distinct elements incomparable, but consistently. */
  ghost predicate StrictWeak<T(!new)>(less: (T, T) -> bool) {
    && (forall x :: !less(x, x))
    && (forall x, y, z :: less(x, y) && less(y, z) ==> less(x, z))
    && (forall x, y, z :: !less(x, y) && !less(y, z) ==> !less(x, z))
  }

  ghost predicate Increasing<T(!new)>(less: (T, T) -> bool, s: seq<T>) {
    forall i, j :: 0 <= i < j < |s| ==> less(s[i], s[j])
  }

  /** What a sort guarantees: no later element is below an earlier one. */
  ghost predicate Ordered<T(!new)>(less: (T, T) -> bool, s: seq<T>) {
    forall i, j :: 0 <= i < j < |s| ==> !less(s[j], s[i])
  }

  predicate Distinct<T(==)>(s: seq<T>) {
    forall i, j :: 0 <= i < j < |s| ==> s[i] != s[j]
  }

  lemma ElemsHead<T>(s: seq<T>)
    requires s != []
    ensures Elems(s) == {s[0]} + Elems(s[1..])
  {
    assert s == [s[0]] + s[1..];
  }

  lemma ElemsConcat<T>(s: seq<T>, t: seq<T>)
    ensures Elems(s + t) == Elems(s) + Elems(t)
  {
    assert forall x :: x in s + t <==> x in s || x in t;
  }

  lemma IncreasingConcat<T(!new)>(less: (T, T) -> bool, a: seq<T>, b: seq<T>)
    requires Increasing(less, a) && Increasing(less, b)
    requires forall x, y :: x in a && y in b ==> less(x, y)
    ensures Increasing(less, a + b)
  {
  }

  // ----- the increasing listing of a set -----

  lemma {:induction false} IncreasingUnique<T(!new)>(less: (T, T) -> bool, a: seq<T>, b: seq<T>)
    requires StrictTotal(less) && Increasing(less, a) && Increasing(less, b)
    requires Elems(a) == Elems(b)
    ensures a == b
  {
    if b != [] {
      ElemsHead(b);
    }
    if a == [] {
    } else {
      ElemsHead(a);
      assert b[0] in Elems(b) && b[0] in a && a[0] in b;
      assert a[0] == b[0];
      assert a[0] !in a[1..] && b[0] !in b[1..];
      IncreasingUnique(less, a[1..], b[1..]);
      assert a == [a[0]] + a[1..] && b == [b[0]] + b[1..];
    }
  }

  lemma {:induction false} LeastExists<T(!new)>(less: (T, T) -> bool, xs: set<T>)
    requires StrictTotal(less) && xs != {}
    ensures exists m :: m in xs && forall y :: y in xs ==> y == m || less(m, y)
  {
    var x :| x in xs;
    if xs == {x} {
      assert x in xs;
    } else {
      var rest := xs - {x};
      LeastExists(less, rest);
      var m :| m in rest && forall y :: y in rest ==> y == m || less(m, y);
      LeastExtends(less, xs, x, m);
    }
  }

  lemma LeastExtends<T(!new)>(less: (T, T) -> bool, xs: set<T>, x: T, m: T)
    requires StrictTotal(less) && x in xs && m in xs - {x}
    requires forall y :: y in xs - {x} ==> y == m || less(m, y)
    ensures exists l :: l in xs && forall y :: y in xs ==> y == l || less(l, y)
  {
    var l := if less(x, m) then x else m;
    forall y | y in xs ensures y == l || less(l, y) {
      if y != x {
        assert y in xs - {x};
        assert y == m || less(m, y);
      }
    }
  }

  lemma {:induction false} ListingExists<T(!new)>(less: (T, T) -> bool, xs: set<T>)
    requires StrictTotal(less)
    ensures exists s: seq<T> :: Increasing(less, s) && Elems(s) == xs
  {
    if xs == {} {
      var s: seq<T> := [];
      assert Increasing(less, s) && Elems(s) == xs;
    } else {
      LeastExists(less, xs);
      var m :| m in xs && forall y :: y in xs ==> y == m || less(m, y);
      ListingExists(less, xs - {m});
      var t: seq<T> :| Increasing(less, t) && Elems(t) == xs - {m};
      var s := [m] + t;
      assert forall y :: y in t ==> y in Elems(t);
      assert Increasing(less, s);
      ElemsConcat([m], t);
      assert Elems(s) == xs;
    }
  }

  /** The increasing enumeration of a set under a strict total order. */
  ghost function Listing<T(!new)>(less: (T, T) -> bool, xs: set<T>): seq<T>
  {
    if exists s: seq<T> :: Increasing(less, s) && Elems(s) == xs then
      var s: seq<T> :| Increasing(less, s) && Elems(s) == xs; s
    else
      []
  }

  lemma ListingSpec<T(!new)>(less: (T, T) -> bool, xs: set<T>)
    requires StrictTotal(less)
    ensures Increasing(less, Listing(less, xs)) && Elems(Listing(less, xs)) == xs
    ensures Distinct(Listing(less, xs))
    ensures |Listing(less, xs)| == |xs|
  {
    ListingExists(less, xs);
    DistinctCount(Listing(less, xs));
  }

  lemma {:induction false} DistinctCount<T>(s: seq<T>)
    requires Distinct(s)
    ensures |s| == |Elems(s)|
  {
    if s != [] {
      ElemsHead(s);
      DistinctCount(s[1..]);
      assert s[0] !in s[1..];
    }
  }

  // ----- stable sorting -----

  function Insert<T>(less: (T, T) -> bool, x: T, s: seq<T>): seq<T>
  {
    if s == [] then [x]
    else if less(s[0], x) then [s[0]] + Insert(less, x, s[1..])
    else [x] + s
  }

  function Sort<T>(less: (T, T) -> bool, s: seq<T>): seq<T>
  {
    if s == [] then [] else Insert(less, s[0], Sort(less, s[1..]))
  }

  lemma {:induction false} InsertPermutes<T>(less: (T, T) -> bool, x: T, s: seq<T>)
    ensures multiset(Insert(less, x, s)) == multiset{x} + multiset(s)
  {
    if s != [] {
      assert s == [s[0]] + s[1..];
      if less(s[0], x) {
        InsertPermutes(less, x, s[1..]);
      }
    }
  }

  lemma {:induction false} SortPermutes<T>(less: (T, T) -> bool, s: seq<T>)
    ensures multiset(Sort(less, s)) == multiset(s)
  {
    if s != [] {
      assert s == [s[0]] + s[1..];
      SortPermutes(less, s[1..]);
      InsertPermutes(less, s[0], Sort(less, s[1..]));
    }
  }

  lemma PermutationElems<T>(a: seq<T>, b: seq<T>)
    requires multiset(a) == multiset(b)
    ensures |a| == |b| && Elems(a) == Elems(b)
    ensures forall x :: x in a <==> x in b
  {
    assert forall x :: x in a <==> x in multiset(a);
    assert forall x :: x in b <==> x in multiset(b);
    assert |a| == |multiset(a)| == |multiset(b)| == |b|;
  }

  lemma {:induction false} InsertOrdered<T(!new)>(less: (T, T) -> bool, x: T, s: seq<T>)
    requires StrictWeak(less) && Ordered(less, s)
    ensures Ordered(less, Insert(less, x, s))
  {
    if s == [] {
    } else if less(s[0], x) {
      var r := Insert(less, x, s[1..]);
      assert Ordered(less, r) by { InsertOrdered(less, x, s[1..]); }
      forall y | y in r ensures !less(y, s[0]) {
        InsertPermutes(less, x, s[1..]);
        assert y in multiset(r);
        assert y == x || y in s[1..];
      }
      PrependOrdered(less, s[0], r);
    } else {
      forall y | y in s ensures !less(y, x) {
        assert !less(y, s[0]);
      }
      PrependOrdered(less, x, s);
    }
  }

  lemma PrependOrdered<T(!new)>(less: (T, T) -> bool, x: T, s: seq<T>)
    requires Ordered(less, s) && forall y :: y in s ==> !less(y, x)
    ensures Ordered(less, [x] + s)
  {
  }

  lemma {:induction false} SortOrdered<T(!new)>(less: (T, T) -> bool, s: seq<T>)
    requires StrictWeak(less)
    ensures Ordered(less, Sort(less, s))
  {
    if s != [] {
      SortOrdered(less, s[1..]);
      InsertOrdered(less, s[0], Sort(less, s[1..]));
    }
  }

  /** The subsequence of the elements incomparable with `k`. */
  function Peers<T>(less: (T, T) -> bool, k: T, s: seq<T>): seq<T>
  {
    if s == [] then []
    else if !less(k, s[0]) && !less(s[0], k) then [s[0]] + Peers(less, k, s[1..])
    else Peers(less, k, s[1..])
  }

  lemma {:induction false} InsertStable<T(!new)>(less: (T, T) -> bool, x: T, s: seq<T>, k: T)
    requires StrictWeak(less) && Ordered(less, s)
    ensures Peers(less, k, Insert(less, x, s)) == Peers(less, k, [x] + s)
  {
    if s != [] && less(s[0], x) {
      var r := [s[0]] + Insert(less, x, s[1..]);
      assert r[0] == s[0] && r[1..] == Insert(less, x, s[1..]);
      InsertStable(less, x, s[1..], k);
      assert ([x] + s)[1..] == s;
      assert ([x] + s[1..])[1..] == s[1..];
    }
  }

  lemma {:induction false} SortStable<T(!new)>(less: (T, T) -> bool, s: seq<T>, k: T)
    requires StrictWeak(less)
    ensures Peers(less, k, Sort(less, s)) == Peers(less, k, s)
  {
    if s != [] {
      var r := Sort(less, s[1..]);
      SortOrdered(less, s[1..]);
      InsertStable(less, s[0], r, k);
      SortStable(less, s[1..], k);
      assert ([s[0]] + r)[1..] == r;
    }
  }

  /** Sorting has one possible outcome: an ordered rearrangement that keeps peers in place
      is the result of `Sort`, whatever algorithm produced it. */
  lemma {:induction false} SortUnique<T(!new)>(less: (T, T) -> bool, s: seq<T>, r: seq<T>)
    requires StrictWeak(less) && Ordered(less, r) && multiset(r) == multiset(s)
    requires forall k :: Peers(less, k, r) == Peers(less, k, s)
    ensures r == Sort(less, s)
  {
    SortOrdered(less, s);
    SortPermutes(less, s);
    forall k ensures Peers(less, k, r) == Peers(less, k, Sort(less, s)) {
      SortStable(less, s, k);
    }
    OrderedSamePeers(less, r, Sort(less, s));
  }

  lemma PeersHead<T>(less: (T, T) -> bool, k: T, s: seq<T>)
    requires s != []
    ensures var peer := !less(k, s[0]) && !less(s[0], k);
            && (peer ==>
                Peers(less, k, s) != [] && Peers(less, k, s)[0] == s[0]
                && Peers(less, k, s)[1..] == Peers(less, k, s[1..]))
            && (!peer ==> Peers(less, k, s) == Peers(less, k, s[1..]))
  {
  }

  lemma SameHead<T(!new)>(less: (T, T) -> bool, a: seq<T>, b: seq<T>)
    requires StrictWeak(less) && Ordered(less, a) && Ordered(less, b) && a != [] && b != []
    requires a[0] in b && b[0] in a
    requires Peers(less, a[0], a) == Peers(less, a[0], b)
    ensures a[0] == b[0]
  {
    hide Peers;
    assert !less(a[0], b[0]) && !less(b[0], a[0]);
    PeersHead(less, a[0], a);
    PeersHead(less, a[0], b);
  }

  lemma {:induction false} OrderedSamePeers<T(!new)>(less: (T, T) -> bool, a: seq<T>, b: seq<T>)
    requires StrictWeak(less) && Ordered(less, a) && Ordered(less, b)
    requires multiset(a) == multiset(b)
    requires forall k :: Peers(less, k, a) == Peers(less, k, b)
    ensures a == b
  {
    hide Peers, StrictWeak, Ordered;
    PermutationElems(a, b);
    if a != [] {
      SameHead(less, a, b);
      forall k ensures Peers(less, k, a[1..]) == Peers(less, k, b[1..]) {
        assert Peers(less, k, a) == Peers(less, k, b);
        PeersHead(less, k, a);
        PeersHead(less, k, b);
      }
      TailPermutes(a, b);
      OrderedTail(less, a);
      OrderedTail(less, b);
      OrderedSamePeers(less, a[1..], b[1..]);
      assert a == [a[0]] + a[1..] && b == [b[0]] + b[1..];
    }
  }

  lemma TailPermutes<T>(a: seq<T>, b: seq<T>)
    requires a != [] && b != [] && a[0] == b[0] && multiset(a) == multiset(b)
    ensures multiset(a[1..]) == multiset(b[1..])
  {
    assert a == [a[0]] + a[1..] && b == [b[0]] + b[1..];
    assert multiset(a[1..]) == multiset(a) - multiset{a[0]};
    assert multiset(b[1..]) == multiset(b) - multiset{b[0]};
  }

  lemma OrderedTail<T(!new)>(less: (T, T) -> bool, s: seq<T>)
    requires Ordered(less, s) && s != []
    ensures Ordered(less, s[1..])
  {
  }

  lemma TotalIsWeak<T(!new)>(less: (T, T) -> bool)
    requires StrictTotal(less)
    ensures StrictWeak(less)
  {
  }

  /** Sorting distinct elements by a total order lists their set: neither the order in which they
      were collected nor the sorting algorithm shows in the result. */
  lemma SortDistinct<T(!new)>(less: (T, T) -> bool, s: seq<T>)
    requires StrictTotal(less) && Distinct(s)
    ensures Sort(less, s) == Listing(less, Elems(s))
  {
    var r := Sort(less, s);
    TotalIsWeak(less);
    SortOrdered(less, s);
    SortPermutes(less, s);
    PermutationElems(r, s);
    PermutationDistinct(s, r);
    forall i, j | 0 <= i < j < |r| ensures less(r[i], r[j]) {
      assert r[i] != r[j] && !less(r[j], r[i]);
    }
    ListingSpec(less, Elems(s));
    IncreasingUnique(less, r, Listing(less, Elems(s)));
  }

  lemma {:induction false} PermutationDistinct<T>(a: seq<T>, b: seq<T>)
    requires multiset(a) == multiset(b) && Distinct(a)
    ensures Distinct(b)
  {
    forall i, j | 0 <= i < j < |b| ensures b[i] != b[j] {
      if b[i] == b[j] {
        TwiceCounts(b, i, j);
        DistinctCountsOnce(a, b[i]);
        assert false;
      }
    }
  }

  lemma TwiceCounts<T>(s: seq<T>, i: nat, j: nat)
    requires i < j < |s| && s[i] == s[j]
    ensures multiset(s)[s[i]] >= 2
  {
    assert s == s[..i] + [s[i]] + s[i + 1..j] + [s[j]] + s[j + 1..];
  }

  lemma {:induction false} DistinctCountsOnce<T>(s: seq<T>, x: T)
    requires Distinct(s)
    ensures multiset(s)[x] <= 1
  {
    if s != [] {
      assert s == [s[0]] + s[1..];
      DistinctCountsOnce(s[1..], x);
      assert s[0] !in s[1..];
      assert multiset(s[1..])[s[0]] == 0;
    }
  }

  /** Collect the elements of a set in whatever order a Go map range yields them, then sort. */
  method SortedElements<T(!new, ==)>(less: (T, T) -> bool, xs: set<T>) returns (out: seq<T>)
    requires StrictTotal(less)
    ensures out == Listing(less, xs)
  {
    var rest := xs;
    out := [];
    while rest != {}
      invariant rest <= xs && Elems(out) == xs - rest && Distinct(out)
      decreases rest
    {
      var x :| x in rest;
      assert x !in Elems(out);
      ElemsConcat(out, [x]);
      rest := rest - {x};
      out := out + [x];
    }
    assert Elems(out) == xs;
    SortDistinct(less, out);
    out := Sort(less, out);
  }
}
