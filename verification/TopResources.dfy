/**
 The mutability gate's list of the three highest-scoring resources.
 */
module TopResources {
  import opened Orders
  import opened Text

  /** A resource summary; `counts` stands for what a score may be computed from. */
  datatype Resource = Resource(service: string, kind: string, slug: string, counts: seq<int>)

  datatype Scored = Scored(resource: Resource, score: int)

  /** One printed line. */
  datatype Row = Row(service: string, kind: string, slug: string, score: int)

  const LIMIT := 3

  function RowOf(s: Scored): Row
  {
    Row(s.resource.service, s.resource.kind, s.resource.slug, s.score)
  }

  function RowsOf(s: seq<Scored>): (rows: seq<Row>)
    ensures |rows| == |s| && forall i :: 0 <= i < |s| ==> rows[i] == RowOf(s[i])
  {
    seq(|s|, i requires 0 <= i < |s| => RowOf(s[i]))
  }

  predicate RowLess(a: Row, b: Row) {
    if a.score != b.score then a.score > b.score
    else if a.service != b.service then Less(a.service, b.service)
    else if a.kind != b.kind then Less(a.kind, b.kind)
    else Less(a.slug, b.slug)
  }

  /** The comparator looks at exactly what is printed. */
  predicate Ranks(a: Scored, b: Scored) {
    RowLess(RowOf(a), RowOf(b))
  }

  lemma RowLessIsStrictTotal()
    ensures StrictTotal(RowLess)
  {
    hide Less;
    LessIsStrictTotal();
    forall x, y, z | RowLess(x, y) && RowLess(y, z) ensures RowLess(x, z) {
      RowLessTransitive(x, y, z);
    }
  }

  lemma RowLessTransitive(x: Row, y: Row, z: Row)
    requires RowLess(x, y) && RowLess(y, z)
    ensures RowLess(x, z)
  {
    hide Less;
    LessIsStrictTotal();
  }

  /** Equal scores are told apart by service, then by kind, then by slug, each in alphabetical order. */
  lemma TiesBySlot(score: int, services: (string, string), kinds: (string, string), slugs: (string, string))
    ensures Less(services.0, services.1) ==>
              RowLess(Row(services.0, kinds.0, slugs.0, score), Row(services.1, kinds.1, slugs.1, score))
    ensures Less(kinds.0, kinds.1) ==>
              RowLess(Row(services.0, kinds.0, slugs.0, score), Row(services.0, kinds.1, slugs.1, score))
    ensures Less(slugs.0, slugs.1) ==>
              RowLess(Row(services.0, kinds.0, slugs.0, score), Row(services.0, kinds.0, slugs.1, score))
  {
    hide Less;
    LessIsStrictTotal();
  }

  /** Printed rows come by falling score, and rows of one score by service, kind and slug. */
  lemma TopRowsInOrder(rows: seq<Row>, candidates: multiset<Row>, i: nat, j: nat)
    requires IsTop(rows, candidates) && i < j < |rows|
    ensures rows[i].score >= rows[j].score
    ensures rows[i].score == rows[j].score ==> !Less(rows[j].service, rows[i].service)
    ensures rows[i].score == rows[j].score && rows[i].service == rows[j].service ==> !Less(rows[j].kind, rows[i].kind)
    ensures rows[i].score == rows[j].score && rows[i].service == rows[j].service && rows[i].kind == rows[j].kind ==>
              !Less(rows[j].slug, rows[i].slug)
  {
    hide Less, IsTop, RowLess;
    TopIsBest(rows, candidates);
    var a, b := rows[i], rows[j];
    assert !RowLess(b, a);
    if a.score < b.score {
      HigherFirst(b, a);
    }
    TiesBySlot(a.score, (b.service, a.service), (b.kind, a.kind), (b.slug, a.slug));
  }

  lemma HigherFirst(a: Row, b: Row)
    requires a.score > b.score
    ensures RowLess(a, b)
  {
  }

  function Positive(resources: seq<Resource>, score: Resource -> int): seq<Scored>
  {
    if resources == [] then []
    else
      var r := resources[|resources| - 1];
      Positive(resources[..|resources| - 1], score) + (if score(r) > 0 then [Scored(r, score(r))] else [])
  }

  /** The union of what each element contributes. */
  function Gather<T, U>(s: seq<T>, f: T -> multiset<U>): multiset<U>
  {
    if s == [] then multiset{} else Gather(s[..|s| - 1], f) + f(s[|s| - 1])
  }

  /** The rows that may be printed, each as often as it may be printed. */
  function Candidates(resources: seq<Resource>, score: Resource -> int): multiset<Row>
  {
    Gather(resources, (r: Resource) => if score(r) > 0 then multiset{RowOf(Scored(r, score(r)))} else multiset{})
  }

  /** The first three, or all, of the candidates in order. */
  ghost predicate IsTop(rows: seq<Row>, candidates: multiset<Row>) {
    exists s :: Ordered(RowLess, s) && multiset(s) == candidates && rows == s[..if |s| > LIMIT then LIMIT else |s|]
  }

  /** An unstable sort: some ordered permutation. */
  method SortSlice(s: seq<Scored>) returns (r: seq<Scored>)
    ensures Ordered(Ranks, r) && multiset(r) == multiset(s)
  {
    hide RowLess;
    r := Sort(Ranks, s);
    assert StrictWeak(Ranks) by { RanksWeak(); }
    SortOrdered(Ranks, s);
    SortPermutes(Ranks, s);
  }

  lemma RanksWeak()
    ensures StrictWeak(Ranks)
  {
    hide RowLess;
    RowLessIsStrictTotal();
    TotalIsWeak(RowLess);
  }

  /** `appendTopResourceSection`: filter, sort, cut.  No row at all stands for the line "none". */
  method AppendTopResourceSection(resources: seq<Resource>, score: Resource -> int) returns (rows: seq<Row>)
    ensures IsTop(rows, Candidates(resources, score))
  {
    hide RowLess;
    var scored := [];
    for i := 0 to |resources|
      invariant scored == Positive(resources[..i], score)
    {
      var value := score(resources[i]);
      assert resources[..i + 1][..i] == resources[..i];
      if value > 0 {
        scored := scored + [Scored(resources[i], value)];
      }
    }
    assert resources[..|resources|] == resources;
    var sorted := SortSlice(scored);
    var limit := |sorted|;
    if limit > LIMIT {
      limit := LIMIT;
    }
    RowsPermute(sorted, scored);
    PositiveCandidates(resources, score);
    var all := RowsOf(sorted);
    assert Ordered(RowLess, all);
    rows := all[..limit];
  }

  lemma TakeOut<T>(s: seq<T>, i: nat)
    requires i < |s|
    ensures multiset(s) == multiset(s[..i] + s[i + 1..]) + multiset{s[i]}
  {
    assert s == s[..i] + [s[i]] + s[i + 1..];
  }

  /** Taking the same element out of two permutations. */
  lemma TakeOutBoth<T>(a: seq<T>, i: nat, b: seq<T>, j: nat)
    requires i < |a| && j < |b| && a[i] == b[j] && multiset(a) == multiset(b)
    ensures multiset(a[..i] + a[i + 1..]) == multiset(b[..j] + b[j + 1..])
  {
    TakeOut(a, i);
    TakeOut(b, j);
    var x, y := multiset(a[..i] + a[i + 1..]), multiset(b[..j] + b[j + 1..]);
    assert x == x + multiset{a[i]} - multiset{a[i]};
    assert y == y + multiset{a[i]} - multiset{a[i]};
  }

  lemma {:induction false} GatherRemove<T, U>(s: seq<T>, i: nat, f: T -> multiset<U>)
    requires i < |s|
    ensures Gather(s, f) == Gather(s[..i] + s[i + 1..], f) + f(s[i])
  {
    var n := |s| - 1;
    var rest := s[..i] + s[i + 1..];
    if i == n {
      assert rest == s[..n];
    } else {
      GatherRemove(s[..n], i, f);
      assert rest[..|rest| - 1] == s[..n][..i] + s[..n][i + 1..];
      assert rest[|rest| - 1] == s[n];
    }
  }

  lemma {:induction false} GatherPermutes<T, U>(a: seq<T>, b: seq<T>, f: T -> multiset<U>)
    requires multiset(a) == multiset(b)
    ensures Gather(a, f) == Gather(b, f)
    decreases |a|
  {
    PermutationElems(a, b);
    if a != [] {
      var n := |a| - 1;
      assert a[n] in b;
      var i :| 0 <= i < |b| && b[i] == a[n];
      TakeOutBoth(a, n, b, i);
      assert a[..n] + a[n + 1..] == a[..n];
      GatherPermutes(a[..n], b[..i] + b[i + 1..], f);
      GatherRemove(b, i, f);
    }
  }

  lemma {:induction false} RowsGather(s: seq<Scored>)
    ensures multiset(RowsOf(s)) == Gather(s, (x: Scored) => multiset{RowOf(x)})
  {
    if s != [] {
      var n := |s| - 1;
      RowsGather(s[..n]);
      assert RowsOf(s) == RowsOf(s[..n]) + [RowOf(s[n])];
    }
  }

  lemma RowsPermute(a: seq<Scored>, b: seq<Scored>)
    requires multiset(a) == multiset(b)
    ensures multiset(RowsOf(a)) == multiset(RowsOf(b))
  {
    hide Gather, RowsOf;
    RowsGather(a);
    RowsGather(b);
    GatherPermutes(a, b, (x: Scored) => multiset{RowOf(x)});
  }

  lemma {:induction false} PositiveCandidates(resources: seq<Resource>, score: Resource -> int)
    ensures multiset(RowsOf(Positive(resources, score))) == Candidates(resources, score)
  {
    if resources != [] {
      var n := |resources| - 1;
      var r, rest := resources[n], Positive(resources[..n], score);
      PositiveCandidates(resources[..n], score);
      if score(r) > 0 {
        assert RowsOf(rest + [Scored(r, score(r))]) == RowsOf(rest) + [RowOf(Scored(r, score(r)))];
      } else {
        assert rest + [] == rest;
      }
    }
  }

  lemma {:induction false} OrderedUnique<T(!new)>(less: (T, T) -> bool, a: seq<T>, b: seq<T>)
    requires StrictTotal(less) && Ordered(less, a) && Ordered(less, b) && multiset(a) == multiset(b)
    ensures a == b
  {
    PermutationElems(a, b);
    if a != [] {
      assert a[0] == b[0] by {
        assert a[0] in b && b[0] in a;
        assert !less(a[0], b[0]) && !less(b[0], a[0]);
      }
      TailPermutes(a, b);
      OrderedUnique(less, a[1..], b[1..]);
      assert a == [a[0]] + a[1..] && b == [b[0]] + b[1..];
    }
  }

  /** The result is determined by the candidates alone. */
  lemma TopUnique(r1: seq<Row>, r2: seq<Row>, candidates: multiset<Row>)
    requires IsTop(r1, candidates) && IsTop(r2, candidates)
    ensures r1 == r2
  {
    hide RowLess;
    var s1 :| Ordered(RowLess, s1) && multiset(s1) == candidates && r1 == s1[..if |s1| > LIMIT then LIMIT else |s1|];
    var s2 :| Ordered(RowLess, s2) && multiset(s2) == candidates && r2 == s2[..if |s2| > LIMIT then LIMIT else |s2|];
    RowLessIsStrictTotal();
    OrderedUnique(RowLess, s1, s2);
  }

  /** The printed rows do not depend on the order of the resources, nor on how the sort breaks ties. */
  lemma InputOrderIrrelevant(a: seq<Resource>, b: seq<Resource>, score: Resource -> int, r1: seq<Row>, r2: seq<Row>)
    requires multiset(a) == multiset(b)
    requires IsTop(r1, Candidates(a, score)) && IsTop(r2, Candidates(b, score))
    ensures r1 == r2
  {
    hide IsTop, Gather;
    GatherPermutes(a, b, (r: Resource) => if score(r) > 0 then multiset{RowOf(Scored(r, score(r)))} else multiset{});
    TopUnique(r1, r2, Candidates(a, score));
  }

  lemma {:induction false} PositiveSpec(resources: seq<Resource>, score: Resource -> int, x: Scored)
    ensures x in Positive(resources, score) <==> x.resource in resources && x.score == score(x.resource) > 0
  {
    if resources != [] {
      var n := |resources| - 1;
      PositiveSpec(resources[..n], score, x);
      assert resources == resources[..n] + [resources[n]];
    }
  }

  lemma OrderedPrefix(s: seq<Row>, k: nat)
    requires Ordered(RowLess, s) && k <= |s|
    ensures Ordered(RowLess, s[..k])
  {
    hide RowLess;
  }

  lemma CutOrdered(s: seq<Row>, k: nat, x: Row, y: Row)
    requires Ordered(RowLess, s) && k <= |s| && x in s[k..] && y in s[..k]
    ensures !RowLess(x, y) && x.score <= y.score
  {
    hide Less;
    var j :| 0 <= j < |s[k..]| && s[k..][j] == x;
    var i :| 0 <= i < k && s[..k][i] == y;
    assert s[k + j] == x && s[i] == y;
  }

  /** At most three rows, in order, all of them candidates, and nothing left out ranks above a printed row. */
  lemma TopIsBest(rows: seq<Row>, candidates: multiset<Row>)
    requires IsTop(rows, candidates)
    ensures |rows| == (if |candidates| > 3 then 3 else |candidates|) && Ordered(RowLess, rows)
    ensures multiset(rows) <= candidates
    ensures forall x, y :: x in candidates - multiset(rows) && y in rows ==> !RowLess(x, y) && x.score <= y.score
  {
    hide RowLess, Ordered;
    var s :| Ordered(RowLess, s) && multiset(s) == candidates && rows == s[..if |s| > LIMIT then LIMIT else |s|];
    var k := |rows|;
    OrderedPrefix(s, k);
    assert s == s[..k] + s[k..];
    assert multiset(s) == multiset(rows) + multiset(s[k..]);
    assert |multiset(s)| == |s|;
    forall x, y | x in candidates - multiset(rows) && y in rows ensures !RowLess(x, y) && x.score <= y.score {
      assert x in multiset(s[k..]);
      CutOrdered(s, k, x, y);
    }
  }

  /** In the source's terms: a resource with a positive score that is not printed outscores no printed row. */
  lemma OmittedScoreNoHigher(resources: seq<Resource>, score: Resource -> int, rows: seq<Row>, r: Resource, row: Row)
    requires IsTop(rows, Candidates(resources, score)) && r in resources && row in rows
    requires RowOf(Scored(r, score(r))) !in rows
    ensures score(r) <= row.score && row.score > 0
    ensures exists q :: q in resources && RowOf(Scored(q, score(q))) == row
  {
    hide IsTop, Less, Positive, RowLess, Candidates;
    var candidates := Candidates(resources, score);
    var scored := Positive(resources, score);
    TopIsBest(rows, candidates);
    PositiveCandidates(resources, score);
    assert row in multiset(rows);
    assert row in RowsOf(scored);
    var i :| 0 <= i < |scored| && RowsOf(scored)[i] == row;
    PositiveSpec(resources, score, scored[i]);
    assert scored[i] == Scored(scored[i].resource, score(scored[i].resource));
    var x := Scored(r, score(r));
    PositiveSpec(resources, score, x);
    if score(r) > 0 {
      assert x in scored;
      var j :| 0 <= j < |scored| && scored[j] == x;
      assert RowsOf(scored)[j] == RowOf(x);
      assert RowOf(x) in candidates - multiset(rows);
    }
  }

  /** Where a row comes from: the resources with a positive score that print as it. */
  function Sources(resources: seq<Resource>, score: Resource -> int, row: Row): (places: set<nat>)
  {
    set i: nat | i < |resources| && score(resources[i]) > 0
                 && row == Row(resources[i].service, resources[i].kind, resources[i].slug, score(resources[i]))
  }

  /** A row may be printed once for each resource with a positive score that prints as it. */
  lemma {:induction false} CandidatesCount(resources: seq<Resource>, score: Resource -> int, row: Row)
    ensures Candidates(resources, score)[row] == |Sources(resources, score, row)|
  {
    if resources == [] {
      assert Sources(resources, score, row) == {};
    } else {
      var n := |resources| - 1;
      var r := resources[n];
      CandidatesCount(resources[..n], score, row);
      var before := Sources(resources[..n], score, row);
      var here := if score(r) > 0 && row == Row(r.service, r.kind, r.slug, score(r)) then {n} else {};
      assert Sources(resources, score, row) == before + here;
      assert before !! here;
    }
  }

  /** With fewer than three rows printed, none of the resources with a positive score is left out. */
  lemma FewRowsAreAll(resources: seq<Resource>, score: Resource -> int, rows: seq<Row>, r: Resource)
    requires IsTop(rows, Candidates(resources, score)) && |rows| < 3
    requires r in resources && score(r) > 0
    ensures Row(r.service, r.kind, r.slug, score(r)) in rows
  {
    hide IsTop, RowLess, Candidates, Ordered;
    var row := Row(r.service, r.kind, r.slug, score(r));
    var candidates := Candidates(resources, score);
    TopIsBest(rows, candidates);
    CandidatesCount(resources, score, row);
    var i: nat :| i < |resources| && resources[i] == r;
    assert i in Sources(resources, score, row);
    assert |multiset(rows)| == |rows| == |candidates|;
    SameSize(multiset(rows), candidates);
  }

  lemma SameSize<T>(a: multiset<T>, b: multiset<T>)
    requires a <= b && |a| == |b|
    ensures a == b
  {
    assert b == a + (b - a);
  }
}
