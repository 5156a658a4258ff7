/**
 The parts of Go's `strings` package that the tools rely on, over sequences of characters.
 */
module Text {
  import opened Orders

  datatype Option<+T> = None | Some(value: T)

  // ----- string order -----

  /** Go's `<` on strings.  Comparing code points agrees with comparing UTF-8 bytes. */
  predicate Less(a: string, b: string)
  {
    if b == [] then false
    else if a == [] then true
    else if a[0] != b[0] then a[0] < b[0]
    else Less(a[1..], b[1..])
  }

  lemma {:induction false} LessIrreflexive(a: string)
    ensures !Less(a, a)
  {
    if a != [] {
      LessIrreflexive(a[1..]);
    }
  }

  lemma {:induction false} LessTransitive(a: string, b: string, c: string)
    requires Less(a, b) && Less(b, c)
    ensures Less(a, c)
  {
    if a != [] && a[0] == b[0] && b[0] == c[0] {
      LessTransitive(a[1..], b[1..], c[1..]);
    }
  }

  lemma {:induction false} LessConnected(a: string, b: string)
    ensures a == b || Less(a, b) || Less(b, a)
  {
    if a != [] && b != [] && a[0] == b[0] {
      LessConnected(a[1..], b[1..]);
      assert a == [a[0]] + a[1..] && b == [b[0]] + b[1..];
    }
  }

  lemma LessIsStrictTotal()
    ensures StrictTotal(Less)
  {
    forall x ensures !Less(x, x) { LessIrreflexive(x); }
    forall x, y, z | Less(x, y) && Less(y, z) ensures Less(x, z) { LessTransitive(x, y, z); }
    forall x, y ensures x == y || Less(x, y) || Less(y, x) { LessConnected(x, y); }
  }

  // ----- prefixes and suffixes -----

  predicate HasPrefix(s: string, prefix: string) {
    prefix <= s
  }

  predicate HasSuffix(s: string, suffix: string) {
    |suffix| <= |s| && s[|s| - |suffix|..] == suffix
  }

  function TrimSuffix(s: string, suffix: string): (r: string)
    ensures r == s || r + suffix == s
  {
    if HasSuffix(s, suffix) then s[..|s| - |suffix|] else s
  }

  lemma TrimAppended(s: string, suffix: string)
    ensures HasSuffix(s + suffix, suffix)
    ensures TrimSuffix(s + suffix, suffix) == s
  {
    assert (s + suffix)[|s|..] == suffix;
  }

  lemma SuffixOfSuffix(name: string, long: string, short: string)
    requires HasSuffix(name, long) && HasSuffix(long, short)
    ensures HasSuffix(name, short)
  {
    assert name[|name| - |short|..] == name[|name| - |long|..][|long| - |short|..];
  }

  /** Two endings of one text that differ in their last character exclude each other. */
  lemma SuffixesDiffer(name: string, a: string, b: string)
    requires a != "" && b != "" && a[|a| - 1] != b[|b| - 1] && HasSuffix(name, a)
    ensures !HasSuffix(name, b)
  {
    assert name[|name| - 1] == name[|name| - |a|..][|a| - 1];
  }

  // ----- white space -----

  predicate IsSpace(c: char) {
    c in {'\t', '\n', '\U{B}', '\U{C}', '\r', ' ', '\U{85}', '\U{A0}', '\U{1680}', '\U{2028}', '\U{2029}', '\U{202F}',
        '\U{205F}', '\U{3000}'}
    || '\U{2000}' <= c <= '\U{200A}'
  }

  function TrimLeft(s: string): (r: string)
    ensures |r| <= |s| && r == s[|s| - |r|..]
    ensures r != [] ==> !IsSpace(r[0])
  {
    if s != [] && IsSpace(s[0]) then TrimLeft(s[1..]) else s
  }

  function TrimRight(s: string): (r: string)
    ensures r <= s
    ensures r != [] ==> !IsSpace(r[|r| - 1])
    ensures s != [] && !IsSpace(s[|s| - 1]) ==> r == s
    ensures s != [] && r != [] ==> r[0] == s[0]
  {
    if s != [] && IsSpace(s[|s| - 1]) then TrimRight(s[..|s| - 1]) else s
  }

  function TrimSpace(s: string): (r: string)
    ensures |r| <= |s|
    ensures r != [] ==> !IsSpace(r[0]) && !IsSpace(r[|r| - 1])
    ensures s != [] && !IsSpace(s[0]) && !IsSpace(s[|s| - 1]) ==> r == s
  {
    TrimRight(TrimLeft(s))
  }

  predicate Blank(s: string) {
    TrimSpace(s) == ""
  }

  lemma BlankEmpty()
    ensures Blank("")
  {
  }

  lemma DotIsNotSpace()
    ensures !IsSpace('.')
  {
  }

  lemma TrimSpaceIdempotent(s: string)
    ensures TrimSpace(TrimSpace(s)) == TrimSpace(s)
  {
  }

  // ----- occurrences -----

  predicate OccursAt(s: string, k: nat, p: string) {
    k + |p| <= |s| && s[k..k + |p|] == p
  }

  predicate Contains(s: string, p: string) {
    exists k: nat :: k <= |s| && OccursAt(s, k, p)
  }

  lemma OccursStart(s: string, p: string)
    ensures OccursAt(s, 0, p) <==> p <= s
  {
    if |p| <= |s| {
      assert s[0..|p|] == s[..|p|];
    }
  }

  lemma OccursFits(s: string, k: nat, p: string)
    ensures OccursAt(s, k, p) ==> k + |p| <= |s|
  {
  }

  lemma OccursChar(s: string, k: nat, p: string, m: nat)
    requires OccursAt(s, k, p) && m < |p|
    ensures s[k + m] == p[m]
  {
    assert s[k..k + |p|][m] == p[m];
  }

  lemma OccursChars(s: string, k: nat, p: string)
    requires k + |p| <= |s| && forall m :: 0 <= m < |p| ==> s[k + m] == p[m]
    ensures OccursAt(s, k, p)
  {
  }

  lemma OccursShift(x: string, s: string, k: nat, p: string)
    ensures OccursAt(x + s, k + |x|, p) <==> OccursAt(s, k, p)
  {
    if k + |p| <= |s| {
      assert (x + s)[k + |x|..k + |x| + |p|] == s[k..k + |p|];
    }
  }

  lemma ContainsAt(s: string, p: string, k: nat)
    requires OccursAt(s, k, p)
    ensures Contains(s, p)
  {
  }

  lemma ContainsLater(s: string, n: nat, p: string)
    requires n <= |s| && Contains(s[n..], p)
    ensures Contains(s, p)
  {
    var k: nat :| OccursAt(s[n..], k, p);
    assert s == s[..n] + s[n..];
    OccursShift(s[..n], s[n..], k, p);
    assert OccursAt(s, k + n, p);
  }

  // ----- splitting and joining -----

  function Split(s: string, sep: char): (parts: seq<string>)
    ensures |parts| >= 1
  {
    if s == [] then [[]]
    else
      var rest := Split(s[1..], sep);
      if s[0] == sep then [[]] + rest
      else [[s[0]] + rest[0]] + rest[1..]
  }

  function Join(parts: seq<string>, sep: char): string
  {
    if parts == [] then []
    else if |parts| == 1 then parts[0]
    else parts[0] + [sep] + Join(parts[1..], sep)
  }

  lemma {:induction false} SplitPartsFree(s: string, sep: char)
    ensures forall p :: p in Split(s, sep) ==> sep !in p
  {
    if s != [] {
      var rest := Split(s[1..], sep);
      SplitPartsFree(s[1..], sep);
      assert rest[0] in rest;
      assert forall p :: p in rest[1..] ==> p in rest;
    }
  }

  lemma {:induction false} JoinSplit(s: string, sep: char)
    ensures Join(Split(s, sep), sep) == s
  {
    if s != [] {
      var rest := Split(s[1..], sep);
      JoinSplit(s[1..], sep);
      if s[0] == sep {
        assert ([[]] + rest)[1..] == rest;
      } else {
        var parts := [[s[0]] + rest[0]] + rest[1..];
        assert parts[1..] == rest[1..];
        assert Join(parts, sep) == [s[0]] + Join(rest, sep);
      }
    }
  }

  lemma SplitParts(s: string, sep: char)
    ensures forall p :: p in Split(s, sep) ==> sep !in p
    ensures Join(Split(s, sep), sep) == s
  {
    SplitPartsFree(s, sep);
    JoinSplit(s, sep);
  }

  /** Splitting undoes joining exactly when no part holds the separator. */
  lemma {:induction false} SplitJoin(parts: seq<string>, sep: char)
    requires parts != []
    ensures Split(Join(parts, sep), sep) == parts <==> forall p :: p in parts ==> sep !in p
  {
    if Split(Join(parts, sep), sep) == parts {
      SplitParts(Join(parts, sep), sep);
    }
    if forall p :: p in parts ==> sep !in p {
      SplitJoined(parts, sep);
    }
  }

  lemma {:induction false} SplitJoined(parts: seq<string>, sep: char)
    requires parts != [] && forall p :: p in parts ==> sep !in p
    ensures Split(Join(parts, sep), sep) == parts
  {
    assert sep !in parts[0];
    if |parts| == 1 {
      SplitFree(parts[0], sep);
    } else {
      var tail := Join(parts[1..], sep);
      assert parts[0] + [sep] + tail == parts[0] + ([sep] + tail);
      SplitJoined(parts[1..], sep);
      SplitAppend(parts[0], tail, sep);
    }
  }

  lemma {:induction false} SplitFree(s: string, sep: char)
    requires sep !in s
    ensures Split(s, sep) == [s]
  {
    if s != [] {
      SplitFree(s[1..], sep);
      assert s == [s[0]] + s[1..];
    }
  }

  lemma {:induction false} SplitAppend(a: string, tail: string, sep: char)
    requires sep !in a
    ensures Split(a + ([sep] + tail), sep) == [a] + Split(tail, sep)
  {
    var s := a + ([sep] + tail);
    if a == [] {
      assert s == [sep] + tail && s[1..] == tail;
    } else {
      assert s[1..] == a[1..] + ([sep] + tail);
      SplitAppend(a[1..], tail, sep);
      assert Split(s[1..], sep)[1..] == Split(tail, sep);
      assert [a[0]] + a[1..] == a;
    }
  }

  lemma SplitTwo(a: string, b: string, sep: char)
    requires sep !in a && sep !in b
    ensures Split(a + [sep] + b, sep) == [a, b]
  {
    SplitAppend(a, b, sep);
    SplitFree(b, sep);
    assert a + [sep] + b == a + ([sep] + b);
  }

  lemma JoinTwo(a: string, b: string, sep: char)
    ensures Join([a, b], sep) == a + [sep] + b
  {
    assert [a, b][1..] == [b];
  }

  /** Qualified names built from a dot-free first half determine both halves. */
  lemma QualifiedInjective(a: string, b: string, c: string, d: string, sep: char)
    requires sep !in a && sep !in c
    requires a + [sep] + b == c + [sep] + d
    ensures a == c && b == d
  {
    SplitAppend(a, b, sep);
    SplitAppend(c, d, sep);
    assert a + [sep] + b == a + ([sep] + b) && c + [sep] + d == c + ([sep] + d);
    assert ([a] + Split(b, sep))[0] == a && ([c] + Split(d, sep))[0] == c;
    assert b == (a + [sep] + b)[|a| + 1..] && d == (c + [sep] + d)[|a| + 1..];
  }
}
