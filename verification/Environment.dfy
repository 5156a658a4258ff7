/**
 The environment of commands run in a snapshot: a list of `key=value` strings edited as if it were a map,
 and the comma-separated list of settings in GODEBUG.
 */
module Environment {
  import opened Text

  // ----- entries -----

  function Entry(key: string, value: string): string
  {
    key + "=" + value
  }

  predicate Sets(entry: string, key: string) {
    HasPrefix(entry, key + "=")
  }

  /** How many entries set `key`. */
  function Count(env: seq<string>, key: string): nat
  {
    if env == [] then 0 else (if Sets(env[0], key) then 1 else 0) + Count(env[1..], key)
  }

  /** The value that a started command sees: the last entry wins. */
  function Effective(env: seq<string>, key: string): Option<string>
  {
    if env == [] then None
    else
      match Effective(env[1..], key)
      case Some(v) => Some(v)
      case None => if Sets(env[0], key) then Some(env[0][|key| + 1..]) else None
  }

  function Getenv(env: seq<string>, key: string): string
  {
    match Effective(env, key)
    case Some(v) => v
    case None => ""
  }

  // ----- setting one key -----

  function SetEnv(env: seq<string>, key: string, value: string): (r: seq<string>)
  {
    if env == [] then [Entry(key, value)]
    else if Sets(env[0], key) then [Entry(key, value)] + env[1..]
    else [env[0]] + SetEnv(env[1..], key, value)
  }

  /** `setEnv`: overwrite the first entry for the key, or append one. */
  method SetEnvironment(env: seq<string>, key: string, value: string) returns (r: seq<string>)
    ensures r == SetEnv(env, key, value)
  {
    hide Sets, Entry;
    for i := 0 to |env|
      invariant SetEnv(env, key, value) == env[..i] + SetEnv(env[i..], key, value)
    {
      assert env[i..][1..] == env[i + 1..];
      if Sets(env[i], key) {
        r := env[i := Entry(key, value)];
        assert r == env[..i] + ([Entry(key, value)] + env[i + 1..]);
        return;
      }
      assert env[..i] + ([env[i]] + SetEnv(env[i + 1..], key, value)) == env[..i + 1]
             + SetEnv(env[i + 1..], key, value);
    }
    assert env[..|env|] == env;
    r := env + [Entry(key, value)];
  }

  lemma OtherEntry(key: string, value: string, other: string)
    requires '=' !in key && '=' !in other
    ensures Sets(Entry(key, value), other) <==> key == other
    ensures Entry(key, value)[|key| + 1..] == value
  {
    var e := Entry(key, value);
    if Sets(e, other) {
      assert e == other + ['='] + e[|other| + 1..];
      assert e == key + ['='] + value;
      QualifiedInjective(key, value, other, e[|other| + 1..], '=');
    }
  }

  /** Keys other than the one that is set keep their value and their number of entries. */
  lemma {:induction false} SetEnvOthers(env: seq<string>, key: string, value: string, other: string)
    requires '=' !in key && '=' !in other && key != other
    ensures Effective(SetEnv(env, key, value), other) == Effective(env, other)
    ensures Count(SetEnv(env, key, value), other) == Count(env, other)
  {
    hide Sets, Entry;
    OtherEntry(key, value, other);
    var e := Entry(key, value);
    if env == [] {
      assert [e][1..] == [];
    } else if Sets(env[0], key) {
      assert ([e] + env[1..])[1..] == env[1..];
      assert !Sets(env[0], other) by { NotBoth(env[0], key, other); }
    } else {
      SetEnvOthers(env[1..], key, value, other);
      assert ([env[0]] + SetEnv(env[1..], key, value))[1..] == SetEnv(env[1..], key, value);
    }
  }

  lemma NotBoth(entry: string, key: string, other: string)
    requires '=' !in key && '=' !in other && key != other && Sets(entry, key)
    ensures !Sets(entry, other)
  {
    assert entry == Entry(key, entry[|key| + 1..]);
    OtherEntry(key, entry[|key| + 1..], other);
  }

  lemma {:induction false} EffectiveCount(env: seq<string>, key: string)
    ensures Effective(env, key).None? <==> Count(env, key) == 0
  {
    if env != [] {
      EffectiveCount(env[1..], key);
    }
  }

  /** The key that is set takes effect exactly when it had at most one entry, or already had this value. */
  lemma {:induction false} SetEnvEffective(env: seq<string>, key: string, value: string)
    requires '=' !in key
    ensures Effective(SetEnv(env, key, value), key) == Some(value) <==>
            Count(env, key) <= 1 || Effective(env, key) == Some(value)
    ensures Count(SetEnv(env, key, value), key) == if Count(env, key) == 0 then 1 else Count(env, key)
  {
    hide Sets, Entry;
    OtherEntry(key, value, key);
    var e := Entry(key, value);
    if env == [] {
      assert [e][1..] == [];
    } else {
      EffectiveCount(env[1..], key);
      if Sets(env[0], key) {
        assert ([e] + env[1..])[1..] == env[1..];
      } else {
        SetEnvEffective(env[1..], key, value);
        EffectiveCount(SetEnv(env[1..], key, value), key);
        assert ([env[0]] + SetEnv(env[1..], key, value))[1..] == SetEnv(env[1..], key, value);
      }
    }
  }

  /** Setting a key to the value it has changes nothing. */
  lemma {:induction false} SetEnvSame(env: seq<string>, key: string, value: string)
    requires Count(env, key) == 1 && Effective(env, key) == Some(value)
    ensures SetEnv(env, key, value) == env
  {
    EffectiveCount(env[1..], key);
    assert env == [env[0]] + env[1..];
    if Sets(env[0], key) {
      assert env[0] == Entry(key, env[0][|key| + 1..]);
    } else {
      SetEnvSame(env[1..], key, value);
    }
  }

  // ----- a list of settings -----

  /** The non-blank parts, trimmed. */
  function Cleaned(parts: seq<string>): seq<string>
  {
    if parts == [] then []
    else if Blank(parts[0]) then Cleaned(parts[1..])
    else [TrimSpace(parts[0])] + Cleaned(parts[1..])
  }

  function Settings(s: string): seq<string>
  {
    Cleaned(Split(s, ','))
  }

  function Without(settings: seq<string>, name: string): seq<string>
  {
    if settings == [] then []
    else if Sets(settings[0], name) then Without(settings[1..], name)
    else [settings[0]] + Without(settings[1..], name)
  }

  function Added(name: string, value: string): seq<string>
  {
    if value == "" then [] else [Entry(name, value)]
  }

  function WithSetting(current: string, name: string, value: string): string
  {
    var n := TrimSpace(name);
    if n == "" then TrimSpace(current)
    else Join(Without(Settings(TrimSpace(current)), n) + Added(n, TrimSpace(value)), ',')
  }

  /** `withGoDebugSetting`: drop the blank parts and the old setting, append the new one. */
  method WithGoDebugSetting(current: string, name: string, value: string) returns (r: string)
    ensures r == WithSetting(current, name, value)
  {
    hide TrimSpace, Split, Join, Sets, Blank;
    var c, n, v := TrimSpace(current), TrimSpace(name), TrimSpace(value);
    if n == "" {
      return c;
    }
    var parts := Split(c, ',');
    var kept := [];
    for i := 0 to |parts|
      invariant kept + Without(Cleaned(parts[i..]), n) == Without(Settings(c), n)
    {
      hide Settings;
      assert parts[i..][1..] == parts[i + 1..];
      var part := TrimSpace(parts[i]);
      CleanedHead(parts[i..], n);
      if !(part == "" || Sets(part, n)) {
        kept := kept + [part];
      }
    }
    assert parts[|parts|..] == [];
    assert kept == Without(Settings(c), n);
    if v != "" {
      kept := kept + [Entry(n, v)];
    }
    assert kept == Without(Settings(c), n) + Added(n, v);
    r := Join(kept, ',');
  }

  lemma CleanedHead(parts: seq<string>, name: string)
    requires parts != []
    ensures var p := TrimSpace(parts[0]);
            Without(Cleaned(parts), name) ==
            (if p == "" || Sets(p, name) then [] else [p]) + Without(Cleaned(parts[1..]), name)
  {
    hide TrimSpace, Sets;
    var p := TrimSpace(parts[0]);
    assert ([p] + Cleaned(parts[1..]))[1..] == Cleaned(parts[1..]);
  }

  /** A setting stands on its own: non-blank, trimmed and without a comma. */
  predicate Clean(p: string) {
    p != "" && TrimSpace(p) == p && ',' !in p
  }

  lemma TrimKeepsOut(s: string, c: char)
    requires c !in s
    ensures c !in TrimSpace(s)
  {
    var left := TrimLeft(s);
    assert forall i :: 0 <= i < |left| ==> left[i] == s[|s| - |left| + i];
  }

  lemma {:induction false} CleanedClean(parts: seq<string>)
    requires forall p :: p in parts ==> ',' !in p
    ensures forall p :: p in Cleaned(parts) ==> Clean(p)
  {
    hide TrimSpace;
    if parts != [] {
      CleanedClean(parts[1..]);
      TrimKeepsOut(parts[0], ',');
      TrimSpaceIdempotent(parts[0]);
    }
  }

  lemma {:induction false} WithoutSubset(settings: seq<string>, name: string)
    ensures forall p :: p in Without(settings, name) <==> p in settings && !Sets(p, name)
  {
    hide Sets;
    if settings != [] {
      WithoutSubset(settings[1..], name);
      assert settings == [settings[0]] + settings[1..];
    }
  }

  lemma SettingsClean(s: string, name: string)
    ensures forall p :: p in Settings(s) ==> Clean(p)
    ensures forall p :: p in Without(Settings(s), name) ==> Clean(p) && !Sets(p, name)
  {
    hide Clean, Sets, Split, Cleaned, Without;
    SplitPartsFree(s, ',');
    CleanedClean(Split(s, ','));
    WithoutSubset(Settings(s), name);
  }

  lemma {:induction false} WithoutConcat(a: seq<string>, b: seq<string>, name: string)
    ensures Without(a + b, name) == Without(a, name) + Without(b, name)
  {
    if a == [] {
      assert a + b == b;
    } else {
      assert (a + b)[1..] == a[1..] + b;
      WithoutConcat(a[1..], b, name);
    }
  }

  lemma {:induction false} WithoutNothing(settings: seq<string>, name: string)
    requires forall p :: p in settings ==> !Sets(p, name)
    ensures Without(settings, name) == settings
  {
    if settings != [] {
      WithoutNothing(settings[1..], name);
      assert settings == [settings[0]] + settings[1..];
    }
  }

  lemma SplitStep(s: string, sep: char)
    requires s != []
    ensures var rest := Split(s[1..], sep);
            Split(s, sep) == if s[0] == sep then [[]] + rest else [[s[0]] + rest[0]] + rest[1..]
  {
  }

  lemma {:induction false} SplitConcat(a: string, b: string, sep: char)
    ensures Split(a + ([sep] + b), sep) == Split(a, sep) + Split(b, sep)
  {
    hide Split;
    var s := a + ([sep] + b);
    SplitStep(s, sep);
    if a == [] {
      assert s == [sep] + b && s[1..] == b;
      SplitFree(a, sep);
      assert Split(a, sep) == [[]];
    } else {
      assert s[0] == a[0] && s[1..] == a[1..] + ([sep] + b);
      SplitStep(a, sep);
      SplitConcat(a[1..], b, sep);
      var rest := Split(a[1..], sep);
      assert (rest + Split(b, sep))[1..] == rest[1..] + Split(b, sep);
    }
  }

  lemma {:induction false} CleanedConcat(a: seq<string>, b: seq<string>)
    ensures Cleaned(a + b) == Cleaned(a) + Cleaned(b)
  {
    hide Blank, TrimSpace;
    if a == [] {
      assert a + b == b;
    } else {
      assert (a + b)[1..] == a[1..] + b;
      CleanedConcat(a[1..], b);
    }
  }

  lemma SettingsConcat(a: string, b: string)
    ensures Settings(a + ([','] + b)) == Settings(a) + Settings(b)
  {
    hide Split, Cleaned;
    SplitConcat(a, b, ',');
    CleanedConcat(Split(a, ','), Split(b, ','));
  }

  lemma SettingsOfOne(p: string)
    requires Clean(p)
    ensures Settings(p) == [p]
  {
    hide Split, TrimSpace;
    SplitFree(p, ',');
    assert [p][1..] == [];
    assert Cleaned([p]) == [p];
  }

  /** Reading back joined settings; only the last part may itself hold commas. */
  lemma {:induction false} SettingsOfJoin(front: seq<string>, last: string)
    requires forall p :: p in front ==> Clean(p)
    ensures Settings(Join(front + [last], ',')) == front + Settings(last)
  {
    hide Settings, Clean;
    if front == [] {
      assert front + [last] == [last];
    } else {
      var rest := front[1..] + [last];
      assert (front + [last])[1..] == rest;
      SettingsOfJoin(front[1..], last);
      var tail := Join(rest, ',');
      assert front[0] + [','] + tail == front[0] + ([','] + tail);
      SettingsConcat(front[0], tail);
      SettingsOfOne(front[0]);
      assert [front[0]] + front[1..] == front;
    }
  }

  /** Visible at both ends. */
  predicate Edges(p: string) {
    p != "" && !IsSpace(p[0]) && !IsSpace(p[|p| - 1])
  }

  lemma TrimmedEdges(s: string)
    ensures Edges(s) ==> TrimSpace(s) == s
    ensures s != "" && TrimSpace(s) == s ==> Edges(s)
    ensures TrimSpace("") == ""
  {
    hide IsSpace;
  }

  lemma {:induction false} JoinEdges(parts: seq<string>)
    requires parts != [] && forall p :: p in parts ==> Edges(p)
    ensures Edges(Join(parts, ','))
  {
    hide IsSpace;
    assert Edges(parts[0]);
    if |parts| > 1 {
      JoinEdges(parts[1..]);
    }
  }

  lemma EntryEdges(n: string, v: string)
    requires Edges(n) && Edges(v)
    ensures Edges(Entry(n, v))
  {
    hide IsSpace;
    var e := Entry(n, v);
    assert e[0] == n[0] && e[|e| - 1] == v[|v| - 1];
  }

  lemma {:induction false} JoinLonger(front: seq<string>, last: string)
    ensures |Join(front + [last], ',')| >= |last| + |front|
  {
    if front == [] {
      assert front + [last] == [last];
    } else {
      assert (front + [last])[1..] == front[1..] + [last];
      JoinLonger(front[1..], last);
    }
  }

  lemma ResultTrimmed(current: string, name: string, value: string)
    ensures TrimSpace(WithSetting(current, name, value)) == WithSetting(current, name, value)
  {
    hide Settings, Without, TrimSpace, Edges, Entry, Join, Sets;
    var c, n, v := TrimSpace(current), TrimSpace(name), TrimSpace(value);
    TrimSpaceIdempotent(current);
    TrimSpaceIdempotent(name);
    TrimSpaceIdempotent(value);
    if n != "" {
      var others := Without(Settings(c), n);
      var parts := others + Added(n, v);
      SettingsClean(c, n);
      forall p | p in parts ensures Edges(p) {
        TrimmedEdges(p);
        TrimmedEdges(n);
        TrimmedEdges(v);
        if p !in others {
          EntryEdges(n, v);
        }
      }
      if parts != [] {
        JoinEdges(parts);
      }
      NothingJoined();
      TrimmedEdges(Join(parts, ','));
    }
  }

  lemma NothingJoined()
    ensures Join([], ',') == ""
  {
  }

  /** What a reader of the edited list sees: the other settings in order, then the new one. */
  lemma SettingsAfter(current: string, name: string, value: string)
    requires !Blank(name)
    ensures var n, v := TrimSpace(name), TrimSpace(value);
            Settings(WithSetting(current, name, value)) ==
            Without(Settings(TrimSpace(current)), n) + (if v == "" then [] else Settings(Entry(n, v)))
  {
    hide Settings, Without, TrimSpace, Clean;
    var c, n, v := TrimSpace(current), TrimSpace(name), TrimSpace(value);
    var others := Without(Settings(c), n);
    SettingsClean(c, n);
    if v != "" {
      SettingsOfJoin(others, Entry(n, v));
    } else if others == [] {
      assert others + [] == [];
      NoSettings();
    } else {
      var front, last := others[..|others| - 1], others[|others| - 1];
      assert others + [] == front + [last];
      SettingsOfJoin(front, last);
      SettingsOfOne(last);
    }
  }

  lemma NoSettings()
    ensures Settings("") == []
  {
    assert Split("", ',') == [""];
    assert [""][1..] == [];
  }

  /** With a name and a value free of commas there is exactly one entry for the name, and it is last. */
  lemma SettingIsSet(current: string, name: string, value: string)
    requires !Blank(name) && !Blank(value) && ',' !in name && ',' !in value
    ensures var n := TrimSpace(name);
            var others := Without(Settings(TrimSpace(current)), n);
            Settings(WithSetting(current, name, value)) == others + [Entry(n, TrimSpace(value))] && forall p ::
                p in others ==> !Sets(p, n)
  {
    hide Settings, Without, TrimSpace, Clean, Sets;
    var n, v := TrimSpace(name), TrimSpace(value);
    SettingsAfter(current, name, value);
    SettingsClean(TrimSpace(current), n);
    EntryClean(name, value);
    SettingsOfOne(Entry(n, v));
  }

  lemma EntryClean(name: string, value: string)
    requires !Blank(name) && !Blank(value) && ',' !in name && ',' !in value
    ensures Clean(Entry(TrimSpace(name), TrimSpace(value)))
  {
    hide IsSpace, TrimLeft, TrimRight;
    var n, v := TrimSpace(name), TrimSpace(value);
    TrimKeepsOut(name, ',');
    TrimKeepsOut(value, ',');
    var e := Entry(n, v);
    assert e[0] == n[0] && e[|e| - 1] == v[|v| - 1];
  }

  /** Every non-blank part of the new entry sets the name again, so that a second edit would drop it. */
  predicate Absorbs(n: string, v: string) {
    forall p :: p in Settings(Entry(n, v)) ==> Sets(p, n)
  }

  /** Editing twice is editing once, for every list, exactly when the new entry absorbs itself. */
  lemma SettingIdempotent(name: string, value: string)
    ensures (forall c :: WithSetting(WithSetting(c, name, value), name, value) == WithSetting(c, name, value))
            <==> Blank(name) || Blank(value) || Absorbs(TrimSpace(name), TrimSpace(value))
  {
    hide WithSetting, TrimSpace, Absorbs;
    if Blank(name) || Blank(value) || Absorbs(TrimSpace(name), TrimSpace(value)) {
      forall c ensures WithSetting(WithSetting(c, name, value), name, value) == WithSetting(c, name, value) {
        EditTwice(c, name, value);
      }
    } else {
      EditTwiceGrows(name, value);
    }
  }

  lemma EditTwice(current: string, name: string, value: string)
    requires Blank(name) || Blank(value) || Absorbs(TrimSpace(name), TrimSpace(value))
    ensures WithSetting(WithSetting(current, name, value), name, value) == WithSetting(current, name, value)
  {
    hide Settings, Without, TrimSpace, Sets, Join;
    var r := WithSetting(current, name, value);
    ResultTrimmed(current, name, value);
    if !Blank(name) {
      var n, v := TrimSpace(name), TrimSpace(value);
      var others := Without(Settings(TrimSpace(current)), n);
      var own := if v == "" then [] else Settings(Entry(n, v));
      SettingsAfter(current, name, value);
      SettingsClean(TrimSpace(current), n);
      WithoutConcat(others, own, n);
      WithoutNothing(others, n);
      WithoutAll(own, n);
      assert Without(Settings(r), n) == others;
    }
  }

  lemma {:induction false} WithoutAll(settings: seq<string>, name: string)
    requires forall p :: p in settings ==> Sets(p, name)
    ensures Without(settings, name) == []
  {
    if settings != [] {
      WithoutAll(settings[1..], name);
    }
  }

  lemma WithoutEmpty(n: string)
    ensures Without([], n) == []
  {
  }

  lemma EditTwiceGrows(name: string, value: string)
    requires !Blank(name) && !Blank(value) && !Absorbs(TrimSpace(name), TrimSpace(value))
    ensures WithSetting(WithSetting("", name, value), name, value) != WithSetting("", name, value)
  {
    hide Settings, Without, TrimSpace, Sets;
    var n, v := TrimSpace(name), TrimSpace(value);
    var e := Entry(n, v);
    NoSettings();
    BlankEmpty();
    WithoutEmpty(n);
    assert [] + [e] == [e];
    assert WithSetting("", name, value) == e;
    ResultTrimmed("", name, value);
    WithoutSubset(Settings(e), n);
    JoinLonger(Without(Settings(e), n), e);
  }

  // ----- build flags -----

  const VCS := "-buildvcs"
  const VCS_OFF := "-buildvcs=false"

  function AppendBuildVcs(current: string): string
  {
    if Contains(current, VCS) then TrimSpace(current)
    else if Blank(current) then VCS_OFF
    else TrimSpace(current) + " " + VCS_OFF
  }

  lemma {:induction false} TrimLeftDrops(s: string, i: nat)
    requires i < |s| - |TrimLeft(s)|
    ensures IsSpace(s[i])
  {
    if i > 0 {
      TrimLeftDrops(s[1..], i - 1);
    }
  }

  lemma {:induction false} TrimRightDrops(s: string, i: nat)
    requires |TrimRight(s)| <= i < |s|
    ensures IsSpace(s[i])
  {
    if i < |s| - 1 {
      TrimRightDrops(s[..|s| - 1], i);
    }
  }

  /** Trimming does not cut into a word that starts and ends with visible characters. */
  lemma ContainsTrimmed(s: string, sub: string)
    requires Contains(s, sub) && sub != "" && !IsSpace(sub[0]) && !IsSpace(sub[|sub| - 1])
    ensures Contains(TrimSpace(s), sub)
  {
    hide IsSpace, TrimLeft, TrimRight, OccursAt;
    var i: nat :| i <= |s| && OccursAt(s, i, sub);
    OccursFits(s, i, sub);
    OccursChar(s, i, sub, 0);
    OccursChar(s, i, sub, |sub| - 1);
    var left := TrimLeft(s);
    var cut := |s| - |left|;
    if i < cut {
      TrimLeftDrops(s, i);
    }
    var j := i - cut;
    assert s == s[..cut] + left;
    OccursShift(s[..cut], left, j, sub);
    assert left[j + |sub| - 1] == s[i + |sub| - 1];
    var r := TrimRight(left);
    if |r| < j + |sub| {
      TrimRightDrops(left, j + |sub| - 1);
    }
    OccursBefore(left, r, j, sub);
  }

  lemma OccursBefore(s: string, r: string, k: nat, p: string)
    requires OccursAt(s, k, p) && r <= s && k + |p| <= |r|
    ensures OccursAt(r, k, p)
  {
    assert r[k..k + |p|] == s[k..k + |p|];
  }

  lemma AppendBuildVcsContains(current: string)
    ensures Contains(AppendBuildVcs(current), VCS) && AppendBuildVcs(current) != ""
    ensures TrimSpace(AppendBuildVcs(current)) == AppendBuildVcs(current)
  {
    hide TrimSpace, IsSpace;
    assert !IsSpace('-') && !IsSpace('s') && !IsSpace('e') by { VisibleLetters(); }
    var t := TrimSpace(current);
    if Contains(current, VCS) {
      ContainsTrimmed(current, VCS);
      TrimSpaceIdempotent(current);
    } else if Blank(current) {
      OccursStart(VCS_OFF, VCS);
    } else {
      var r := t + " " + VCS_OFF;
      OccursStart(VCS_OFF, VCS);
      OccursShift(t + " ", VCS_OFF, 0, VCS);
      assert OccursAt(r, |t| + 1, VCS);
      assert r[0] == t[0] && r[|r| - 1] == 'e';
    }
  }

  /** Flags that speak of version control are left alone; to others `-buildvcs=false` is added at the end. */
  lemma AppendBuildVcsKeeps(current: string)
    ensures HasPrefix(AppendBuildVcs(current), TrimSpace(current))
    ensures if Contains(current, "-buildvcs") then AppendBuildVcs(current) == TrimSpace(current)
            else HasSuffix(AppendBuildVcs(current), "-buildvcs=false")
  {
    hide TrimSpace, Contains, HasSuffix;
    TrimAppended(TrimSpace(current) + " ", VCS_OFF);
    TrimAppended("", VCS_OFF);
    assert "" + VCS_OFF == VCS_OFF;
  }

  lemma VisibleLetters()
    ensures !IsSpace('-') && !IsSpace('s') && !IsSpace('e')
  {
  }

  lemma AppendBuildVcsIdempotent(current: string)
    ensures AppendBuildVcs(AppendBuildVcs(current)) == AppendBuildVcs(current)
  {
    hide TrimSpace, Contains;
    AppendBuildVcsContains(current);
  }

  // ----- the environment of a snapshot -----

  function SnapshotValue(env: seq<string>, cache: string, modules: string, key: string): Option<string>
  {
    if key == "GOCACHE" then Some(cache)
    else if key == "GOMODCACHE" then Some(modules)
    else if key == "GOFLAGS" then Some(AppendBuildVcs(Getenv(env, "GOFLAGS")))
    else if key == "GODEBUG" then Some(WithSetting(Getenv(env, "GODEBUG"), "gotypesalias", "1"))
    else Effective(env, key)
  }

  ghost predicate UniqueKeys(env: seq<string>) {
    forall k :: '=' !in k ==> Count(env, k) <= 1
  }

  lemma SetEnvUnique(env: seq<string>, key: string, value: string)
    requires UniqueKeys(env) && '=' !in key
    ensures UniqueKeys(SetEnv(env, key, value)) && Count(SetEnv(env, key, value), key) == 1
    ensures forall k :: '=' !in k ==>
            Effective(SetEnv(env, key, value), k) == if k == key then Some(value) else Effective(env, k)
  {
    hide Count, Effective, SetEnv;
    forall k | '=' !in k
      ensures Count(SetEnv(env, key, value), k) <= 1
      ensures Effective(SetEnv(env, key, value), k) == if k == key then Some(value) else Effective(env, k)
    {
      if k == key {
        SetEnvEffective(env, key, value);
      } else {
        SetEnvOthers(env, key, value, k);
      }
    }
    SetEnvEffective(env, key, value);
  }

  ghost function SnapshotEnv(env: seq<string>, cache: string, modules: string): seq<string>
  {
    var e1 := SetEnv(env, "GOCACHE", cache);
    var e2 := SetEnv(e1, "GOMODCACHE", modules);
    var e3 := SetEnv(e2, "GOFLAGS", AppendBuildVcs(Getenv(env, "GOFLAGS")));
    SetEnv(e3, "GODEBUG", WithSetting(Getenv(env, "GODEBUG"), "gotypesalias", "1"))
  }

  /** `snapshotCommandEnv`: from an environment with unique keys, exactly four keys get new values, each in
      one entry, and a command sees every other key as before. */
  method SnapshotCommandEnv(env: seq<string>, cache: string, modules: string) returns (r: seq<string>)
    ensures r == SnapshotEnv(env, cache, modules)
    ensures UniqueKeys(env) ==> && UniqueKeys(r)
                                && (forall k :: k in {"GOCACHE", "GOMODCACHE", "GOFLAGS", "GODEBUG"} ==>
                                    Count(r, k) == 1)
                                && (forall k :: '=' !in k ==> Effective(r, k) == SnapshotValue(env, cache, modules, k))
  {
    hide SetEnv, AppendBuildVcs, WithSetting, Getenv, UniqueKeys, Count, Effective, SnapshotValue;
    if UniqueKeys(env) {
      SnapshotEnvIsMapUpdate(env, cache, modules);
    }
    r := SetEnvironment(env, "GOCACHE", cache);
    r := SetEnvironment(r, "GOMODCACHE", modules);
    r := SetEnvironment(r, "GOFLAGS", AppendBuildVcs(Getenv(env, "GOFLAGS")));
    var debug := WithGoDebugSetting(Getenv(env, "GODEBUG"), "gotypesalias", "1");
    r := SetEnvironment(r, "GODEBUG", debug);
  }

  /** On an environment with unique keys the four edits are a map update of exactly those keys. */
  lemma SnapshotEnvIsMapUpdate(env: seq<string>, cache: string, modules: string)
    requires UniqueKeys(env)
    ensures var r := SnapshotEnv(env, cache, modules);
            && UniqueKeys(r)
            && (forall k :: k in {"GOCACHE", "GOMODCACHE", "GOFLAGS", "GODEBUG"} ==> Count(r, k) == 1)
            && (forall k :: '=' !in k ==> Effective(r, k) == SnapshotValue(env, cache, modules, k))
  {
    hide SetEnv, AppendBuildVcs, WithSetting, Getenv, Count, Effective, UniqueKeys;
    var flags, debug := AppendBuildVcs(Getenv(env, "GOFLAGS")),
        WithSetting(Getenv(env, "GODEBUG"), "gotypesalias", "1");
    var e1 := SetEnv(env, "GOCACHE", cache);
    var e2 := SetEnv(e1, "GOMODCACHE", modules);
    var e3 := SetEnv(e2, "GOFLAGS", flags);
    SetEnvUnique(env, "GOCACHE", cache);
    SetEnvUnique(e1, "GOMODCACHE", modules);
    SetEnvUnique(e2, "GOFLAGS", flags);
    SetEnvUnique(e3, "GODEBUG", debug);
    var r := SetEnv(e3, "GODEBUG", debug);
    forall k | k in {"GOCACHE", "GOMODCACHE", "GOFLAGS", "GODEBUG"} ensures Count(r, k) == 1 {
      EffectiveCount(r, k);
      UniqueAt(r, k);
    }
  }

  lemma UniqueAt(env: seq<string>, k: string)
    requires UniqueKeys(env) && '=' !in k
    ensures Count(env, k) <= 1
  {
  }

  /** Starting the tool inside its own environment changes nothing more. */
  lemma SnapshotEnvFixpoint(env: seq<string>, cache: string, modules: string)
    requires UniqueKeys(env)
    ensures SnapshotEnv(SnapshotEnv(env, cache, modules), cache, modules) == SnapshotEnv(env, cache, modules)
  {
    hide SetEnv, AppendBuildVcs, WithSetting, Count, Effective, UniqueKeys;
    var r := SnapshotEnv(env, cache, modules);
    SnapshotEnvIsMapUpdate(env, cache, modules);
    var flags, debug := AppendBuildVcs(Getenv(env, "GOFLAGS")),
        WithSetting(Getenv(env, "GODEBUG"), "gotypesalias", "1");
    AppendBuildVcsIdempotent(Getenv(env, "GOFLAGS"));
    AliasSettingIdempotent(Getenv(env, "GODEBUG"));
    assert Getenv(r, "GOFLAGS") == flags && Getenv(r, "GODEBUG") == debug;
    SetEnvSame(r, "GOCACHE", cache);
    SetEnvSame(r, "GOMODCACHE", modules);
    SetEnvSame(r, "GOFLAGS", flags);
    SetEnvSame(r, "GODEBUG", debug);
  }

  lemma AliasSettingIdempotent(current: string)
    ensures var r := WithSetting(current, "gotypesalias", "1"); WithSetting(r, "gotypesalias", "1") == r
  {
    hide Settings, WithSetting, IsSpace;
    assert !IsSpace('g') && !IsSpace('s') && !IsSpace('1') by { AliasLetters(); }
    var e := Entry("gotypesalias", "1");
    SettingsOfOne(e);
    EditTwice(current, "gotypesalias", "1");
  }

  lemma AliasLetters()
    ensures !IsSpace('g') && !IsSpace('s') && !IsSpace('1')
  {
  }

  /** What a command sees: the two caches, flags that speak of version control, and `gotypesalias=1` as the last of the
      debug settings and the only one of that name. */
  lemma SnapshotSettings(env: seq<string>, cache: string, modules: string)
    requires UniqueKeys(env)
    ensures var r := SnapshotEnv(env, cache, modules);
            && Effective(r, "GOCACHE") == Some(cache) && Effective(r, "GOMODCACHE") == Some(modules)
            && (var flags := Effective(r, "GOFLAGS"); flags.Some? && Contains(flags.value, "-buildvcs"))
            && (var debug := Effective(r, "GODEBUG");
                debug.Some? && OnlyLast(Settings(debug.value), "gotypesalias", "gotypesalias=1"))
  {
    hide SnapshotEnv, Effective, UniqueKeys, AppendBuildVcs, WithSetting, Getenv, Settings, Contains, OnlyLast,
         TrimSpace;
    SnapshotEnvIsMapUpdate(env, cache, modules);
    AppendBuildVcsContains(Getenv(env, "GOFLAGS"));
    AliasSettingLast(Getenv(env, "GODEBUG"));
  }

  /** The last setting is `entry`, and no other one is for `name`. */
  ghost predicate OnlyLast(all: seq<string>, name: string, entry: string) {
    |all| > 0 && all[|all| - 1] == entry && forall i :: 0 <= i < |all| - 1 ==> !Sets(all[i], name)
  }

  lemma AliasSettingLast(current: string)
    ensures OnlyLast(Settings(WithSetting(current, "gotypesalias", "1")), "gotypesalias", "gotypesalias=1")
  {
    hide Settings, WithSetting, IsSpace, OnlyLast, TrimLeft, TrimRight;
    assert !IsSpace('g') && !IsSpace('s') && !IsSpace('1') by { AliasLetters(); }
    SettingLast(current, "gotypesalias", "1");
    assert Entry("gotypesalias", "1") == "gotypesalias=1";
  }

  lemma SettingLast(current: string, name: string, value: string)
    requires name != "" && value != "" && TrimSpace(name) == name && TrimSpace(value) == value
    requires ',' !in name && ',' !in value
    ensures OnlyLast(Settings(WithSetting(current, name, value)), name, Entry(name, value))
  {
    hide WithSetting, Settings, Without, Sets, TrimSpace, Entry;
    SettingIsSet(current, name, value);
  }
}
